/** Pending withdrawals follow their creator's agency: transfers, the reassignment of `patchAgency`
    and the reconciler of src/scripts/reconcile-unassigned-withdrawals.ts, whose reads and guarded
    writes interleave with everything else. */
module Withdrawals {
  import opened Basics
  import opened Staff

  /** The creator of user `u` is assigned to agency `a`. */
  ghost predicate HasAgency(db: Db, u: Id, a: Id) {
    exists c :: c in db.creators && db.creators[c].user == Some(u) && db.creators[c].agency == Some(a)
  }

  predicate SameUser(c: Creator, d: Creator) { c.user.Some? && c.user == d.user }

  /** The unique index on `Creator.userId`. */
  ghost predicate UniqueCreators(db: Db) {
    forall c, d :: c in db.creators && d in db.creators && SameUser(db.creators[c], db.creators[d]) ==> c == d
  }

  /** A pending withdrawal is unassigned or assigned to its creator's current agency. */
  ghost predicate RowFollows(db: Db, w: Id)
    requires w in db.withdrawals
  {
    var row := db.withdrawals[w];
    row.pending && row.agency.Some? ==> row.creatorUser.Some? && HasAgency(db, row.creatorUser.value, row.agency.value)
  }

  ghost predicate Follows(db: Db) { forall w :: w in db.withdrawals ==> RowFollows(db, w) }

  ghost predicate Sound(db: Db) { UniqueCreators(db) && Follows(db) }

  predicate Unassigned(db: Db, w: Id) {
    w in db.withdrawals && db.withdrawals[w].pending && db.withdrawals[w].agency.None?
  }

  // ---------------------------------------------------------------- transfer

  /** Only the transferred creator's assignment changes. */
  lemma TransferAgencies(db: Db, q: Request, reward: nat, v: Id, a: Id)
    requires Accepted(db, q) && UniqueCreators(db)
    ensures HasAgency(Transferred(db, q, reward), v, a)
        <==> if v == UserOf(db, q) then a == q.target else HasAgency(db, v, a)
  {
    hide Relink, AddCoins, MoveTxns, Reassign, PutEdge, Moves;
    AcceptedIds(db, q);
    hide RefusalOf;
    var after := Transferred(db, q, reward);
    assert after.creators == db.creators[q.creator := db.creators[q.creator].(agency := Some(q.target))];
    var c: Id := q.creator;
    assert after.creators[c].user == Some(UserOf(db, q)) && after.creators[c].agency == Some(q.target);
    if v != UserOf(db, q) && HasAgency(db, v, a) {
      var d :| d in db.creators && db.creators[d].user == Some(v) && db.creators[d].agency == Some(a);
      assert after.creators[d] == db.creators[d];
    }
  }

  lemma TransferKeepsFollowing(db: Db, q: Request, reward: nat)
    requires Sound(db)
    ensures Sound(Transfer(db, q, reward).0)
  {
    if Accepted(db, q) && !MustAbort(db, q, reward) {
      AcceptedIds(db, q);
      hide Relink, AddCoins, MoveTxns, PutEdge, Moves, RefusalOf, HasAgency;
      var after := Transferred(db, q, reward);
      forall w | w in after.withdrawals
        ensures RowFollows(after, w)
      {
        var row := after.withdrawals[w];
        if row.pending && row.agency.Some? && row.creatorUser.Some? {
          TransferAgencies(db, q, reward, row.creatorUser.value, row.agency.value);
        }
      }
      UniqueAfter(db, q, reward);
    }
  }

  lemma UniqueAfter(db: Db, q: Request, reward: nat)
    requires Accepted(db, q) && UniqueCreators(db)
    ensures UniqueCreators(Transferred(db, q, reward))
  {
    hide Relink, AddCoins, MoveTxns, Reassign, PutEdge, Moves;
    AcceptedIds(db, q);
    hide RefusalOf;
    var after := Transferred(db, q, reward);
    forall c | c in after.creators
      ensures c in db.creators && after.creators[c].user == db.creators[c].user
    {
    }
  }

  // ---------------------------------------------------------------- reassignment

  lemma PatchAgencies(db: Db, agent: Id, target: Id, v: Id, a: Id)
    ensures HasAgency(PatchCreators(db, agent, target), v, a)
        <==> if a == target then HasAgency(db, v, agent) || HasAgency(db, v, target)
             else a != agent && HasAgency(db, v, a)
  {
    var after := PatchCreators(db, agent, target);
    forall c | c in db.creators
      ensures c in after.creators && after.creators[c].user == db.creators[c].user
      ensures after.creators[c].agency
           == if db.creators[c].agency == Some(agent) then Some(target) else db.creators[c].agency
    {
    }
    hide PatchCreators;
    if HasAgency(db, v, a) {
      var c :| c in db.creators && db.creators[c].user == Some(v) && db.creators[c].agency == Some(a);
      assert c in after.creators;
    }
    if HasAgency(db, v, agent) {
      var c :| c in db.creators && db.creators[c].user == Some(v) && db.creators[c].agency == Some(agent);
      assert c in after.creators;
    }
  }

  lemma PatchUnique(db: Db, agent: Id, target: Id)
    requires UniqueCreators(db)
    ensures UniqueCreators(PatchCreators(db, agent, target))
  {
  }

  /** Reassigning an agency's creators takes their pending withdrawals along. */
  lemma PatchKeepsFollowing(db: Db, agent: Id, target: Id)
    requires Sound(db)
    ensures Sound(PatchReassign(db, agent, target))
  {
    hide Sound, PatchCreators, PatchWithdrawals;
    BothPatches(db, agent, target);
  }

  /** Who has which agency depends on the creators alone. */
  lemma SameCreators(a: Db, b: Db)
    requires a.creators == b.creators
    ensures forall v, x :: HasAgency(a, v, x) <==> HasAgency(b, v, x)
    ensures UniqueCreators(a) <==> UniqueCreators(b)
  {
  }

  /** The two bulk updates of `patchAgency` are not one transaction. A transfer that lands between
      them breaks the rule exactly when it hands a creator with pending withdrawals to the agency
      that is being emptied. */
  lemma TransferBetweenPatches(db: Db, agent: Id, target: Id, q: Request, reward: nat)
    requires Sound(db) && agent != target
    ensures var mid := PatchCreators(db, agent, target);
      var end := PatchWithdrawals(Transfer(mid, q, reward).0, agent, target);
      Sound(end) <==> !(Transfer(mid, q, reward).1.Done? && q.target == agent
                        && exists w :: w in db.withdrawals && PendingOf(db.withdrawals[w], UserOf(mid, q)))
  {
    var mid := PatchCreators(db, agent, target);
    PatchUnique(db, agent, target);
    if !Transfer(mid, q, reward).1.Done? {
      BothPatches(db, agent, target);
    } else {
      var moved := Transferred(mid, q, reward);
      var u := UserOf(mid, q);
      var end := PatchWithdrawals(moved, agent, target);
      AcceptedIds(mid, q);
      UniqueAfter(mid, q, reward);
      TransferredRows(mid, q, reward);
      hide Transferred, Transfer, HasAgency, PatchCreators, RefusalOf;
      SameCreators(moved, end);
      assert mid.withdrawals == db.withdrawals by { PatchCreatorsOnly(db, agent, target); }
      if q.target == agent && exists w :: w in db.withdrawals && PendingOf(db.withdrawals[w], u) {
        var w :| w in db.withdrawals && PendingOf(db.withdrawals[w], u);
        assert end.withdrawals[w].agency == Some(target);
        TransferAgencies(mid, q, reward, u, target);
        assert !RowFollows(end, w);
      } else {
        forall w | w in end.withdrawals
          ensures RowFollows(end, w)
        {
          BetweenRow(db, agent, target, q, reward, w);
        }
      }
    }
  }

  lemma PatchCreatorsOnly(db: Db, agent: Id, target: Id)
    ensures PatchCreators(db, agent, target).withdrawals == db.withdrawals
  {
  }

  lemma TransferredRows(db: Db, q: Request, reward: nat)
    requires Accepted(db, q)
    ensures Transferred(db, q, reward).withdrawals == Reassign(db.withdrawals, UserOf(db, q), q.target)
  {
    hide Relink, AddCoins, MoveTxns, Reassign, PutEdge, Moves, RefusalOf;
  }

  lemma BothPatches(db: Db, agent: Id, target: Id)
    requires Sound(db)
    ensures Sound(PatchWithdrawals(PatchCreators(db, agent, target), agent, target))
  {
    hide HasAgency;
    var mid := PatchCreators(db, agent, target);
    var after := PatchWithdrawals(mid, agent, target);
    PatchUnique(db, agent, target);
    SameCreators(mid, after);
    forall w | w in after.withdrawals
      ensures RowFollows(after, w)
    {
      var row := after.withdrawals[w];
      assert RowFollows(db, w);
      if row.pending && row.agency.Some? && row.creatorUser.Some? {
        PatchAgencies(db, agent, target, row.creatorUser.value, row.agency.value);
      }
    }
  }

  lemma BetweenRow(db: Db, agent: Id, target: Id, q: Request, reward: nat, w: Id)
    requires Sound(db) && agent != target && w in db.withdrawals
    requires UniqueCreators(PatchCreators(db, agent, target)) && Accepted(PatchCreators(db, agent, target), q)
    requires q.target == agent ==> !PendingOf(db.withdrawals[w], UserOf(PatchCreators(db, agent, target), q))
    ensures var end := PatchWithdrawals(Transferred(PatchCreators(db, agent, target), q, reward), agent, target);
      w in end.withdrawals && RowFollows(end, w)
  {
    var mid := PatchCreators(db, agent, target);
    PatchCreatorsOnly(db, agent, target);
    TransferredRows(mid, q, reward);
    AcceptedIds(mid, q);
    hide Transferred, HasAgency, PatchCreators, RefusalOf;
    var moved := Transferred(mid, q, reward);
    var end := PatchWithdrawals(moved, agent, target);
    SameCreators(moved, end);
    assert RowFollows(db, w);
    var row := end.withdrawals[w];
    if row.pending && row.agency.Some? && row.creatorUser.Some? {
      PatchAgencies(db, agent, target, row.creatorUser.value, row.agency.value);
      TransferAgencies(mid, q, reward, row.creatorUser.value, row.agency.value);
    }
  }

  // ---------------------------------------------------------------- reconciler

  /** A row the reconciler listed as pending and unassigned. */
  datatype Row = Row(id: Id, creatorUser: Option<Id>)

  datatype Assignment = Assignment(id: Id, agency: Id)

  /** The assignment that one row gets, if any. */
  function Plan(row: Row, agencyOf: map<Id, Option<Id>>): Option<Assignment> {
    if row.creatorUser.Some? && row.creatorUser.value in agencyOf && agencyOf[row.creatorUser.value].Some?
    then Some(Assignment(row.id, agencyOf[row.creatorUser.value].value)) else None
  }

  /** The rows that get a write: their user has a creator, and that creator an agency. */
  function Todo(rows: seq<Row>, agencyOf: map<Id, Option<Id>>): seq<Assignment> {
    if rows == [] then [] else
    var plan := Plan(rows[|rows| - 1], agencyOf);
    Todo(rows[..|rows| - 1], agencyOf) + if plan.Some? then [plan.value] else []
  }

  /** The guarded `updateOne`. */
  function WriteRow(db: Db, t: Assignment): Db {
    if Unassigned(db, t.id)
    then db.(withdrawals := db.withdrawals[t.id := db.withdrawals[t.id].(agency := Some(t.agency))]) else db
  }

  function WriteRows(db: Db, todo: seq<Assignment>): Db {
    if todo == [] then db else WriteRow(WriteRows(db, todo[..|todo| - 1]), todo[|todo| - 1])
  }

  /** How many of the writes find their row still pending and unassigned. */
  function Applied(db: Db, todo: seq<Assignment>): nat {
    if todo == [] then 0 else
    var front, last := todo[..|todo| - 1], todo[|todo| - 1];
    Applied(db, front) + if Unassigned(WriteRows(db, front), last.id) then 1 else 0
  }

  method WriteOne(store: Store, t: Assignment) returns (modified: bool)
    modifies store
    ensures store.State() == WriteRow(old(store.State()), t)
    ensures modified <==> Unassigned(old(store.State()), t.id)
  {
    modified := false;
    if t.id in store.withdrawals && store.withdrawals[t.id].pending && store.withdrawals[t.id].agency.None? {
      store.withdrawals := store.withdrawals[t.id := store.withdrawals[t.id].(agency := Some(t.agency))];
      modified := true;
    }
  }

  lemma TodoStart(rows: seq<Row>, agencyOf: map<Id, Option<Id>>, db: Db)
    ensures Todo(rows[..0], agencyOf) == [] && WriteRows(db, []) == db && Applied(db, []) == 0
  {
  }

  lemma TodoNext(rows: seq<Row>, i: nat, agencyOf: map<Id, Option<Id>>, db: Db)
    requires i < |rows|
    ensures var plan := Plan(rows[i], agencyOf);
      var before, after := Todo(rows[..i], agencyOf), Todo(rows[..i + 1], agencyOf);
      if plan.None? then after == before
      else
        && after == before + [plan.value] && WriteRows(db, after) == WriteRow(WriteRows(db, before), plan.value)
        && Applied(db, after) == Applied(db, before) + if Unassigned(WriteRows(db, before), rows[i].id) then 1 else 0
  {
    assert rows[..i + 1][..i] == rows[..i];
    hide WriteRow, Unassigned;
    var before, after := Todo(rows[..i], agencyOf), Todo(rows[..i + 1], agencyOf);
    if after != before { assert after[..|after| - 1] == before; }
  }

  /** One turn of the loop. */
  method ReconcileRow(store: Store, row: Row, creatorByUserId: map<Id, Option<Id>>, dryRun: bool)
    returns (eligible: bool, modified: bool)
    modifies store
    ensures eligible <==> Plan(row, creatorByUserId).Some?
    ensures !eligible || dryRun ==> store.State() == old(store.State()) && !modified
    ensures eligible && !dryRun ==> store.State() == WriteRow(old(store.State()), Plan(row, creatorByUserId).value)
    ensures eligible && !dryRun ==> (modified <==> Unassigned(old(store.State()), row.id))
  {
    hide WriteRow, Unassigned;
    modified := false;
    eligible := false;
    if row.creatorUser.None? {
      return;
    }
    if row.creatorUser.value !in creatorByUserId || creatorByUserId[row.creatorUser.value].None? {
      return;
    }
    eligible := true;
    if !dryRun {
      modified := WriteOne(store, Assignment(row.id, creatorByUserId[row.creatorUser.value].value));
    }
  }

  /** The loop of the reconciler over the rows it listed and the creators it joined. */
  method Reconcile(store: Store, rows: seq<Row>, creatorByUserId: map<Id, Option<Id>>, dryRun: bool)
    returns (eligible: nat, updated: nat, skipped: nat)
    modifies store
    ensures store.State()
         == if dryRun then old(store.State()) else WriteRows(old(store.State()), Todo(rows, creatorByUserId))
    ensures eligible == |Todo(rows, creatorByUserId)| && eligible + skipped == |rows|
    ensures updated == if dryRun then 0 else Applied(old(store.State()), Todo(rows, creatorByUserId))
  {
    ghost var start := store.State();
    eligible, updated, skipped := 0, 0, 0;
    hide Todo, WriteRows, WriteRow, Applied, Unassigned;
    TodoStart(rows, creatorByUserId, start);
    for i := 0 to |rows|
      invariant store.State() == if dryRun then start else WriteRows(start, Todo(rows[..i], creatorByUserId))
      invariant eligible == |Todo(rows[..i], creatorByUserId)| && eligible + skipped == i
      invariant updated == if dryRun then 0 else Applied(start, Todo(rows[..i], creatorByUserId))
    {
      TodoNext(rows, i, creatorByUserId, start);
      var found, modified := ReconcileRow(store, rows[i], creatorByUserId, dryRun);
      if found {
        eligible := eligible + 1;
        if modified { updated := updated + 1; }
      } else {
        skipped := skipped + 1;
      }
    }
    assert rows[..|rows|] == rows;
  }

  /** Where the reconciler is: before its reads, between them, or at its remaining writes. */
  datatype Phase = Idle | Listed(rows: seq<Row>) | Writing(todo: seq<Assignment>)

  datatype World = World(db: Db, phase: Phase)

  datatype Event =
    | TransferRequest(q: Request)
    | Settle(w: Id)
    | ListRows(rows: seq<Row>)
    | JoinCreators(agencyOf: map<Id, Option<Id>>)
    | WriteNext

  /** What `Withdrawal.find` may return. */
  ghost predicate IsListing(db: Db, rows: seq<Row>) {
    forall i :: 0 <= i < |rows| ==> Unassigned(db, rows[i].id) && RowKept(db, rows[i])
  }

  /** What `Creator.find` may return, by user. */
  ghost predicate IsJoin(db: Db, agencyOf: map<Id, Option<Id>>) {
    forall u :: u in agencyOf && agencyOf[u].Some? ==> HasAgency(db, u, agencyOf[u].value)
  }

  /** A withdrawal is approved, rejected or paid. */
  function SettleRow(db: Db, w: Id): Db {
    if w in db.withdrawals then db.(withdrawals := db.withdrawals[w := db.withdrawals[w].(pending := false)]) else db
  }

  ghost predicate Enabled(w: World, e: Event) {
    match e
    case TransferRequest(_) => true
    case Settle(_) => true
    case ListRows(rows) => w.phase.Idle? && IsListing(w.db, rows)
    case JoinCreators(agencyOf) => w.phase.Listed? && IsJoin(w.db, agencyOf)
    case WriteNext => w.phase.Writing? && w.phase.todo != []
  }

  function Step(w: World, e: Event, reward: nat): World {
    match e
    case TransferRequest(q) => w.(db := Transfer(w.db, q, reward).0)
    case Settle(id) => w.(db := SettleRow(w.db, id))
    case ListRows(rows) => w.(phase := Listed(rows))
    case JoinCreators(agencyOf) =>
      w.(phase := if w.phase.Listed? then Writing(Todo(w.phase.rows, agencyOf)) else w.phase)
    case WriteNext =>
      if w.phase.Writing? && w.phase.todo != []
      then World(WriteRow(w.db, w.phase.todo[0]), Writing(w.phase.todo[1..])) else w
  }

  ghost predicate IsRun(w: World, es: seq<Event>, reward: nat)
    decreases |es|
  {
    es == [] || (Enabled(w, es[0]) && IsRun(Step(w, es[0], reward), es[1..], reward))
  }

  function Run(w: World, es: seq<Event>, reward: nat): World
    decreases |es|
  {
    if es == [] then w else Run(Step(w, es[0], reward), es[1..], reward)
  }

  /** A row still waiting for its write would be given its creator's current agency. */
  ghost predicate SafeRow(db: Db, t: Assignment) {
    Unassigned(db, t.id) ==> db.withdrawals[t.id].creatorUser.Some?
                             && HasAgency(db, db.withdrawals[t.id].creatorUser.value, t.agency)
  }

  predicate RowKept(db: Db, row: Row) {
    row.id in db.withdrawals && db.withdrawals[row.id].creatorUser == row.creatorUser
  }

  ghost predicate Invariant(w: World) {
    && Sound(w.db)
    && (w.phase.Listed? ==> forall i :: 0 <= i < |w.phase.rows| ==> RowKept(w.db, w.phase.rows[i]))
    && (w.phase.Writing? ==> forall i :: 0 <= i < |w.phase.todo| ==> SafeRow(w.db, w.phase.todo[i]))
  }

  lemma TransferKeepsSafeRow(db: Db, q: Request, reward: nat, t: Assignment)
    requires UniqueCreators(db) && SafeRow(db, t)
    ensures SafeRow(Transfer(db, q, reward).0, t)
  {
    if Accepted(db, q) && !MustAbort(db, q, reward) {
      TransferredRows(db, q, reward);
      hide Transferred, HasAgency, RefusalOf;
      if Unassigned(db, t.id) && db.withdrawals[t.id].creatorUser.Some? {
        TransferAgencies(db, q, reward, db.withdrawals[t.id].creatorUser.value, t.agency);
      }
    }
  }

  lemma WriteKeepsSound(db: Db, t: Assignment)
    requires Sound(db) && SafeRow(db, t)
    ensures Sound(WriteRow(db, t))
  {
    hide HasAgency;
    var after := WriteRow(db, t);
    SameCreators(db, after);
    forall w | w in after.withdrawals
      ensures RowFollows(after, w)
    {
      assert RowFollows(db, w);
    }
  }

  lemma WriteKeepsSafeRow(db: Db, t: Assignment, s: Assignment)
    requires SafeRow(db, s)
    ensures SafeRow(WriteRow(db, t), s)
  {
    hide HasAgency;
    SameCreators(db, WriteRow(db, t));
  }

  lemma {:induction false} TodoIsSafe(db: Db, rows: seq<Row>, agencyOf: map<Id, Option<Id>>)
    requires IsJoin(db, agencyOf)
    requires forall i :: 0 <= i < |rows| ==> RowKept(db, rows[i])
    ensures forall t :: t in Todo(rows, agencyOf) ==> SafeRow(db, t)
  {
    hide HasAgency;
    if rows != [] { TodoIsSafe(db, rows[..|rows| - 1], agencyOf); }
  }

  lemma SettleKeepsSafeRow(db: Db, w: Id, t: Assignment)
    requires SafeRow(db, t)
    ensures SafeRow(SettleRow(db, w), t)
  {
    hide HasAgency;
    SameCreators(db, SettleRow(db, w));
  }

  lemma StepKeepsInvariant(w: World, e: Event, reward: nat)
    requires Invariant(w) && Enabled(w, e)
    ensures Invariant(Step(w, e, reward))
  {
    assert UniqueCreators(w.db);
    hide Sound, SafeRow, Transfer, HasAgency, UniqueCreators;
    match e
    case TransferRequest(q) =>
      TransferKeepsFollowing(w.db, q, reward);
      TransferKeepsRows(w.db, q, reward);
      if w.phase.Writing? {
        forall i | 0 <= i < |w.phase.todo|
          ensures SafeRow(Transfer(w.db, q, reward).0, w.phase.todo[i])
        {
          TransferKeepsSafeRow(w.db, q, reward, w.phase.todo[i]);
        }
      }
    case Settle(id) =>
      SettleKeepsSound(w.db, id);
      if w.phase.Writing? {
        forall i | 0 <= i < |w.phase.todo|
          ensures SafeRow(SettleRow(w.db, id), w.phase.todo[i])
        {
          SettleKeepsSafeRow(w.db, id, w.phase.todo[i]);
        }
      }
    case ListRows(rows) =>
    case JoinCreators(agencyOf) =>
      TodoIsSafe(w.db, w.phase.rows, agencyOf);
    case WriteNext =>
      var todo := w.phase.todo;
      WriteKeepsSound(w.db, todo[0]);
      forall i | 0 <= i < |todo| - 1
        ensures SafeRow(WriteRow(w.db, todo[0]), todo[1..][i])
      {
        WriteKeepsSafeRow(w.db, todo[0], todo[i + 1]);
      }
  }

  lemma TransferKeepsRows(db: Db, q: Request, reward: nat)
    ensures Transfer(db, q, reward).0.withdrawals.Keys == db.withdrawals.Keys
    ensures forall w :: w in db.withdrawals ==>
      Transfer(db, q, reward).0.withdrawals[w].creatorUser == db.withdrawals[w].creatorUser
  {
    if Accepted(db, q) && !MustAbort(db, q, reward) {
      TransferredRows(db, q, reward);
      hide Transferred, RefusalOf;
    }
  }

  lemma SettleKeepsSound(db: Db, w: Id)
    requires Sound(db)
    ensures Sound(SettleRow(db, w))
  {
    hide HasAgency;
    var after := SettleRow(db, w);
    SameCreators(db, after);
    forall x | x in after.withdrawals
      ensures RowFollows(after, x)
    {
      assert RowFollows(db, x);
    }
  }

  /** However transfers and settlements fall between the reconciler's two reads and its writes,
      every pending withdrawal is unassigned or with its creator's current agency throughout. */
  lemma {:induction false} RunKeepsFollowing(w: World, es: seq<Event>, reward: nat)
    requires Invariant(w) && IsRun(w, es, reward)
    ensures Invariant(Run(w, es, reward)) && Follows(Run(w, es, reward).db)
    decreases |es|
  {
    hide Step, Enabled;
    if es != [] {
      StepKeepsInvariant(w, es[0], reward);
      RunKeepsFollowing(Step(w, es[0], reward), es[1..], reward);
    }
  }

  /** A reassignment between the reconciler's read of a creator and its write is not covered by
      the guard: the write then breaks the rule exactly if it still applies and names the agency
      that was emptied. */
  lemma PatchBetweenReadAndWrite(db: Db, agent: Id, target: Id, t: Assignment)
    requires Sound(db) && SafeRow(db, t) && agent != target
    ensures var patched := PatchWithdrawals(PatchCreators(db, agent, target), agent, target);
      Sound(WriteRow(patched, t)) <==> !(Unassigned(db, t.id) && t.agency == agent)
  {
    BothPatches(db, agent, target);
    PatchCreatorsOnly(db, agent, target);
    hide HasAgency;
    var mid := PatchCreators(db, agent, target);
    var patched := PatchWithdrawals(mid, agent, target);
    SameCreators(mid, patched);
    SameCreators(patched, WriteRow(patched, t));
    if Unassigned(db, t.id) {
      var u := db.withdrawals[t.id].creatorUser.value;
      PatchAgencies(db, agent, target, u, t.agency);
      if t.agency == agent {
        assert !RowFollows(WriteRow(patched, t), t.id);
      } else {
        WriteKeepsSound(patched, t);
      }
    }
  }

  ghost predicate CreatorHasAgency(db: Db, w: Id)
    requires w in db.withdrawals
  {
    db.withdrawals[w].creatorUser.Some? && exists a :: HasAgency(db, db.withdrawals[w].creatorUser.value, a)
  }

  /** An undisturbed reconciler run that lists and joins everything leaves a pending withdrawal
      unassigned only if its creator has no agency. */
  lemma ReconcileComplete(db: Db, rows: seq<Row>, agencyOf: map<Id, Option<Id>>)
    requires Sound(db) && IsListing(db, rows) && IsJoin(db, agencyOf)
    requires forall w :: Unassigned(db, w) ==> Row(w, db.withdrawals[w].creatorUser) in rows
    requires forall u, a :: HasAgency(db, u, a) ==> u in agencyOf && agencyOf[u].Some?
    ensures var after := WriteRows(db, Todo(rows, agencyOf));
      && Sound(after)
      && forall w :: Unassigned(after, w) <==> Unassigned(db, w) && !CreatorHasAgency(db, w)
  {
    var todo := Todo(rows, agencyOf);
    TodoIsSafe(db, rows, agencyOf);
    WritesKeep(db, todo);
    hide HasAgency, Sound;
    forall w
      ensures Unassigned(WriteRows(db, todo), w) <==> Unassigned(db, w) && forall t :: t in todo ==> t.id != w
    {
      WritesAssign(db, todo, w);
    }
    forall w | Unassigned(db, w)
      ensures (exists t :: t in todo && t.id == w) <==> CreatorHasAgency(db, w)
    {
      TodoHolds(rows, agencyOf, Row(w, db.withdrawals[w].creatorUser));
      TodoFrom(rows, agencyOf, w);
    }
  }

  lemma {:induction false} WritesKeep(db: Db, todo: seq<Assignment>)
    requires Sound(db) && forall t :: t in todo ==> SafeRow(db, t)
    ensures Sound(WriteRows(db, todo)) && WriteRows(db, todo).creators == db.creators
    ensures forall t :: SafeRow(db, t) ==> SafeRow(WriteRows(db, todo), t)
  {
    hide Sound, SafeRow;
    if todo != [] {
      var front, last := todo[..|todo| - 1], todo[|todo| - 1];
      WritesKeep(db, front);
      WriteKeepsSound(WriteRows(db, front), last);
      forall t | SafeRow(db, t)
        ensures SafeRow(WriteRows(db, todo), t)
      {
        WriteKeepsSafeRow(WriteRows(db, front), last, t);
      }
    }
  }

  lemma {:induction false} WritesAssign(db: Db, todo: seq<Assignment>, w: Id)
    ensures Unassigned(WriteRows(db, todo), w) <==> Unassigned(db, w) && forall t :: t in todo ==> t.id != w
  {
    if todo != [] {
      WritesAssign(db, todo[..|todo| - 1], w);
      assert todo == todo[..|todo| - 1] + [todo[|todo| - 1]];
    }
  }

  lemma {:induction false} TodoHolds(rows: seq<Row>, agencyOf: map<Id, Option<Id>>, row: Row)
    requires row in rows
    ensures row.creatorUser.Some? && row.creatorUser.value in agencyOf && agencyOf[row.creatorUser.value].Some?
        ==> Assignment(row.id, agencyOf[row.creatorUser.value].value) in Todo(rows, agencyOf)
  {
    if row in rows[..|rows| - 1] { TodoHolds(rows[..|rows| - 1], agencyOf, row); }
    else { assert rows == rows[..|rows| - 1] + [rows[|rows| - 1]]; }
  }

  lemma {:induction false} TodoFrom(rows: seq<Row>, agencyOf: map<Id, Option<Id>>, w: Id)
    ensures forall t :: t in Todo(rows, agencyOf) && t.id == w ==>
      exists i :: 0 <= i < |rows| && rows[i].id == w && rows[i].creatorUser.Some?
        && rows[i].creatorUser.value in agencyOf && agencyOf[rows[i].creatorUser.value] == Some(t.agency)
  {
    if rows != [] {
      TodoFrom(rows[..|rows| - 1], agencyOf, w);
    }
  }

  /** What the writes of the reconciler change: the agency of rows that were pending and unassigned, each to
      an agency planned for it. Rows settled or assigned by then are left alone, and so is everything else. */
  lemma {:induction false} WritesChange(db: Db, todo: seq<Assignment>)
    ensures var after := WriteRows(db, todo);
      && after == db.(withdrawals := after.withdrawals) && after.withdrawals.Keys == db.withdrawals.Keys
      && (forall w :: w in db.withdrawals ==> RowChange(db.withdrawals[w], after.withdrawals[w], w, todo))
  {
    if todo != [] {
      var front, last := todo[..|todo| - 1], todo[|todo| - 1];
      WritesChange(db, front);
      assert todo == front + [last];
      var mid, after := WriteRows(db, front), WriteRows(db, todo);
      assert after == WriteRow(mid, last) && after == mid.(withdrawals := after.withdrawals);
      hide WriteRows, WriteRow;
      assert after.withdrawals.Keys == mid.withdrawals.Keys by { WriteKeys(mid, last); }
      forall w | w in db.withdrawals
        ensures RowChange(db.withdrawals[w], after.withdrawals[w], w, todo)
      {
        assert RowChange(db.withdrawals[w], mid.withdrawals[w], w, front);
        WriteChanges(mid, last, w);
      }
    }
  }

  lemma WriteKeys(db: Db, t: Assignment)
    ensures WriteRow(db, t).withdrawals.Keys == db.withdrawals.Keys
  {
  }

  lemma WriteChanges(db: Db, t: Assignment, w: Id)
    requires w in db.withdrawals
    ensures var row, after := db.withdrawals[w], WriteRow(db, t).withdrawals;
      && after.Keys == db.withdrawals.Keys
      && after[w] == if w == t.id && row.pending && row.agency.None? then row.(agency := Some(t.agency)) else row
  {
  }

  predicate RowChange(before: Withdrawal, after: Withdrawal, id: Id, todo: seq<Assignment>) {
    && after == before.(agency := after.agency)
    && (after == before || (before.pending && before.agency.None? && after.agency.Some?
                         && Assignment(id, after.agency.value) in todo))
  }

  // ---------------------------------------------------------------- anything between the two updates

  /** Between the two bulk updates a pending row is with its creator's agency, or is still with the agency
      that is being emptied while its creator is already with the target. */
  ghost predicate RowBetween(db: Db, agent: Id, target: Id, w: Id)
    requires w in db.withdrawals
  {
    var row := db.withdrawals[w];
    row.pending && row.agency.Some? ==>
      row.creatorUser.Some? && (HasAgency(db, row.creatorUser.value, row.agency.value)
                                || (row.agency.value == agent && HasAgency(db, row.creatorUser.value, target)))
  }

  ghost predicate Between(w: World, agent: Id, target: Id) {
    && UniqueCreators(w.db)
    && (forall x :: x in w.db.withdrawals ==> RowBetween(w.db, agent, target, x))
    && (w.phase.Listed? ==> forall i :: 0 <= i < |w.phase.rows| ==> RowKept(w.db, w.phase.rows[i]))
    && (w.phase.Writing? ==> forall i :: 0 <= i < |w.phase.todo| ==> SafeRow(w.db, w.phase.todo[i]))
  }

  /** A pending row of the emptied agency whose creator is with that agency. */
  ghost predicate Stranded(db: Db, agent: Id, w: Id) {
    && w in db.withdrawals && db.withdrawals[w].pending && db.withdrawals[w].agency == Some(agent)
    && db.withdrawals[w].creatorUser.Some? && HasAgency(db, db.withdrawals[w].creatorUser.value, agent)
  }

  lemma PatchStartsBetween(db: Db, agent: Id, target: Id)
    requires Sound(db)
    ensures Between(World(PatchCreators(db, agent, target), Idle), agent, target)
  {
    PatchUnique(db, agent, target);
    PatchCreatorsOnly(db, agent, target);
    var mid := PatchCreators(db, agent, target);
    hide PatchCreators, HasAgency;
    forall x | x in mid.withdrawals
      ensures RowBetween(mid, agent, target, x)
    {
      assert RowFollows(db, x);
      var row := db.withdrawals[x];
      if row.pending && row.agency.Some? && row.creatorUser.Some? {
        PatchAgencies(db, agent, target, row.creatorUser.value, row.agency.value);
        PatchAgencies(db, agent, target, row.creatorUser.value, target);
      }
    }
  }

  lemma TransferKeepsBetweenRow(db: Db, agent: Id, target: Id, q: Request, reward: nat, w: Id)
    requires UniqueCreators(db) && w in db.withdrawals && RowBetween(db, agent, target, w)
    ensures var after := Transfer(db, q, reward).0;
      w in after.withdrawals && RowBetween(after, agent, target, w)
  {
    if Accepted(db, q) && !MustAbort(db, q, reward) {
      TransferredRows(db, q, reward);
      hide Transferred, HasAgency, RefusalOf;
      var row := Transferred(db, q, reward).withdrawals[w];
      if row.pending && row.agency.Some? && row.creatorUser.Some? {
        TransferAgencies(db, q, reward, row.creatorUser.value, row.agency.value);
        TransferAgencies(db, q, reward, row.creatorUser.value, target);
      }
    }
  }

  lemma TransferKeepsUnique(db: Db, q: Request, reward: nat)
    requires UniqueCreators(db)
    ensures UniqueCreators(Transfer(db, q, reward).0)
  {
    hide Transferred, UniqueCreators, RefusalOf;
    if Accepted(db, q) && !MustAbort(db, q, reward) { UniqueAfter(db, q, reward); }
  }

  lemma TransferKeepsBetween(w: World, agent: Id, target: Id, q: Request, reward: nat)
    requires Between(w, agent, target)
    ensures Between(Step(w, TransferRequest(q), reward), agent, target)
  {
    hide SafeRow, Transfer, HasAgency, RowBetween, UniqueCreators;
    TransferKeepsUnique(w.db, q, reward);
    TransferKeepsRows(w.db, q, reward);
    var after := Transfer(w.db, q, reward).0;
    forall x | x in after.withdrawals
      ensures RowBetween(after, agent, target, x)
    {
      TransferKeepsBetweenRow(w.db, agent, target, q, reward, x);
    }
    if w.phase.Writing? {
      forall i | 0 <= i < |w.phase.todo|
        ensures SafeRow(after, w.phase.todo[i])
      {
        TransferKeepsSafeRow(w.db, q, reward, w.phase.todo[i]);
      }
    }
  }

  lemma SettleKeepsBetween(w: World, agent: Id, target: Id, id: Id, reward: nat)
    requires Between(w, agent, target)
    ensures Between(Step(w, Settle(id), reward), agent, target)
  {
    hide SafeRow, HasAgency;
    var after := SettleRow(w.db, id);
    SameCreators(w.db, after);
    forall x | x in after.withdrawals
      ensures RowBetween(after, agent, target, x)
    {
      assert RowBetween(w.db, agent, target, x);
    }
    if w.phase.Writing? {
      forall i | 0 <= i < |w.phase.todo|
        ensures SafeRow(after, w.phase.todo[i])
      {
        SettleKeepsSafeRow(w.db, id, w.phase.todo[i]);
      }
    }
  }

  lemma WriteKeepsBetween(w: World, agent: Id, target: Id, reward: nat)
    requires Between(w, agent, target) && Enabled(w, WriteNext)
    ensures Between(Step(w, WriteNext, reward), agent, target)
  {
    hide HasAgency;
    var todo := w.phase.todo;
    var after := WriteRow(w.db, todo[0]);
    SameCreators(w.db, after);
    assert SafeRow(w.db, todo[0]);
    forall x | x in after.withdrawals
      ensures RowBetween(after, agent, target, x)
    {
      assert RowBetween(w.db, agent, target, x);
    }
    forall i | 0 <= i < |todo| - 1
      ensures SafeRow(after, todo[1..][i])
    {
      WriteKeepsSafeRow(w.db, todo[0], todo[i + 1]);
    }
  }

  lemma StepKeepsBetween(w: World, agent: Id, target: Id, e: Event, reward: nat)
    requires Between(w, agent, target) && Enabled(w, e)
    ensures Between(Step(w, e, reward), agent, target)
  {
    hide SafeRow, Transfer, HasAgency, RowBetween, UniqueCreators;
    match e
    case TransferRequest(q) => TransferKeepsBetween(w, agent, target, q, reward);
    case Settle(id) => SettleKeepsBetween(w, agent, target, id, reward);
    case ListRows(rows) =>
    case JoinCreators(agencyOf) => TodoIsSafe(w.db, w.phase.rows, agencyOf);
    case WriteNext => WriteKeepsBetween(w, agent, target, reward);
  }

  lemma {:induction false} RunKeepsBetween(w: World, agent: Id, target: Id, es: seq<Event>, reward: nat)
    requires Between(w, agent, target) && IsRun(w, es, reward)
    ensures Between(Run(w, es, reward), agent, target)
    decreases |es|
  {
    hide Step, Enabled, Between;
    if es != [] {
      StepKeepsBetween(w, agent, target, es[0], reward);
      RunKeepsBetween(Step(w, es[0], reward), agent, target, es[1..], reward);
    }
  }

  /** A creator is not with two agencies. */
  lemma OneAgency(db: Db, u: Id, a: Id, b: Id)
    requires UniqueCreators(db) && HasAgency(db, u, a) && HasAgency(db, u, b)
    ensures a == b
  {
    var c :| c in db.creators && db.creators[c].user == Some(u) && db.creators[c].agency == Some(a);
    var d :| d in db.creators && db.creators[d].user == Some(u) && db.creators[d].agency == Some(b);
    assert SameUser(db.creators[c], db.creators[d]);
  }

  /** The second update restores the rule exactly if it finds no stranded row. */
  lemma SecondUpdate(w: World, agent: Id, target: Id)
    requires Between(w, agent, target) && agent != target
    ensures Sound(PatchWithdrawals(w.db, agent, target)) <==> forall x :: !Stranded(w.db, agent, x)
  {
    hide HasAgency;
    var after := PatchWithdrawals(w.db, agent, target);
    SameCreators(w.db, after);
    if x :| Stranded(w.db, agent, x) {
      assert after.withdrawals[x].agency == Some(target);
      var u := w.db.withdrawals[x].creatorUser.value;
      if HasAgency(w.db, u, target) { OneAgency(w.db, u, agent, target); }
      assert !RowFollows(after, x);
    } else {
      forall x | x in after.withdrawals
        ensures RowFollows(after, x)
      {
        assert RowBetween(w.db, agent, target, x) && !Stranded(w.db, agent, x);
      }
    }
  }

  /** Whatever falls between the two bulk updates of `patchAgency`, any number of transfers, settlements
      and steps of a reconciler, the rule holds after the second exactly if just before it no pending
      row of the emptied agency belongs to a creator of that agency. */
  lemma RunBetweenPatches(db: Db, agent: Id, target: Id, es: seq<Event>, reward: nat)
    requires Sound(db) && agent != target && IsRun(World(PatchCreators(db, agent, target), Idle), es, reward)
    ensures var before := Run(World(PatchCreators(db, agent, target), Idle), es, reward).db;
      Sound(PatchWithdrawals(before, agent, target)) <==> forall w :: !Stranded(before, agent, w)
  {
    var start := World(PatchCreators(db, agent, target), Idle);
    PatchStartsBetween(db, agent, target);
    hide Between, Run, IsRun, PatchCreators, PatchWithdrawals, Sound, Stranded;
    RunKeepsBetween(start, agent, target, es, reward);
    SecondUpdate(Run(start, es, reward), agent, target);
  }

  // ---------------------------------------------------------------- the rule broken

  const HOST: Id := "cccccccccccccccccccccccc"
  const EMPTIED: Id := "aaaaaaaaaaaaaaaaaaaaaaaa"
  const TARGET: Id := "bbbbbbbbbbbbbbbbbbbbbbbb"

  /** Two agencies and a host with a pending withdrawal that nobody is assigned to yet. */
  function Scene(agency: Option<Id>): Db {
    Db(map[HOST := Creator(Some(HOST), agency)],
       map[EMPTIED := User(true, false, "AGE", None, [], 0, false),
           TARGET := User(true, false, "AGT", None, [], 0, false),
           HOST := User(false, false, "", None, [], 0, false)],
       map[], map[], map[HOST := Withdrawal(Some(HOST), true, None)])
  }

  lemma SceneIds()
    ensures EMPTIED != TARGET && EMPTIED != HOST && TARGET != HOST
  {
    assert EMPTIED[0] == 'a' && TARGET[0] == 'b' && HOST[0] == 'c';
  }

  /** A host joins the agency while it is being emptied: the creator stays there and its withdrawal goes
      to the target. */
  lemma PatchTransferBreaks()
    ensures var db := Scene(None);
      var mid := PatchCreators(db, EMPTIED, TARGET);
      Sound(db) && !Sound(PatchWithdrawals(Transfer(mid, Request(HOST, EMPTIED, "", false), 0).0, EMPTIED, TARGET))
  {
    SceneIds();
    var db, q := Scene(None), Request(HOST, EMPTIED, "", false);
    var mid := PatchCreators(db, EMPTIED, TARGET);
    assert mid.creators[HOST] == Creator(Some(HOST), None);
    assert Accepted(mid, q) && !MustAbort(mid, q, 0) && UserOf(mid, q) == HOST;
    assert PendingOf(db.withdrawals[HOST], HOST);
    assert Transfer(mid, q, 0).1.Done? by { hide Transferred, RefusalOf, PatchCreators; }
    hide Transfer, Transferred, PatchCreators, PatchWithdrawals, RefusalOf;
    TransferBetweenPatches(db, EMPTIED, TARGET, q, 0);
  }

  /** The reconciler read the creator's agency, the agency is emptied, and the write follows the read. */
  lemma PatchReconcileBreaks()
    ensures var db := Scene(Some(EMPTIED)); var t := Assignment(HOST, EMPTIED);
      && Sound(db) && SafeRow(db, t)
      && !Sound(WriteRow(PatchWithdrawals(PatchCreators(db, EMPTIED, TARGET), EMPTIED, TARGET), t))
  {
    SceneIds();
    var db := Scene(Some(EMPTIED));
    assert HasAgency(db, HOST, EMPTIED) by { assert db.creators[HOST] == Creator(Some(HOST), Some(EMPTIED)); }
    assert Unassigned(db, HOST);
    hide HasAgency, PatchCreators, PatchWithdrawals, WriteRow;
    PatchBetweenReadAndWrite(db, EMPTIED, TARGET, Assignment(HOST, EMPTIED));
  }
}
