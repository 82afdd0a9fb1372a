/** The collections behind agencies, creators and referrals, and the operations that write
    them: `transferCreatorToAgency` (src/modules/admin/creator-transfer.service.ts),
    `rejectAgencyReferredUser` (src/modules/agency/agency-portal.controller.ts) and the
    reassignment in `patchAgency` (src/modules/admin/admin-agency.controller.ts).
    A Mongo transaction is one step on the whole database. */
module Staff {
  import opened Basics

  type Id = s: string | IsObjectId(s) witness "000000000000000000000000"

  datatype Referral = Referral(user: Id, rewardGranted: bool)

  datatype User = User(isAgency: bool, agencyDisabled: bool, referralCode: string, referredBy: Option<Id>,
                       referrals: seq<Referral>, coins: int, hostRejected: bool)

  /** `ReferralEdge`, stored under its unique `referredUserId`. */
  datatype Edge = Edge(referrer: Id, code: string, rewardGranted: bool)

  /** `CoinTransaction`, stored under its unique `transactionId`. */
  datatype Txn = Txn(user: Id, isCredit: bool, coins: int, completed: bool)

  datatype Creator = Creator(user: Option<Id>, agency: Option<Id>)

  datatype Withdrawal = Withdrawal(creatorUser: Option<Id>, pending: bool, agency: Option<Id>)

  datatype Db = Db(creators: map<Id, Creator>, users: map<Id, User>, edges: map<Id, Edge>,
                   txns: map<string, Txn>, withdrawals: map<Id, Withdrawal>)

  datatype Request = Request(creator: string, target: string, idempotencyKey: string, moveRewards: bool)

  /** `Refused` returns a status from within the transaction; `Aborted` assigns the status `lost` and
      throws ABORT_TX. */
  datatype Outcome = Refused(status: int) | Aborted(lost: int) | Done(rewardMoved: bool, reassigned: nat)

  /** What the caller's promise does. The throw leaves `transferCreatorToAgency` through `finally`, past
      the statement that would return the result. */
  datatype Settlement = Resolves(status: int) | Rejects

  function Settled(o: Outcome): Settlement {
    match o
    case Refused(status) => Resolves(status)
    case Aborted(_) => Rejects
    case Done(_, _) => Resolves(200)
  }

  // ---------------------------------------------------------------- transfer

  predicate EnabledAgency(users: map<Id, User>, a: string) {
    IsObjectId(a) && a in users && users[a].isAgency && !users[a].agencyDisabled
  }

  function RefusalOf(db: Db, q: Request): (status: int) {
    if !IsObjectId(q.creator) || !IsObjectId(q.target) then 400
    else if q.creator !in db.creators then 404
    else if db.creators[q.creator].user.None? then 409
    else if q.target !in db.users || !db.users[q.target].isAgency || db.users[q.target].agencyDisabled then 404
    else if db.users[q.target].referralCode == "" then 409
    else if db.creators[q.creator].user.value !in db.users then 404
    else 200
  }

  /** The request names an existing creator with a user, and an enabled agency with a code. */
  predicate Accepted(db: Db, q: Request) { RefusalOf(db, q) == 200 }

  lemma AcceptedIds(db: Db, q: Request)
    requires Accepted(db, q)
    ensures IsObjectId(q.creator) && IsObjectId(q.target) && q.creator in db.creators && q.target in db.users
    ensures db.creators[q.creator].user.Some? && db.creators[q.creator].user.value in db.users
  {
  }

  function UserOf(db: Db, q: Request): Id
    requires Accepted(db, q)
  {
    db.creators[q.creator].user.value
  }

  function OldReferrer(db: Db, q: Request): Option<Id>
    requires Accepted(db, q)
  {
    db.users[UserOf(db, q)].referredBy
  }

  function GrantedBefore(db: Db, u: Id): bool { u in db.edges && db.edges[u].rewardGranted }

  /** The caller asked for the coins to follow, the reward was granted and the referrer changes. */
  predicate WantsMove(db: Db, q: Request)
    requires Accepted(db, q)
  {
    q.moveRewards && GrantedBefore(db, UserOf(db, q)) && OldReferrer(db, q).Some?
    && OldReferrer(db, q).value != q.target
  }

  predicate MustAbort(db: Db, q: Request, reward: nat)
    requires Accepted(db, q)
  {
    WantsMove(db, q) &&
    var prev := OldReferrer(db, q).value;
    prev !in db.users || (db.users[prev].isAgency && db.users[prev].coins < reward)
  }

  predicate Eligible(db: Db, q: Request)
    requires Accepted(db, q)
  {
    WantsMove(db, q) && OldReferrer(db, q).value in db.users && db.users[OldReferrer(db, q).value].isAgency
  }

  function Suffix(user: Id, prev: Id, target: Id, idem: string): string {
    user + "_" + prev + "_" + target + if idem == "" then "" else "_" + idem
  }

  function DebitId(user: Id, prev: Id, target: Id, idem: string): string {
    "referral_reward_transfer_out_" + Suffix(user, prev, target, idem)
  }

  function CreditId(user: Id, prev: Id, target: Id, idem: string): string {
    "referral_reward_transfer_in_" + Suffix(user, prev, target, idem)
  }

  function PutEdge(edges: map<Id, Edge>, u: Id, target: Id, code: string): map<Id, Edge> {
    edges[u := Edge(target, code, u in edges && edges[u].rewardGranted)]
  }

  /** What `$pull: { referrals: { user } }` leaves. */
  function Without(rs: seq<Referral>, u: Id): seq<Referral> {
    if rs == [] then []
    else Without(rs[..|rs| - 1], u) + if rs[|rs| - 1].user == u then [] else [rs[|rs| - 1]]
  }

  function Pull(users: map<Id, User>, r: Id, u: Id): map<Id, User> {
    if r in users then users[r := users[r].(referrals := Without(users[r].referrals, u))] else users
  }

  function Push(users: map<Id, User>, r: Id, e: Referral): map<Id, User> {
    if r in users then users[r := users[r].(referrals := users[r].referrals + [e])] else users
  }

  function AddCoins(users: map<Id, User>, r: Id, n: int): map<Id, User> {
    if r in users then users[r := users[r].(coins := users[r].coins + n)] else users
  }

  function Relink(users: map<Id, User>, u: Id, prev: Option<Id>, target: Id, granted: bool): map<Id, User>
    requires u in users
  {
    var linked := users[u := users[u].(referredBy := Some(target))];
    var unlinked := if prev.Some? then Pull(linked, prev.value, u) else linked;
    Push(Pull(unlinked, target, u), target, Referral(u, granted))
  }

  /** The move happens once the two transaction ids are both unused. */
  predicate Moves(db: Db, q: Request)
    requires Accepted(db, q)
  {
    Eligible(db, q) &&
    var u, prev := UserOf(db, q), OldReferrer(db, q).value;
    && DebitId(u, prev, q.target, q.idempotencyKey) !in db.txns
    && CreditId(u, prev, q.target, q.idempotencyKey) !in db.txns
  }

  function MoveTxns(txns: map<string, Txn>, u: Id, prev: Id, target: Id, idem: string, reward: nat): map<string, Txn> {
    txns[DebitId(u, prev, target, idem) := Txn(prev, false, reward, true)]
        [CreditId(u, prev, target, idem) := Txn(target, true, reward, true)]
  }

  predicate PendingOf(w: Withdrawal, u: Id) { w.creatorUser == Some(u) && w.pending }

  function Reassign(ws: map<Id, Withdrawal>, u: Id, target: Id): map<Id, Withdrawal> {
    map w | w in ws :: if PendingOf(ws[w], u) then ws[w].(agency := Some(target)) else ws[w]
  }

  /** `modifiedCount`: every matched row, since the update also sets `updatedAt`. */
  function Reassigned(ws: map<Id, Withdrawal>, u: Id): nat {
    |set w | w in ws && PendingOf(ws[w], u)|
  }

  /** The state after an accepted, unaborted transfer. */
  function Transferred(db: Db, q: Request, reward: nat): Db
    requires Accepted(db, q)
  {
    var u, t := UserOf(db, q), q.target;
    var prev := OldReferrer(db, q);
    var users := Relink(db.users, u, prev, t, GrantedBefore(db, u));
    Db(db.creators[q.creator := db.creators[q.creator].(agency := Some(t))],
       if Moves(db, q) then AddCoins(AddCoins(users, prev.value, 0 - reward), t, reward) else users,
       PutEdge(db.edges, u, t, db.users[t].referralCode),
       if Moves(db, q) then MoveTxns(db.txns, u, prev.value, t, q.idempotencyKey, reward) else db.txns,
       Reassign(db.withdrawals, u, t))
  }

  function Transfer(db: Db, q: Request, reward: nat): (r: (Db, Outcome)) {
    if !Accepted(db, q) then (db, Refused(RefusalOf(db, q)))
    else if MustAbort(db, q, reward) then (db, Aborted(if OldReferrer(db, q).value in db.users then 409 else 404))
    else (Transferred(db, q, reward), Done(Moves(db, q), Reassigned(db.withdrawals, UserOf(db, q))))
  }

  /** The request moves a granted reward away from a referrer that no longer exists. */
  predicate ReferrerGone(db: Db, q: Request)
    requires Accepted(db, q)
  {
    WantsMove(db, q) && OldReferrer(db, q).value !in db.users
  }

  /** The request moves a granted reward away from an agency that has not got the coins. */
  predicate ReferrerShort(db: Db, q: Request, reward: nat)
    requires Accepted(db, q)
  {
    Eligible(db, q) && db.users[OldReferrer(db, q).value].coins < reward
  }

  /** A referrer that is gone (404) or short of coins (409) is never reported to the caller: exactly
      then the promise rejects without a status. Every other failed check resolves with its status. */
  lemma AbortLosesStatus(db: Db, q: Request, reward: nat)
    ensures var (after, o) := Transfer(db, q, reward);
      && (Settled(o) == Rejects <==> Accepted(db, q) && (ReferrerGone(db, q) || ReferrerShort(db, q, reward)))
      && (o.Aborted? ==> after == db && (o.lost == 404 <==> ReferrerGone(db, q)) && o.lost in {404, 409})
      && (Settled(o) == Resolves(200) <==> o.Done?)
  {
    hide Transferred;
  }

  // ---------------------------------------------------------------- rejection

  /** The transaction of `rejectAgencyReferredUser`: a guarded unlink, an unguarded `$pull` and a
      guarded delete of the edge. */
  function RejectCommit(db: Db, agency: Id, u: Id): Db {
    var unlinked := if u in db.users && db.users[u].referredBy == Some(agency)
      then db.users[u := db.users[u].(referredBy := None, hostRejected := true)] else db.users;
    db.(users := Pull(unlinked, agency, u),
        edges := if u in db.edges && db.edges[u].referrer == agency then db.edges - {u} else db.edges)
  }

  // ---------------------------------------------------------------- reassignment

  function PatchCreators(db: Db, agent: Id, target: Id): Db {
    db.(creators := map c | c in db.creators ::
      if db.creators[c].agency == Some(agent) then db.creators[c].(agency := Some(target)) else db.creators[c])
  }

  function PatchWithdrawals(db: Db, agent: Id, target: Id): Db {
    db.(withdrawals := map w | w in db.withdrawals ::
      if db.withdrawals[w].agency == Some(agent) && db.withdrawals[w].pending
      then db.withdrawals[w].(agency := Some(target)) else db.withdrawals[w])
  }

  predicate CanReassign(db: Db, agent: Id, target: Id) {
    && agent in db.users && db.users[agent].isAgency
    && target in db.users && db.users[target].isAgency && !db.users[target].agencyDisabled
  }

  /** Both bulk updates of `patchAgency`, when the target is an enabled agency. */
  function PatchReassign(db: Db, agent: Id, target: Id): Db {
    if CanReassign(db, agent, target) then PatchWithdrawals(PatchCreators(db, agent, target), agent, target) else db
  }

  // ---------------------------------------------------------------- the store

  /** The live collections, written one statement at a time as the service does. */
  class Store {
    var creators: map<Id, Creator>
    var users: map<Id, User>
    var edges: map<Id, Edge>
    var txns: map<string, Txn>
    var withdrawals: map<Id, Withdrawal>

    ghost function State(): Db
      reads this
    {
      Db(creators, users, edges, txns, withdrawals)
    }

    constructor (db: Db)
      ensures State() == db
    {
      creators, users, edges, txns, withdrawals := db.creators, db.users, db.edges, db.txns, db.withdrawals;
    }

    /** The checks in the order of the service; 200 lets the transfer go on. */
    method CheckRequest(q: Request) returns (status: int)
      ensures status == RefusalOf(State(), q)
      ensures status == 400 <==> !IsObjectId(q.creator) || !IsObjectId(q.target)
      ensures status == 200 <==> (
        && q.creator in creators && creators[q.creator].user.Some? && creators[q.creator].user.value in users
        && EnabledAgency(users, q.target) && users[q.target].referralCode != "")
      ensures status == 409 <==> (
        && q.creator in creators && IsObjectId(q.target)
        && (creators[q.creator].user.None? || (EnabledAgency(users, q.target) && users[q.target].referralCode == "")))
      ensures status in {200, 400, 404, 409}
    {
      if !IsObjectId(q.creator) { return 400; }
      if !IsObjectId(q.target) { return 400; }
      if q.creator !in creators { return 404; }
      if creators[q.creator].user.None? { return 409; }
      if q.target !in users || !users[q.target].isAgency || users[q.target].agencyDisabled { return 404; }
      if users[q.target].referralCode == "" { return 409; }
      if creators[q.creator].user.value !in users { return 404; }
      status := 200;
    }

    /** `user.save`, then `$pull` from the old and the new referrer, then `$push`. */
    method RelinkUser(u: Id, prev: Option<Id>, target: Id, granted: bool)
      requires u in users
      modifies this`users
      ensures users == Relink(old(users), u, prev, target, granted)
    {
      if users[u].referredBy != Some(target) {
        users := users[u := users[u].(referredBy := Some(target))];
      }
      assert users == old(users)[u := old(users)[u].(referredBy := Some(target))];
      hide Pull, Push;
      if prev.Some? {
        users := Pull(users, prev.value, u);
      }
      users := Pull(users, target, u);
      users := Push(users, target, Referral(u, granted));
    }

    /** The guarded pair of ledger rows with the matching pair of balance changes. */
    method MoveReward(u: Id, prev: Id, target: Id, idem: string, reward: nat) returns (moved: bool)
      modifies this`users, this`txns
      ensures moved <==> DebitId(u, prev, target, idem) !in old(txns) && CreditId(u, prev, target, idem) !in old(txns)
      ensures moved ==> users == AddCoins(AddCoins(old(users), prev, 0 - reward), target, reward)
      ensures moved ==> txns == MoveTxns(old(txns), u, prev, target, idem, reward)
      ensures !moved ==> users == old(users) && txns == old(txns)
    {
      hide DebitId, CreditId, AddCoins;
      var debit, credit := DebitId(u, prev, target, idem), CreditId(u, prev, target, idem);
      moved := false;
      if debit !in txns && credit !in txns {
        txns := txns[debit := Txn(prev, false, reward, true)];
        txns := txns[credit := Txn(target, true, reward, true)];
        users := AddCoins(users, prev, 0 - reward);
        users := AddCoins(users, target, reward);
        moved := true;
      }
    }

    /** `transferCreatorToAgency` */
    method TransferCreatorToAgency(q: Request, reward: nat) returns (result: Outcome)
      modifies this
      ensures (State(), result) == Transfer(old(State()), q, reward)
    {
      hide Relink, AddCoins, MoveTxns, DebitId, CreditId, Reassign, Reassigned;
      var status := CheckRequest(q);
      if status != 200 { return Refused(status); }
      AcceptedIds(State(), q);
      hide RefusalOf;
      var creator := creators[q.creator];
      var u := creator.user.value;
      var code := users[q.target].referralCode;
      var oldReferredBy := users[u].referredBy;
      var granted := u in edges && edges[u].rewardGranted;
      var eligible := false;
      if q.moveRewards && granted && oldReferredBy.Some? && oldReferredBy.value != q.target {
        if oldReferredBy.value !in users { return Aborted(404); }
        var oldRef := users[oldReferredBy.value];
        if oldRef.isAgency {
          if oldRef.coins < reward { return Aborted(409); }
          eligible := true;
        }
      }

      if u in edges {
        edges := edges[u := edges[u].(referrer := q.target, code := code)];
      } else {
        edges := edges[u := Edge(q.target, code, false)];
      }
      if creator.agency != Some(q.target) {
        creators := creators[q.creator := creator.(agency := Some(q.target))];
      }
      assert creators == old(creators)[q.creator := creator.(agency := Some(q.target))];
      RelinkUser(u, oldReferredBy, q.target, granted);
      var moved := false;
      if eligible {
        moved := MoveReward(u, oldReferredBy.value, q.target, q.idempotencyKey, reward);
      }
      var count := Reassigned(withdrawals, u);
      withdrawals := Reassign(withdrawals, u, q.target);
      result := Done(moved, count);
    }

    /** The transaction of `rejectAgencyReferredUser` */
    method RejectReferredUser(agency: Id, u: Id) returns (unlinked: bool)
      modifies this
      ensures State() == RejectCommit(old(State()), agency, u)
      ensures unlinked <==> u in old(users) && old(users)[u].referredBy == Some(agency)
    {
      unlinked := false;
      if u in users && users[u].referredBy == Some(agency) {
        users := users[u := users[u].(referredBy := None, hostRejected := true)];
        unlinked := true;
      }
      users := Pull(users, agency, u);
      if u in edges && edges[u].referrer == agency {
        edges := edges - {u};
      }
    }

    /** The reassignment branch of `patchAgency` */
    method ReassignCreators(agent: Id, target: Id) returns (status: int)
      modifies this
      ensures State() == PatchReassign(old(State()), agent, target)
      ensures status == if CanReassign(old(State()), agent, target) then 200 else 404
    {
      if agent !in users || !users[agent].isAgency { return 404; }
      if target !in users || !users[target].isAgency || users[target].agencyDisabled { return 404; }
      creators := map c | c in creators ::
        if creators[c].agency == Some(agent) then creators[c].(agency := Some(target)) else creators[c];
      withdrawals := map w | w in withdrawals ::
        if withdrawals[w].agency == Some(agent) && withdrawals[w].pending
        then withdrawals[w].(agency := Some(target)) else withdrawals[w];
      status := 200;
    }
  }
}
