/** Coins under transfers: conservation, agreement with the ledger of completed transactions,
    the reward moved at most once, and the read-repair of src/utils/ledger-coins.ts. */
module CoinLedger {
  import opened Basics
  import opened Staff
  import R = Referrals

  // ---------------------------------------------------------------- sums over collections

  ghost function MapSum<K, V>(m: map<K, V>, f: V -> int): int
    decreases |m|
  {
    if m == map[] then 0
    else
      var k :| k in m;
      assert (m - {k}).Keys == m.Keys - {k};
      f(m[k]) + MapSum(m - {k}, f)
  }

  lemma {:induction false} MapSumSplit<K, V>(m: map<K, V>, f: V -> int, k: K)
    requires k in m
    ensures MapSum(m, f) == f(m[k]) + MapSum(m - {k}, f)
    decreases |m|
  {
    var j :| j in m && MapSum(m, f) == f(m[j]) + MapSum(m - {j}, f);
    if j != k {
      assert (m - {j}).Keys == m.Keys - {j} && (m - {k}).Keys == m.Keys - {k};
      MapSumSplit(m - {j}, f, k);
      MapSumSplit(m - {k}, f, j);
      assert m - {j} - {k} == m - {k} - {j};
    }
  }

  lemma MapSumInsert<K, V>(m: map<K, V>, f: V -> int, k: K, v: V)
    requires k !in m
    ensures MapSum(m[k := v], f) == MapSum(m, f) + f(v)
  {
    MapSumSplit(m[k := v], f, k);
    assert m[k := v] - {k} == m;
  }

  lemma MapSumUpdate<K, V>(m: map<K, V>, f: V -> int, k: K, v: V)
    requires k in m
    ensures MapSum(m[k := v], f) == MapSum(m, f) - f(m[k]) + f(v)
  {
    MapSumSplit(m, f, k);
    MapSumSplit(m[k := v], f, k);
    assert m[k := v] - {k} == m - {k};
  }

  lemma {:induction false} MapSumSame<K, V>(m: map<K, V>, n: map<K, V>, f: V -> int)
    requires m.Keys == n.Keys && forall k :: k in m ==> f(m[k]) == f(n[k])
    ensures MapSum(m, f) == MapSum(n, f)
    decreases |m|
  {
    if m != map[] {
      var k :| k in m;
      MapSumSplit(m, f, k);
      MapSumSplit(n, f, k);
      assert (m - {k}).Keys == m.Keys - {k} == (n - {k}).Keys;
      MapSumSame(m - {k}, n - {k}, f);
    } else {
      assert n.Keys == {};
      assert n == map[];
    }
  }

  // ---------------------------------------------------------------- balances and ledger

  function CoinsOf(u: User): int { u.coins }

  ghost function TotalCoins(db: Db): int { MapSum(db.users, CoinsOf) }

  /** What a completed transaction contributes to the ledger balance of `u`. */
  function Effect(u: Id): Txn -> int {
    (t: Txn) => if t.user == u && t.completed then if t.isCredit then t.coins else 0 - t.coins else 0
  }

  /** Completed credits minus completed debits. */
  ghost function Ledger(db: Db, u: Id): int { MapSum(db.txns, Effect(u)) }

  ghost function Offset(db: Db, u: Id): int
    requires u in db.users
  {
    db.users[u].coins - Ledger(db, u)
  }

  ghost predicate NonNegative(db: Db) { forall u :: u in db.users ==> db.users[u].coins >= 0 }

  /** No debit shares its id with a credit. */
  lemma IdsDiffer(u: Id, p: Id, t: Id, i: string, u': Id, p': Id, t': Id, i': string)
    ensures DebitId(u, p, t, i) != CreditId(u', p', t', i')
  {
    hide Suffix;
    assert DebitId(u, p, t, i)[25] == 'o';
    assert CreditId(u', p', t', i')[25] == 'i';
  }

  /** Distinct moves have distinct transaction ids. */
  lemma IdsInjective(u: Id, p: Id, t: Id, i: string, u': Id, p': Id, t': Id, i': string)
    ensures DebitId(u, p, t, i) == DebitId(u', p', t', i') <==> (u, p, t, i) == (u', p', t', i')
    ensures CreditId(u, p, t, i) == CreditId(u', p', t', i') <==> (u, p, t, i) == (u', p', t', i')
  {
    hide Suffix;
    var a, b := Suffix(u, p, t, i), Suffix(u', p', t', i');
    if a == b { SuffixInjective(u, p, t, i, u', p', t', i'); }
    assert DebitId(u, p, t, i)[29..] == a && DebitId(u', p', t', i')[29..] == b;
    assert CreditId(u, p, t, i)[28..] == a && CreditId(u', p', t', i')[28..] == b;
  }

  lemma SuffixInjective(u: Id, p: Id, t: Id, i: string, u': Id, p': Id, t': Id, i': string)
    requires Suffix(u, p, t, i) == Suffix(u', p', t', i')
    ensures (u, p, t, i) == (u', p', t', i')
  {
    SuffixParts(u, p, t, i);
    SuffixParts(u', p', t', i');
    hide Suffix;
  }

  lemma SuffixParts(u: Id, p: Id, t: Id, i: string)
    ensures var s := Suffix(u, p, t, i);
      |s| >= 74 && s[..24] == u && s[25..49] == p && s[50..74] == t && (|s| == 74 <==> i == "")
      && (i != "" ==> |s| > 75 && s[75..] == i)
  {
    hide IsHex;
  }

  lemma {:induction false} LedgerOfMove(db: Db, q: Request, reward: nat, v: Id)
    requires Accepted(db, q)
    ensures Ledger(Transferred(db, q, reward), v) == Ledger(db, v)
           + (if Moves(db, q) && OldReferrer(db, q) == Some(v) then 0 - reward else 0)
           + (if Moves(db, q) && v == q.target then reward else 0)
  {
    if Moves(db, q) {
      var u, p := UserOf(db, q), OldReferrer(db, q).value;
      var debit, credit := DebitId(u, p, q.target, q.idempotencyKey), CreditId(u, p, q.target, q.idempotencyKey);
      IdsDiffer(u, p, q.target, q.idempotencyKey, u, p, q.target, q.idempotencyKey);
      hide Relink, AddCoins, Reassign, PutEdge, DebitId, CreditId;
      MapSumInsert(db.txns, Effect(v), debit, Txn(p, false, reward, true));
      MapSumInsert(db.txns[debit := Txn(p, false, reward, true)], Effect(v), credit, Txn(q.target, true, reward, true));
    }
  }

  lemma TotalOfTransfer(db: Db, q: Request, reward: nat)
    requires Accepted(db, q)
    ensures TotalCoins(Transferred(db, q, reward)) == TotalCoins(db)
  {
    hide Transferred, MapSum, Relink, RefusalOf, DebitId, CreditId;
    AcceptedIds(db, q);
    var after := Transferred(db, q, reward).users;
    R.TransferredUser(db, q, reward, q.target);
    if Moves(db, q) {
      var p, t := OldReferrer(db, q).value, q.target;
      var shifted := db.users[p := db.users[p].(coins := db.users[p].coins - reward)]
                             [t := db.users[t].(coins := db.users[t].coins + reward)];
      MapSumUpdate<Id, User>(db.users, CoinsOf, p, db.users[p].(coins := db.users[p].coins - reward));
      MapSumUpdate<Id, User>(db.users[p := db.users[p].(coins := db.users[p].coins - reward)], CoinsOf, t,
                   db.users[t].(coins := db.users[t].coins + reward));
      forall r | r in after
        ensures CoinsOf(after[r]) == CoinsOf(shifted[r])
      {
        R.TransferredUser(db, q, reward, r);
      }
      MapSumSame<Id, User>(after, shifted, CoinsOf);
    } else {
      forall r | r in after
        ensures CoinsOf(after[r]) == CoinsOf(db.users[r])
      {
        R.TransferredUser(db, q, reward, r);
      }
      MapSumSame<Id, User>(after, db.users, CoinsOf);
    }
  }

  /** One transfer keeps the total, every user's distance from the ledger, and non-negativity. */
  lemma TransferConserves(db: Db, q: Request, reward: nat)
    ensures var after := Transfer(db, q, reward).0;
      && TotalCoins(after) == TotalCoins(db) && after.users.Keys == db.users.Keys
      && (forall u :: u in db.users ==> Offset(after, u) == Offset(db, u))
      && (NonNegative(db) ==> NonNegative(after))
  {
    hide Transferred, MapSum, RefusalOf, DebitId, CreditId;
    if Accepted(db, q) && !MustAbort(db, q, reward) {
      AcceptedIds(db, q);
      TotalOfTransfer(db, q, reward);
      R.TransferredUser(db, q, reward, q.target);
      forall u | u in db.users
        ensures Offset(Transferred(db, q, reward), u) == Offset(db, u)
        ensures NonNegative(db) ==> Transferred(db, q, reward).users[u].coins >= 0
      {
        R.TransferredUser(db, q, reward, u);
        LedgerOfMove(db, q, reward, u);
      }
    }
  }

  // ---------------------------------------------------------------- runs

  function RunTransfers(db: Db, qs: seq<Request>, reward: nat): Db {
    if qs == [] then db else Transfer(RunTransfers(db, qs[..|qs| - 1], reward), qs[|qs| - 1], reward).0
  }

  /** Over every run of transfers, whatever succeeds or fails. */
  lemma {:induction false} RunConserves(db: Db, qs: seq<Request>, reward: nat)
    ensures var after := RunTransfers(db, qs, reward);
      && TotalCoins(after) == TotalCoins(db) && after.users.Keys == db.users.Keys
      && (forall u :: u in db.users ==> Offset(after, u) == Offset(db, u))
      && (NonNegative(db) ==> NonNegative(after))
  {
    hide Transfer, MapSum, NonNegative, Offset, TotalCoins;
    if qs != [] {
      RunConserves(db, qs[..|qs| - 1], reward);
      TransferConserves(RunTransfers(db, qs[..|qs| - 1], reward), qs[|qs| - 1], reward);
    }
  }

  datatype Move = Move(user: Id, prev: Id, target: Id, idem: string)

  predicate MovedBy(db: Db, q: Request, reward: nat, m: Move) {
    Accepted(db, q) && !MustAbort(db, q, reward) && Moves(db, q)
    && m == Move(UserOf(db, q), OldReferrer(db, q).value, q.target, q.idempotencyKey)
  }

  /** How many requests of a run moved the reward for one user, pair of agencies and key. */
  function TimesMoved(db: Db, qs: seq<Request>, reward: nat, m: Move): nat {
    if qs == [] then 0 else
    var last := if MovedBy(RunTransfers(db, qs[..|qs| - 1], reward), qs[|qs| - 1], reward, m) then 1 else 0;
    TimesMoved(db, qs[..|qs| - 1], reward, m) + last
  }

  predicate Recorded(db: Db, m: Move) {
    DebitId(m.user, m.prev, m.target, m.idem) in db.txns || CreditId(m.user, m.prev, m.target, m.idem) in db.txns
  }

  /** A transfer records exactly the move it makes, and makes no recorded move again. */
  lemma TransferRecords(db: Db, q: Request, reward: nat, m: Move)
    ensures MovedBy(db, q, reward, m) ==> !Recorded(db, m)
    ensures Recorded(Transfer(db, q, reward).0, m) <==> Recorded(db, m) || MovedBy(db, q, reward, m)
  {
    hide Relink, AddCoins, Reassign, PutEdge, RefusalOf, DebitId, CreditId;
    if Accepted(db, q) && !MustAbort(db, q, reward) && Moves(db, q) {
      AcceptedIds(db, q);
      var u, p := UserOf(db, q), OldReferrer(db, q).value;
      IdsInjective(m.user, m.prev, m.target, m.idem, u, p, q.target, q.idempotencyKey);
      IdsDiffer(m.user, m.prev, m.target, m.idem, u, p, q.target, q.idempotencyKey);
      IdsDiffer(u, p, q.target, q.idempotencyKey, m.user, m.prev, m.target, m.idem);
    }
  }

  /** In every run the reward moves at most once for a given user, old agency, new agency and key;
      and the move is on record afterwards exactly if it was before or happened in the run, so no
      other move ever takes its place. */
  lemma {:induction false} MovedAtMostOnce(db: Db, qs: seq<Request>, reward: nat, m: Move)
    ensures TimesMoved(db, qs, reward, m) <= if Recorded(db, m) then 0 else 1
    ensures Recorded(RunTransfers(db, qs, reward), m) <==> Recorded(db, m) || TimesMoved(db, qs, reward, m) == 1
  {
    hide Transfer, Recorded, MovedBy;
    if qs != [] {
      MovedAtMostOnce(db, qs[..|qs| - 1], reward, m);
      TransferRecords(RunTransfers(db, qs[..|qs| - 1], reward), qs[|qs| - 1], reward, m);
    }
  }

  // ---------------------------------------------------------------- read-repair

  datatype LedgerCoins = LedgerCoins(expectedCoins: int, discrepancy: int, repaired: bool)

  /** The decision of `getCanonicalCoinsAndRepairIfNeeded`, for a balance the caller read earlier
      and the ledger as it is when aggregated. */
  ghost function Canonical(db: Db, u: Id, actualCoins: int, tolerance: int): LedgerCoins {
    var expected := Max(0, Ledger(db, u));
    LedgerCoins(expected, actualCoins - expected, Abs(actualCoins - expected) > Max(0, tolerance))
  }

  /** The repairing write, which is not guarded by what was read. */
  function Repair(db: Db, u: Id, expectedCoins: int): Db {
    if u in db.users then db.(users := db.users[u := db.users[u].(coins := expectedCoins)]) else db
  }

  /** What one ledger row counts for: its coins if it is a completed credit of the user, minus them if it is a
      completed debit, and nothing if it is not completed or is someone else's. */
  lemma LedgerCounts(db: Db, id: string, t: Txn, u: Id)
    requires id !in db.txns
    ensures Ledger(db.(txns := db.txns[id := t]), u) == Ledger(db, u)
         + (if t.user != u || !t.completed then 0 else if t.isCredit then t.coins else 0 - t.coins)
    ensures Ledger(db.(txns := map[]), u) == 0
  {
    MapSumInsert(db.txns, Effect(u), id, t);
  }

  /** The read-repair of any balance, consistent or not. The canonical balance is the ledger's, but never
      negative; the balance is repaired exactly if it is further from that than the tolerance; and a repair at
      once leaves the user exactly on a ledger that is not negative, and at 0 otherwise. */
  lemma RepairFollowsLedger(db: Db, u: Id, tolerance: int)
    requires u in db.users
    ensures var c := Canonical(db, u, db.users[u].coins, tolerance); var after := Repair(db, u, c.expectedCoins);
      && c.expectedCoins == (if Ledger(db, u) >= 0 then Ledger(db, u) else 0)
      && c.discrepancy == db.users[u].coins - c.expectedCoins
      && u in after.users && after.users[u].coins == c.expectedCoins
      && (Ledger(db, u) >= 0 ==>
            (c.repaired <==> Abs(Offset(db, u)) > Max(0, tolerance)) && Offset(after, u) == 0)
      && (Ledger(db, u) < 0 ==> (c.repaired <==> Abs(db.users[u].coins) > Max(0, tolerance)))
  {
    hide MapSum;
  }

  /** A repair writes one user's coins and nothing else. */
  lemma RepairChanges(db: Db, u: Id, coins: int)
    ensures var after := Repair(db, u, coins);
      && after == db.(users := after.users) && after.users.Keys == db.users.Keys
      && forall r :: r in db.users ==>
           after.users[r] == if r == u then db.users[r].(coins := coins) else db.users[r]
  {
  }

  /** Transfers never make a consistent ledger look broken: a balance read together with the
      ledger is left alone after every run. */
  lemma ConsistentNeverRepaired(db: Db, qs: seq<Request>, reward: nat, u: Id, tolerance: int)
    requires NonNegative(db) && u in db.users && Offset(db, u) == 0
    ensures var after := RunTransfers(db, qs, reward);
      u in after.users && Canonical(after, u, after.users[u].coins, tolerance)
                          == LedgerCoins(after.users[u].coins, 0, false)
  {
    hide RunTransfers, MapSum;
    RunConserves(db, qs, reward);
  }

  /** With the balance read first, the ledger aggregated after more transfers and the write after
      yet more, a repair is triggered exactly if the balance moved by more than the tolerance in
      between, and its write keeps the ledger in step exactly if the balance did not move
      after the aggregation; otherwise it creates or destroys the difference. */
  lemma StaleRepair(db: Db, qs: seq<Request>, qs': seq<Request>, reward: nat, u: Id, tolerance: int)
    requires NonNegative(db) && u in db.users && Offset(db, u) == 0
    ensures var mid := RunTransfers(db, qs, reward); var end := RunTransfers(mid, qs', reward);
      var c := Canonical(mid, u, db.users[u].coins, tolerance);
      && u in mid.users && u in end.users && c.expectedCoins == mid.users[u].coins
      && (c.repaired <==> Abs(db.users[u].coins - mid.users[u].coins) > Max(0, tolerance))
      && (Offset(Repair(end, u, c.expectedCoins), u) == 0 <==> end.users[u].coins == mid.users[u].coins)
      && TotalCoins(Repair(end, u, c.expectedCoins)) == TotalCoins(db) + mid.users[u].coins - end.users[u].coins
  {
    hide RunTransfers, MapSum;
    RunConserves(db, qs, reward);
    var mid := RunTransfers(db, qs, reward);
    RunConserves(mid, qs', reward);
    var end := RunTransfers(mid, qs', reward);
    MapSumUpdate<Id, User>(end.users, CoinsOf, u, end.users[u].(coins := mid.users[u].coins));
  }

  // ---------------------------------------------------------------- a lost update

  const AGENCY_A: Id := "aaaaaaaaaaaaaaaaaaaaaaaa"
  const AGENCY_B: Id := "bbbbbbbbbbbbbbbbbbbbbbbb"
  const HOST: Id := "cccccccccccccccccccccccc"

  /** Agency A holds 60 coins, all of them in the ledger, earned for referring the host. */
  function Scene(): Db {
    Db(map[HOST := Creator(Some(HOST), Some(AGENCY_A))],
       map[AGENCY_A := User(true, false, "AGA", None, [Referral(HOST, true)], 60, false),
           AGENCY_B := User(true, false, "AGB", None, [], 0, false),
           HOST := User(false, false, "", Some(AGENCY_A), [], 0, false)],
       map[HOST := Edge(AGENCY_A, "AGA", true)],
       map["credit" := Txn(AGENCY_A, true, 60, true)],
       map[])
  }

  function ToB(): Request { Request(HOST, AGENCY_B, "", true) }

  function ToA(): Request { Request(HOST, AGENCY_A, "", true) }

  lemma IdsApart()
    ensures AGENCY_A != AGENCY_B && AGENCY_A != HOST && AGENCY_B != HOST
  {
    assert AGENCY_A[0] == 'a' && AGENCY_B[0] == 'b' && HOST[0] == 'c';
  }

  lemma SceneMoves(reward: nat)
    ensures var db := Scene();
      && Accepted(db, ToB()) && OldReferrer(db, ToB()) == Some(AGENCY_A) && UserOf(db, ToB()) == HOST
      && (MustAbort(db, ToB(), reward) <==> reward > 60) && Moves(db, ToB())
  {
    IdsApart();
    assert DebitId(HOST, AGENCY_A, AGENCY_B, "")[0] == 'r' && CreditId(HOST, AGENCY_A, AGENCY_B, "")[0] == 'r';
    assert "credit"[0] == 'c';
  }

  /** An agency one coin short: the caller is never told the 409. */
  lemma AbortHappens()
    ensures var (after, o) := Transfer(Scene(), ToB(), 61);
      after == Scene() && o == Aborted(409) && Settled(o) == Rejects
  {
    SceneMoves(61);
    IdsApart();
    hide RefusalOf;
  }

  /** The scene once the host and its reward have moved to agency B. */
  function Moved(): Db {
    SceneMoves(60);
    Transferred(Scene(), ToB(), 60)
  }

  lemma MovedUsers()
    ensures var db := Moved();
      && db.users.Keys == {AGENCY_A, AGENCY_B, HOST}
      && db.users[AGENCY_A].coins == 0 && db.users[AGENCY_A].isAgency && !db.users[AGENCY_A].agencyDisabled
      && db.users[AGENCY_A].referralCode == "AGA"
      && db.users[AGENCY_B].coins == 60 && db.users[AGENCY_B].isAgency
      && db.users[HOST].referredBy == Some(AGENCY_B)
  {
    SceneMoves(60);
    IdsApart();
    R.TransferredUser(Scene(), ToB(), 60, AGENCY_A);
    R.TransferredUser(Scene(), ToB(), 60, AGENCY_B);
    R.TransferredUser(Scene(), ToB(), 60, HOST);
    hide Transferred;
    R.RelinkLinks(Scene().users, HOST, Some(AGENCY_A), AGENCY_B, true, AGENCY_A, HOST);
    R.RelinkLinks(Scene().users, HOST, Some(AGENCY_A), AGENCY_B, true, AGENCY_B, HOST);
    R.RelinkLinks(Scene().users, HOST, Some(AGENCY_A), AGENCY_B, true, HOST, HOST);
  }

  lemma MovedBack()
    ensures var db := Moved();
      && Accepted(db, ToA()) && OldReferrer(db, ToA()) == Some(AGENCY_B) && UserOf(db, ToA()) == HOST
      && !MustAbort(db, ToA(), 60) && Moves(db, ToA())
  {
    MovedUsers();
    MovedRest();
    IdsApart();
    BackIdsUnused();
    hide Moved, DebitId, CreditId, MoveTxns;
  }

  lemma BackIdsUnused()
    ensures var txns := MoveTxns(Scene().txns, HOST, AGENCY_A, AGENCY_B, "", 60);
      DebitId(HOST, AGENCY_B, AGENCY_A, "") !in txns && CreditId(HOST, AGENCY_B, AGENCY_A, "") !in txns
  {
    IdsApart();
    IdsInjective(HOST, AGENCY_A, AGENCY_B, "", HOST, AGENCY_B, AGENCY_A, "");
    IdsDiffer(HOST, AGENCY_A, AGENCY_B, "", HOST, AGENCY_B, AGENCY_A, "");
    IdsDiffer(HOST, AGENCY_B, AGENCY_A, "", HOST, AGENCY_A, AGENCY_B, "");
    assert DebitId(HOST, AGENCY_B, AGENCY_A, "")[0] == 'r' && CreditId(HOST, AGENCY_B, AGENCY_A, "")[0] == 'r';
    assert "credit"[0] == 'c';
    hide DebitId, CreditId;
  }

  lemma MovedRest()
    ensures var db := Moved();
      && db.creators == map[HOST := Creator(Some(HOST), Some(AGENCY_B))]
      && HOST in db.edges && db.edges[HOST].rewardGranted
      && db.txns == MoveTxns(Scene().txns, HOST, AGENCY_A, AGENCY_B, "", 60)
  {
    SceneMoves(60);
    hide Relink, AddCoins, MoveTxns, Reassign, RefusalOf;
  }

  lemma SceneConsistent()
    ensures NonNegative(Scene()) && AGENCY_B in Scene().users && Offset(Scene(), AGENCY_B) == 0
  {
    var none: map<string, Txn> := map[];
    IdsApart();
    MapSumInsert(none, Effect(AGENCY_B), "credit", Txn(AGENCY_A, true, 60, true));
    assert Scene().txns == none["credit" := Txn(AGENCY_A, true, 60, true)];
  }

  lemma OneTransfer(db: Db, q: Request, reward: nat)
    requires Accepted(db, q) && !MustAbort(db, q, reward)
    ensures RunTransfers(db, [q], reward) == Transferred(db, q, reward)
  {
    hide Transferred;
    assert RunTransfers(db, [q][..0], reward) == db;
  }

  lemma BothMoves()
    ensures var mid := RunTransfers(Scene(), [ToB()], 60); var end := RunTransfers(mid, [ToA()], 60);
      && AGENCY_B in mid.users && mid.users[AGENCY_B].coins == 60
      && AGENCY_B in end.users && end.users[AGENCY_B].coins == 0
  {
    IdsApart();
    SceneMoves(60);
    MovedUsers();
    MovedBack();
    OneTransfer(Scene(), ToB(), 60);
    OneTransfer(Moved(), ToA(), 60);
    R.TransferredUser(Moved(), ToA(), 60, AGENCY_B);
    hide Transferred, RunTransfers, RefusalOf, DebitId, CreditId;
  }

  /** A request reads agency B's balance, the reward moves to B, the ledger is summed, the reward moves
      back, and the repair is written: 60 coins appear from nowhere. */
  lemma RepairMintsCoins()
    ensures var db := Scene(); var mid := RunTransfers(db, [ToB()], 60); var end := RunTransfers(mid, [ToA()], 60);
      && AGENCY_B in db.users && AGENCY_B in end.users && end.users[AGENCY_B].coins == 0
      && Canonical(mid, AGENCY_B, db.users[AGENCY_B].coins, 1) == LedgerCoins(60, 0 - 60, true)
      && TotalCoins(Repair(end, AGENCY_B, 60)) == TotalCoins(db) + 60
  {
    IdsApart();
    SceneConsistent();
    BothMoves();
    hide RunTransfers, MapSum, Ledger, Repair, NonNegative;
    StaleRepair(Scene(), [ToB()], [ToA()], 60, AGENCY_B, 1);
  }
}
