/** Referral links are kept three times over: as `referredBy` on the referred user, as an entry in
    the referrer's `referrals` and as a `ReferralEdge`. Every run of transfers and rejections,
    with rejections that act on stale reads, keeps the three in step. */
module Referrals {
  import opened Basics
  import opened Staff

  function Count(rs: seq<Referral>, u: Id): nat {
    if rs == [] then 0 else Count(rs[..|rs| - 1], u) + if rs[|rs| - 1].user == u then 1 else 0
  }

  predicate Refers(db: Db, u: Id, r: Id) { u in db.users && db.users[u].referredBy == Some(r) }

  /** The entries of each referrer are exactly the users that name it, each once. */
  ghost predicate ListsAgree(db: Db) {
    forall r, u :: r in db.users ==> Count(db.users[r].referrals, u) == if Refers(db, u, r) then 1 else 0
  }

  /** A user has an edge exactly when it has a referrer, and the edge names that referrer. */
  ghost predicate EdgesAgree(db: Db) {
    && (forall u :: u in db.edges <==> u in db.users && db.users[u].referredBy.Some?)
    && (forall u :: u in db.edges ==> Refers(db, u, db.edges[u].referrer))
  }

  /** Every referrer exists, and its entry repeats the edge's reward flag. */
  ghost predicate EntriesAgree(db: Db) {
    && (forall u :: u in db.users && db.users[u].referredBy.Some? ==> db.users[u].referredBy.value in db.users)
    && (forall r, e :: r in db.users && e in db.users[r].referrals ==>
          e.user in db.edges && db.edges[e.user].rewardGranted == e.rewardGranted)
  }

  ghost predicate Symmetric(db: Db) { ListsAgree(db) && EdgesAgree(db) && EntriesAgree(db) }

  // ---------------------------------------------------------------- pull and push

  lemma {:induction false} CountWithout(rs: seq<Referral>, u: Id, v: Id)
    ensures Count(Without(rs, u), v) == if v == u then 0 else Count(rs, v)
  {
    if rs != [] {
      CountWithout(rs[..|rs| - 1], u, v);
      var kept := Without(rs[..|rs| - 1], u);
      var last := rs[|rs| - 1];
      if last.user != u { assert (kept + [last])[..|kept|] == kept; } else { assert kept + [] == kept; }
    }
  }

  lemma {:induction false} WithoutNone(rs: seq<Referral>, u: Id)
    requires Count(rs, u) == 0
    ensures Without(rs, u) == rs
  {
    if rs != [] { WithoutNone(rs[..|rs| - 1], u); }
  }

  lemma {:induction false} WithoutKeeps(rs: seq<Referral>, u: Id, e: Referral)
    ensures e in Without(rs, u) <==> e in rs && e.user != u
  {
    if rs != [] {
      WithoutKeeps(rs[..|rs| - 1], u, e);
      assert rs == rs[..|rs| - 1] + [rs[|rs| - 1]];
    }
  }

  lemma CountPushed(rs: seq<Referral>, e: Referral, v: Id)
    ensures Count(rs + [e], v) == Count(rs, v) + if e.user == v then 1 else 0
  {
    assert (rs + [e])[..|rs|] == rs;
  }

  /** The entries of `r` after `u` is relinked from `prev` to `t`. */
  function Relisted(rs: seq<Referral>, r: Id, u: Id, prev: Option<Id>, t: Id, granted: bool): seq<Referral> {
    var pulled := if prev == Some(r) then Without(rs, u) else rs;
    if r == t then Without(pulled, u) + [Referral(u, granted)] else pulled
  }

  lemma RelinkUserOf(users: map<Id, User>, u: Id, prev: Option<Id>, t: Id, granted: bool, r: Id)
    requires u in users && t in users && r in users
    ensures var after := Relink(users, u, prev, t, granted);
      && after.Keys == users.Keys
      && after[r] == users[r].(referredBy := if r == u then Some(t) else users[r].referredBy,
                               referrals := Relisted(users[r].referrals, r, u, prev, t, granted))
  {
    hide Without;
  }

  lemma CountRelisted(rs: seq<Referral>, r: Id, u: Id, prev: Option<Id>, t: Id, granted: bool, v: Id)
    ensures Count(Relisted(rs, r, u, prev, t, granted), v)
         == if v != u then Count(rs, v) else if r == t then 1 else if prev == Some(r) then 0 else Count(rs, u)
  {
    hide Without, Count;
    var pulled := if prev == Some(r) then Without(rs, u) else rs;
    CountWithout(rs, u, v);
    CountWithout(pulled, u, v);
    CountPushed(Without(pulled, u), Referral(u, granted), v);
  }

  /** What relinking `u` to `t` does to the links of user `r`, and that it does nothing else. */
  lemma RelinkLinks(users: map<Id, User>, u: Id, prev: Option<Id>, t: Id, granted: bool, r: Id, v: Id)
    requires u in users && t in users && r in users
    ensures var after := Relink(users, u, prev, t, granted);
      && after.Keys == users.Keys
      && after[r] == users[r].(referredBy := if r == u then Some(t) else users[r].referredBy,
                               referrals := after[r].referrals)
      && Count(after[r].referrals, v)
         == if v != u then Count(users[r].referrals, v)
            else if r == t then 1 else if prev == Some(r) then 0 else Count(users[r].referrals, u)
  {
    hide Relink, Relisted, Count;
    RelinkUserOf(users, u, prev, t, granted, r);
    CountRelisted(users[r].referrals, r, u, prev, t, granted, v);
  }

  lemma RelinkEntries(users: map<Id, User>, u: Id, prev: Option<Id>, t: Id, granted: bool, r: Id, e: Referral)
    requires u in users && t in users && r in users
    requires e in Relink(users, u, prev, t, granted)[r].referrals
    ensures (e in users[r].referrals && (e.user == u ==> r != t && prev != Some(r))) || e == Referral(u, granted)
  {
    hide Relink, Without;
    RelinkUserOf(users, u, prev, t, granted, r);
    var rs := users[r].referrals;
    WithoutKeeps(rs, u, e);
    WithoutKeeps(Without(rs, u), u, e);
  }

  // ---------------------------------------------------------------- transfers

  lemma CoinsKeepLinks(users: map<Id, User>, r: Id, n: int, v: Id)
    requires v in users
    ensures AddCoins(users, r, n).Keys == users.Keys
    ensures AddCoins(users, r, n)[v] == users[v].(coins := users[v].coins + if v == r then n else 0)
  {
  }

  /** The users after a transfer are the relinked users up to their coins. */
  lemma TransferredUser(db: Db, q: Request, reward: nat, r: Id)
    requires Accepted(db, q) && r in db.users
    ensures var u := UserOf(db, q);
      var relinked := Relink(db.users, u, OldReferrer(db, q), q.target, GrantedBefore(db, u));
      var after := Transferred(db, q, reward).users;
      && after.Keys == relinked.Keys == db.users.Keys
      && after[r] == relinked[r].(coins := after[r].coins)
      && after[r].coins == db.users[r].coins
           + (if Moves(db, q) && OldReferrer(db, q) == Some(r) then 0 - reward else 0)
           + (if Moves(db, q) && r == q.target then reward else 0)
  {
    hide Relink, MoveTxns, Reassign, DebitId, CreditId;
    var u := UserOf(db, q);
    RelinkLinks(db.users, u, OldReferrer(db, q), q.target, GrantedBefore(db, u), r, u);
    var relinked := Relink(db.users, u, OldReferrer(db, q), q.target, GrantedBefore(db, u));
    if Moves(db, q) {
      CoinsKeepLinks(relinked, OldReferrer(db, q).value, 0 - reward, r);
      CoinsKeepLinks(AddCoins(relinked, OldReferrer(db, q).value, 0 - reward), q.target, reward, r);
    }
  }

  /** After a transfer the creator's user is linked to the target in all three places,
      and nobody else's link has changed. */
  lemma TransferLinks(db: Db, q: Request, reward: nat, v: Id)
    requires Accepted(db, q) && Symmetric(db)
    ensures var u := UserOf(db, q); var after := Transferred(db, q, reward);
      && Refers(after, u, q.target) && u in after.edges && after.edges[u].referrer == q.target
      && after.edges[u].code == db.users[q.target].referralCode
      && after.edges[u].rewardGranted == GrantedBefore(db, u)
      && Count(after.users[q.target].referrals, u) == 1
      && after.creators[q.creator].agency == Some(q.target)
    ensures v != UserOf(db, q) ==> var after := Transferred(db, q, reward);
      && (v in after.edges <==> v in db.edges) && (v in db.edges ==> after.edges[v] == db.edges[v])
      && (v in after.users <==> v in db.users)
      && (v in db.users ==> after.users[v].referredBy == db.users[v].referredBy)
  {
    var u := UserOf(db, q);
    hide Relink, MoveTxns, Reassign, AddCoins, Count;
    TransferredUser(db, q, reward, u);
    TransferredUser(db, q, reward, q.target);
    RelinkLinks(db.users, u, OldReferrer(db, q), q.target, GrantedBefore(db, u), u, u);
    RelinkLinks(db.users, u, OldReferrer(db, q), q.target, GrantedBefore(db, u), q.target, u);
    if v in db.users {
      TransferredUser(db, q, reward, v);
      RelinkLinks(db.users, u, OldReferrer(db, q), q.target, GrantedBefore(db, u), v, u);
    }
  }

  lemma TransferListsAgree(db: Db, q: Request, reward: nat)
    requires Accepted(db, q) && Symmetric(db)
    ensures ListsAgree(Transferred(db, q, reward))
  {
    hide Relink, Transferred, Count;
    var after := Transferred(db, q, reward);
    var u := UserOf(db, q);
    TransferredUser(db, q, reward, u);
    forall r, v | r in after.users
      ensures Count(after.users[r].referrals, v) == if Refers(after, v, r) then 1 else 0
    {
      TransferredUser(db, q, reward, r);
      RelinkLinks(db.users, u, OldReferrer(db, q), q.target, GrantedBefore(db, u), r, v);
      TransferLinks(db, q, reward, v);
    }
  }

  lemma TransferEntriesAgree(db: Db, q: Request, reward: nat)
    requires Accepted(db, q) && Symmetric(db)
    ensures EntriesAgree(Transferred(db, q, reward))
  {
    hide Relink, Transferred, Count;
    var after := Transferred(db, q, reward);
    var u := UserOf(db, q);
    TransferLinks(db, q, reward, u);
    TransferredUser(db, q, reward, u);
    forall v | v in after.users && after.users[v].referredBy.Some?
      ensures after.users[v].referredBy.value in after.users
    {
      TransferLinks(db, q, reward, v);
    }
    forall r, e | r in after.users && e in after.users[r].referrals
      ensures e.user in after.edges && after.edges[e.user].rewardGranted == e.rewardGranted
    {
      TransferredUser(db, q, reward, r);
      RelinkEntries(db.users, u, OldReferrer(db, q), q.target, GrantedBefore(db, u), r, e);
      TransferLinks(db, q, reward, e.user);
    }
  }

  lemma TransferKeepsSymmetry(db: Db, q: Request, reward: nat)
    requires Symmetric(db)
    ensures Symmetric(Transfer(db, q, reward).0)
    ensures !Transfer(db, q, reward).1.Done? ==> Transfer(db, q, reward).0 == db
  {
    hide Transferred, ListsAgree, EntriesAgree, RefusalOf;
    if Accepted(db, q) {
      TransferListsAgree(db, q, reward);
      TransferEntriesAgree(db, q, reward);
      var after := Transferred(db, q, reward);
      forall v
        ensures v in after.edges <==> v in after.users && after.users[v].referredBy.Some?
        ensures v in after.edges ==> Refers(after, v, after.edges[v].referrer)
      {
        TransferLinks(db, q, reward, v);
      }
    }
  }

  // ---------------------------------------------------------------- rejections

  /** The three writes of a rejection all apply or all miss: when the user has meanwhile been
      linked to someone else, nothing is written at all. */
  lemma RejectAllOrNothing(db: Db, agency: Id, u: Id)
    requires Symmetric(db)
    ensures Refers(db, u, agency) <==> u in db.edges && db.edges[u].referrer == agency
    ensures agency in db.users ==> (Refers(db, u, agency) <==> Count(db.users[agency].referrals, u) == 1)
    ensures !Refers(db, u, agency) ==> RejectCommit(db, agency, u) == db
  {
    hide Count, Without, ListsAgree, RejectCommit;
    if agency in db.users {
      assert Count(db.users[agency].referrals, u) == if Refers(db, u, agency) then 1 else 0 by {
        ListCounts(db, agency, u);
      }
    }
    if !Refers(db, u, agency) { RejectMisses(db, agency, u); }
  }

  lemma ListCounts(db: Db, r: Id, u: Id)
    requires ListsAgree(db) && r in db.users
    ensures Count(db.users[r].referrals, u) == if Refers(db, u, r) then 1 else 0
  {
    hide Count;
  }

  lemma RejectMisses(db: Db, agency: Id, u: Id)
    requires ListsAgree(db) && EdgesAgree(db) && !Refers(db, u, agency)
    ensures RejectCommit(db, agency, u) == db
  {
    hide Count, Without, ListsAgree;
    if agency in db.users {
      ListCounts(db, agency, u);
      WithoutNone(db.users[agency].referrals, u);
    }
  }

  /** What a rejection leaves of each link. */
  lemma RejectLinks(db: Db, agency: Id, u: Id, r: Id, v: Id)
    requires Refers(db, u, agency) && r in db.users
    ensures var after := RejectCommit(db, agency, u);
      && after.users.Keys == db.users.Keys
      && after.users[r].referredBy == (if r == u then None else db.users[r].referredBy)
      && after.users[r].referrals
         == (if r == agency then Without(db.users[r].referrals, u) else db.users[r].referrals)
      && Count(after.users[r].referrals, v)
         == if r == agency && v == u then 0 else Count(db.users[r].referrals, v)
  {
    CountWithout(db.users[r].referrals, u, v);
    hide Count, Without;
  }

  lemma RejectKeepsSymmetry(db: Db, agency: Id, u: Id)
    requires Symmetric(db)
    ensures Symmetric(RejectCommit(db, agency, u))
  {
    hide Count, Without;
    RejectAllOrNothing(db, agency, u);
    if Refers(db, u, agency) {
      var after := RejectCommit(db, agency, u);
      assert after.edges == db.edges - {u};
      hide RejectCommit;
      RejectLinks(db, agency, u, u, u);
      forall r, v | r in db.users
        ensures Count(after.users[r].referrals, v) == if Refers(after, v, r) then 1 else 0
      {
        RejectLinks(db, agency, u, r, v);
        if v in db.users { RejectLinks(db, agency, u, v, v); }
      }
      forall v
        ensures v in after.edges <==> v in after.users && after.users[v].referredBy.Some?
        ensures v in after.edges ==> Refers(after, v, after.edges[v].referrer)
      {
        if v in db.users { RejectLinks(db, agency, u, v, v); }
      }
      RejectEntriesAgree(db, agency, u);
    }
  }

  lemma RejectEdges(db: Db, agency: Id, u: Id)
    requires u in db.edges && db.edges[u].referrer == agency
    ensures RejectCommit(db, agency, u).edges == db.edges - {u}
  {
    hide Pull;
  }

  lemma RejectEntriesAgree(db: Db, agency: Id, u: Id)
    requires Symmetric(db) && Refers(db, u, agency)
    ensures EntriesAgree(RejectCommit(db, agency, u))
  {
    hide RejectCommit, Count, Without, ListsAgree;
    var after := RejectCommit(db, agency, u);
    RejectAllOrNothing(db, agency, u);
    RejectEdges(db, agency, u);
    RejectLinks(db, agency, u, u, u);
    forall v | v in after.users && after.users[v].referredBy.Some?
      ensures after.users[v].referredBy.value in after.users
    {
      RejectLinks(db, agency, u, v, v);
    }
    forall r, e | r in after.users && e in after.users[r].referrals
      ensures e.user in after.edges && after.edges[e.user].rewardGranted == e.rewardGranted
    {
      RejectLinks(db, agency, u, r, u);
      WithoutKeeps(db.users[r].referrals, u, e);
      OnlyReferrerLists(db, r, e);
    }
  }

  /** An entry stands only with the referrer that its user names. */
  lemma OnlyReferrerLists(db: Db, r: Id, e: Referral)
    requires ListsAgree(db) && r in db.users && e in db.users[r].referrals
    ensures Refers(db, e.user, r)
  {
    CountPositive(db.users[r].referrals, e);
  }

  lemma {:induction false} CountPositive(rs: seq<Referral>, e: Referral)
    requires e in rs
    ensures Count(rs, e.user) > 0
  {
    if e in rs[..|rs| - 1] { CountPositive(rs[..|rs| - 1], e); }
    else { assert rs == rs[..|rs| - 1] + [rs[|rs| - 1]]; }
  }

  // ---------------------------------------------------------------- runs

  /** A rejection in flight: its reads are done outside any transaction. */
  datatype Rejection = Rejection(agency: Id, user: Id, creatorChecked: bool)

  datatype World = World(db: Db, rejections: map<nat, Rejection>)

  datatype Event =
    | TransferRequest(q: Request)
    | RejectRead(op: nat, agency: Id, user: Id)
    | RejectCheckCreator(op: nat)
    | RejectWrite(op: nat)

  function Step(w: World, e: Event, reward: nat): World {
    match e
    case TransferRequest(q) => w.(db := Transfer(w.db, q, reward).0)
    case RejectRead(op, agency, user) =>
      if op !in w.rejections && agency in w.db.users && Refers(w.db, user, agency)
      then w.(rejections := w.rejections[op := Rejection(agency, user, false)]) else w
    case RejectCheckCreator(op) =>
      if op !in w.rejections || w.rejections[op].creatorChecked then w
      else if exists c :: c in w.db.creators && w.db.creators[c].user == Some(w.rejections[op].user)
      then w.(rejections := w.rejections - {op})
      else w.(rejections := w.rejections[op := w.rejections[op].(creatorChecked := true)])
    case RejectWrite(op) =>
      if op in w.rejections && w.rejections[op].creatorChecked
      then World(RejectCommit(w.db, w.rejections[op].agency, w.rejections[op].user), w.rejections - {op}) else w
  }

  function Run(w: World, es: seq<Event>, reward: nat): World {
    if es == [] then w else Step(Run(w, es[..|es| - 1], reward), es[|es| - 1], reward)
  }

  /** From any consistent start, every interleaving of transfers and rejections keeps the three
      copies of every referral link in step. */
  lemma {:induction false} RunKeepsSymmetry(w: World, es: seq<Event>, reward: nat)
    requires Symmetric(w.db)
    ensures Symmetric(Run(w, es, reward).db)
  {
    hide Symmetric, RejectCommit, Transfer;
    if es != [] {
      RunKeepsSymmetry(w, es[..|es| - 1], reward);
      var before := Run(w, es[..|es| - 1], reward);
      match es[|es| - 1]
      case TransferRequest(q) => TransferKeepsSymmetry(before.db, q, reward);
      case RejectRead(_, _, _) =>
      case RejectCheckCreator(_) =>
      case RejectWrite(op) =>
        if op in before.rejections {
          RejectKeepsSymmetry(before.db, before.rejections[op].agency, before.rejections[op].user);
        }
    }
  }
}
