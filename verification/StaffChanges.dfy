/** What transfers, rejections and reassignments change, told in the stored fields alone, and that
    they change nothing else. */
module StaffChanges {
  import opened Basics
  import opened Staff
  import R = Referrals

  // ---------------------------------------------------------------- transfers

  /** Coins move exactly if the caller asked for it, the reward was granted, the user's referrer is an
      existing agency other than the target with enough coins, and neither transaction id is used. */
  lemma RewardMovesIff(db: Db, q: Request, reward: nat)
    requires Accepted(db, q)
    ensures var u := db.creators[q.creator].user.value; var o := Transfer(db, q, reward).1;
      o.Done? && o.rewardMoved <==> (
        && q.moveRewards && u in db.edges && db.edges[u].rewardGranted && db.users[u].referredBy.Some?
        && var p := db.users[u].referredBy.value;
        && p != q.target && p in db.users && db.users[p].isAgency && db.users[p].coins >= reward
        && DebitId(u, p, q.target, q.idempotencyKey) !in db.txns
        && CreditId(u, p, q.target, q.idempotencyKey) !in db.txns)
  {
    AcceptedIds(db, q);
    hide RefusalOf, Transferred, DebitId, CreditId;
  }

  /** A transfer that is accepted is carried out unless the caller asked for a granted reward to move away
      from a referrer that is gone or from an agency short of coins. */
  lemma DoneIff(db: Db, q: Request, reward: nat)
    requires Accepted(db, q)
    ensures var u := db.creators[q.creator].user.value;
      Transfer(db, q, reward).1.Aborted? <==> (
        && q.moveRewards && u in db.edges && db.edges[u].rewardGranted && db.users[u].referredBy.Some?
        && var p := db.users[u].referredBy.value;
        && p != q.target && (p !in db.users || (db.users[p].isAgency && db.users[p].coins < reward)))
    ensures Transfer(db, q, reward).1.Aborted? || Transfer(db, q, reward).1.Done?
  {
    AcceptedIds(db, q);
    hide RefusalOf, Transferred;
  }

  /** A transfer that is not asked to move rewards moves none: no user's coins and no ledger row change, and
      it does not abort. */
  lemma UnaskedMovesNothing(db: Db, q: Request, reward: nat)
    requires !q.moveRewards
    ensures var (after, o) := Transfer(db, q, reward);
      && !o.Aborted? && (o.Done? ==> !o.rewardMoved) && after.txns == db.txns && after.users.Keys == db.users.Keys
      && forall r :: r in db.users ==> after.users[r].coins == db.users[r].coins
  {
    if Accepted(db, q) {
      AcceptedIds(db, q);
      hide RefusalOf, Relink;
      R.TransferredUser(db, q, reward, q.target);
      forall r | r in db.users
        ensures Transferred(db, q, reward).users[r].coins == db.users[r].coins
      {
        R.TransferredUser(db, q, reward, r);
      }
      hide Transferred;
      TransferredTxns(db, q, reward);
    }
  }

  lemma TransferredTxns(db: Db, q: Request, reward: nat)
    requires Accepted(db, q)
    ensures var u := UserOf(db, q); var after := Transferred(db, q, reward).txns;
      if Moves(db, q) then
        var p := OldReferrer(db, q).value;
        after == db.txns[DebitId(u, p, q.target, q.idempotencyKey) := Txn(p, false, reward, true)]
                        [CreditId(u, p, q.target, q.idempotencyKey) := Txn(q.target, true, reward, true)]
      else after == db.txns
  {
    hide Relink, AddCoins, Reassign, PutEdge, DebitId, CreditId, RefusalOf, Moves;
  }

  /** What a transfer that is carried out leaves of one user: the creator's user gets the target as
      referrer; coins change only by the reward, if it moves; the lists of referrals are told by
      `Referrals.TransferLinks`; nothing else of any user changes. */
  lemma UserChanges(db: Db, q: Request, reward: nat, r: Id)
    requires Transfer(db, q, reward).1.Done? && r in db.users
    ensures var (after, o) := Transfer(db, q, reward); var u := db.creators[q.creator].user.value;
      && after.users.Keys == db.users.Keys
      && after.users[r] == db.users[r].(referredBy := if r == u then Some(q.target) else db.users[r].referredBy,
                                        referrals := after.users[r].referrals, coins := after.users[r].coins)
      && after.users[r].coins == db.users[r].coins
           + (if o.rewardMoved && r == q.target then reward else 0)
           - (if o.rewardMoved && db.users[u].referredBy == Some(r) then reward else 0)
  {
    AcceptedIds(db, q);
    hide RefusalOf, Transferred, Relink;
    R.TransferredUser(db, q, reward, r);
    R.RelinkLinks(db.users, UserOf(db, q), OldReferrer(db, q), q.target, GrantedBefore(db, UserOf(db, q)), r, r);
  }

  /** What it leaves of everything else: one creator's agency; one user's edge, with its flag kept; two ledger
      rows if the reward moves; and the agency of that user's pending withdrawals, which are the rows
      counted, while rows that are no longer pending keep theirs. */
  lemma RestChanges(db: Db, q: Request, reward: nat)
    requires Transfer(db, q, reward).1.Done?
    ensures var (after, o) := Transfer(db, q, reward); var u := db.creators[q.creator].user.value;
      && after.creators == db.creators[q.creator := db.creators[q.creator].(agency := Some(q.target))]
      && after.edges == db.edges[u := Edge(q.target, db.users[q.target].referralCode,
                                           u in db.edges && db.edges[u].rewardGranted)]
      && after.withdrawals.Keys == db.withdrawals.Keys
      && (forall w :: w in db.withdrawals ==>
            after.withdrawals[w] == if db.withdrawals[w].pending && db.withdrawals[w].creatorUser == Some(u)
              then db.withdrawals[w].(agency := Some(q.target)) else db.withdrawals[w])
      && o.reassigned
           == |set w | w in db.withdrawals && db.withdrawals[w].pending && db.withdrawals[w].creatorUser == Some(u)|
  {
    AcceptedIds(db, q);
    hide RefusalOf, Relink, AddCoins, MoveTxns, Moves, MustAbort, DebitId, CreditId;
    var u := UserOf(db, q);
    assert (set w | w in db.withdrawals && PendingOf(db.withdrawals[w], u))
        == set w | w in db.withdrawals && db.withdrawals[w].pending && db.withdrawals[w].creatorUser == Some(u);
  }

  // ---------------------------------------------------------------- rejections

  /** A rejection that finds its link clears it and marks the user rejected, and takes the user out of the
      agency's list; coins, roles and everything else of every user stay. */
  lemma RejectedUser(db: Db, agency: Id, u: Id, r: Id)
    requires r in db.users
    ensures var after := RejectCommit(db, agency, u).users;
      var unlinked := r == u && db.users[u].referredBy == Some(agency);
      && after.Keys == db.users.Keys
      && after[r] == db.users[r].(referredBy := if unlinked then None else db.users[r].referredBy,
                                  hostRejected := unlinked || db.users[r].hostRejected,
                                  referrals := after[r].referrals)
      && forall e :: e in after[r].referrals <==> e in db.users[r].referrals && (r == agency ==> e.user != u)
  {
    if r == agency {
      forall e
        ensures e in Without(db.users[r].referrals, u) <==> e in db.users[r].referrals && e.user != u
      {
        R.WithoutKeeps(db.users[r].referrals, u, e);
      }
    }
    hide Without;
  }

  /** Of the rest a rejection deletes at most the user's edge, and only one that names the agency. */
  lemma RejectedRest(db: Db, agency: Id, u: Id)
    ensures var after := RejectCommit(db, agency, u);
      && after.creators == db.creators && after.txns == db.txns && after.withdrawals == db.withdrawals
      && (forall v :: v in after.edges <==> v in db.edges && !(v == u && db.edges[u].referrer == agency))
      && (forall v :: v in after.edges ==> after.edges[v] == db.edges[v])
  {
    hide Pull;
  }

  /** A rejection writes only after it has read that the user was referred by the agency and, later, that the
      user had no creator profile. */
  lemma RejectionGuards(w: R.World, e: R.Event, reward: nat, op: nat)
    ensures var after := R.Step(w, e, reward);
      && (op in after.rejections && op !in w.rejections ==>
            e.RejectRead? && after.rejections[op] == R.Rejection(e.agency, e.user, false)
            && e.user in w.db.users && w.db.users[e.user].referredBy == Some(e.agency))
      && (op in after.rejections && op in w.rejections && after.rejections[op] != w.rejections[op] ==>
            after.rejections[op] == w.rejections[op].(creatorChecked := true)
            && forall c :: c in w.db.creators ==> w.db.creators[c].user != Some(w.rejections[op].user))
      && (e.RejectWrite? && after.db != w.db ==>
            e.op in w.rejections && w.rejections[e.op].creatorChecked
            && after.db == RejectCommit(w.db, w.rejections[e.op].agency, w.rejections[e.op].user))
      && (e.RejectRead? || e.RejectCheckCreator? ==> after.db == w.db)
  {
    hide Transfer, RejectCommit;
  }

  // ---------------------------------------------------------------- reassignments

  /** A reassignment happens exactly between an agency and an enabled agency. It moves every creator of the
      first to the second, and every pending withdrawal; nothing else changes. */
  lemma PatchChanges(db: Db, agent: Id, target: Id)
    ensures var after := PatchReassign(db, agent, target);
      var allowed := agent in db.users && db.users[agent].isAgency
                     && target in db.users && db.users[target].isAgency && !db.users[target].agencyDisabled;
      && after.users == db.users && after.edges == db.edges && after.txns == db.txns
      && after.creators.Keys == db.creators.Keys && after.withdrawals.Keys == db.withdrawals.Keys
      && (forall c :: c in db.creators ==>
            after.creators[c] == if allowed && db.creators[c].agency == Some(agent)
              then db.creators[c].(agency := Some(target)) else db.creators[c])
      && (forall w :: w in db.withdrawals ==>
            after.withdrawals[w] == if allowed && db.withdrawals[w].pending && db.withdrawals[w].agency == Some(agent)
              then db.withdrawals[w].(agency := Some(target)) else db.withdrawals[w])
  {
  }
}
