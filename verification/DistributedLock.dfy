/** The Redis lock of src/utils/distributed-lock.ts: SET NX to acquire, SET XX heartbeats that do
    not compare tokens, and a compare-and-delete release. One key, any number of acquisition
    attempts, each with its own random token; the commands of one attempt reach Redis in order. */
module DistributedLock {
  import opened Basics

  type Token = nat

  datatype Command = SetNX | SetXX | Delete

  /** `Requested` until SET NX runs, `Holding` while the handle is out, `Releasing` once the timer is
      cleared and the delete is sent, `Done` when the attempt was refused or the delete has run. */
  datatype Phase = Requested | Holding | Releasing | Done

  /** `deadline` is when the key expires that this attempt last set. */
  datatype Session = Session(phase: Phase, ttl: int, queue: seq<Command>, deadline: int)

  datatype Entry = Entry(token: Token, expiresAt: int)

  datatype State = State(now: int, key: Option<Entry>, sessions: map<Token, Session>)

  /** `Execute` runs a command and its reply arrives; `Unheard` runs it and the reply is lost; `Lose`
      loses the command itself. */
  datatype Event =
    | Tick(ms: nat)
    | Acquire(token: Token, ttl: int)
    | Beat(token: Token)
    | StartRelease(token: Token)
    | Execute(token: Token)
    | Unheard(token: Token)
    | Lose(token: Token)

  predicate Live(s: State) { s.key.Some? && s.now < s.key.value.expiresAt }

  /** The attempt has the lock: acquired, not yet deleted, and its own key has not run out. */
  predicate Holds(s: State, t: Token) {
    && t in s.sessions && (s.sessions[t].phase.Holding? || s.sessions[t].phase.Releasing?)
    && s.now < s.sessions[t].deadline
  }

  predicate NextIs(s: State, t: Token, c: Command) {
    t in s.sessions && s.sessions[t].queue != [] && s.sessions[t].queue[0] == c
  }

  predicate Enabled(s: State, e: Event) {
    match e
    case Tick(_) => true
    case Acquire(t, ttl) => t !in s.sessions && ttl > 0
    case Beat(t) => t in s.sessions && s.sessions[t].phase.Holding?
    case StartRelease(t) => t in s.sessions && s.sessions[t].phase.Holding?
    case Execute(t) => t in s.sessions && s.sessions[t].queue != []
    case Unheard(t) => t in s.sessions && s.sessions[t].queue != []
    case Lose(t) => t in s.sessions && s.sessions[t].queue != []
  }

  /** Redis runs the oldest command of attempt `t`. */
  function RunCommand(s: State, t: Token): State
    requires t in s.sessions && s.sessions[t].queue != []
  {
    var x := s.sessions[t];
    var rest := x.queue[1..];
    var until := s.now + x.ttl;
    match x.queue[0]
    case SetNX =>
      if Live(s) then s.(sessions := s.sessions[t := x.(phase := Done, queue := rest)])
      else State(s.now, Some(Entry(t, until)), s.sessions[t := x.(phase := Holding, queue := rest, deadline := until)])
    case SetXX =>
      if Live(s) then State(s.now, Some(Entry(t, until)), s.sessions[t := x.(queue := rest, deadline := until)])
      else s.(sessions := s.sessions[t := x.(queue := rest)])
    case Delete =>
      State(s.now, if Live(s) && s.key.value.token == t then None else s.key,
            s.sessions[t := x.(phase := Done, queue := rest)])
  }

  /** Without a reply an acquisition or release throws and is over; a heartbeat's failure is ignored. */
  function Deaf(s: State, t: Token, c: Command): State
    requires t in s.sessions
  {
    if c.SetXX? then s else s.(sessions := s.sessions[t := s.sessions[t].(phase := Done)])
  }

  function Step(s: State, e: Event): State
    requires Enabled(s, e)
  {
    match e
    case Tick(ms) => s.(now := s.now + ms)
    case Acquire(t, ttl) => s.(sessions := s.sessions[t := Session(Requested, ttl, [SetNX], s.now)])
    case Beat(t) => s.(sessions := s.sessions[t := s.sessions[t].(queue := s.sessions[t].queue + [SetXX])])
    case StartRelease(t) =>
      s.(sessions := s.sessions[t := s.sessions[t].(phase := Releasing, queue := s.sessions[t].queue + [Delete])])
    case Execute(t) => RunCommand(s, t)
    case Unheard(t) => Deaf(RunCommand(s, t), t, s.sessions[t].queue[0])
    case Lose(t) =>
      var x := s.sessions[t];
      s.(sessions := s.sessions[t := x.(phase := if x.queue[0].SetXX? then x.phase else Done, queue := x.queue[1..])])
  }

  ghost predicate IsRun(s: State, es: seq<Event>)
    decreases |es|
  {
    es == [] || (Enabled(s, es[0]) && IsRun(Step(s, es[0]), es[1..]))
  }

  ghost function Run(s: State, es: seq<Event>): State
    requires IsRun(s, es)
    decreases |es|
  {
    if es == [] then s else Run(Step(s, es[0]), es[1..])
  }

  // ---------------------------------------------------------------- queues

  ghost predicate AllBeats(q: seq<Command>) { forall i :: 0 <= i < |q| ==> q[i] == SetXX }

  /** What may be under way in each phase; in particular nothing is left after the delete. */
  ghost predicate QueueFits(x: Session) {
    match x.phase
    case Requested => x.queue == [SetNX]
    case Holding => AllBeats(x.queue)
    case Releasing => |x.queue| > 0 && x.queue[|x.queue| - 1] == Delete && AllBeats(x.queue[..|x.queue| - 1])
    case Done => x.queue == []
  }

  ghost predicate QueuesFit(s: State) { forall t :: t in s.sessions ==> QueueFits(s.sessions[t]) }

  lemma StepKeepsQueues(s: State, e: Event)
    requires QueuesFit(s) && Enabled(s, e)
    ensures QueuesFit(Step(s, e))
  {
    var after := Step(s, e);
    if !e.Tick? {
      var t := e.token;
      forall u | u in after.sessions
        ensures QueueFits(after.sessions[u])
      {
        if u in s.sessions { assert QueueFits(s.sessions[u]); }
        if u == t && u in s.sessions { QueueStep(s, e); }
      }
    }
  }

  lemma QueueStep(s: State, e: Event)
    requires QueuesFit(s) && Enabled(s, e) && !e.Tick? && !e.Acquire?
    ensures QueueFits(Step(s, e).sessions[e.token])
  {
    var x := s.sessions[e.token];
    assert QueueFits(x);
    if e.Execute? || e.Unheard? || e.Lose? {
      if x.phase.Releasing? && |x.queue| > 1 {
        assert x.queue[1..][..|x.queue| - 2] == x.queue[..|x.queue| - 1][1..];
        assert x.queue[0] == x.queue[..|x.queue| - 1][0];
      }
    } else if e.StartRelease? {
      assert (x.queue + [Delete])[..|x.queue|] == x.queue;
    }
  }

  // ---------------------------------------------------------------- mutual exclusion

  /** Whoever holds the lock is who the key says, until the same instant. */
  ghost predicate HolderIsStored(s: State) {
    forall t :: Holds(s, t) ==> s.key == Some(Entry(t, s.sessions[t].deadline))
  }

  ghost predicate Invariant(s: State) { QueuesFit(s) && HolderIsStored(s) }

  /** A heartbeat is on time if its own key has not yet run out when it reaches Redis. */
  predicate OnTime(s: State, t: Token)
    requires t in s.sessions
  {
    s.now < s.sessions[t].deadline
  }

  predicate RunsBeat(s: State, e: Event) { (e.Execute? || e.Unheard?) && NextIs(s, e.token, SetXX) }

  /** No heartbeat is run while someone else holds the lock. */
  ghost predicate HeartbeatSafe(s: State, e: Event) {
    RunsBeat(s, e) ==> forall u :: u != e.token ==> !Holds(s, u)
  }

  /** A heartbeat that is on time finds nobody else holding the lock. */
  lemma OnTimeIsSafe(s: State, e: Event)
    requires Invariant(s) && RunsBeat(s, e) && OnTime(s, e.token)
    ensures HeartbeatSafe(s, e)
  {
    var t := e.token;
    assert QueueFits(s.sessions[t]);
    assert s.sessions[t].phase.Holding? || s.sessions[t].phase.Releasing?;
    assert Holds(s, t);
  }

  lemma StepKeepsHolder(s: State, e: Event)
    requires Invariant(s) && Enabled(s, e) && HeartbeatSafe(s, e)
    ensures HolderIsStored(Step(s, e))
  {
    var after := Step(s, e);
    if !e.Tick? && e.token in s.sessions { assert QueueFits(s.sessions[e.token]); }
    forall t | Holds(after, t)
      ensures after.key == Some(Entry(t, after.sessions[t].deadline))
    {
      if t in s.sessions { assert Holds(s, t) ==> s.key == Some(Entry(t, s.sessions[t].deadline)); }
    }
  }

  ghost predicate SafeHeartbeats(s: State, es: seq<Event>)
    requires IsRun(s, es)
    decreases |es|
  {
    es == [] || (HeartbeatSafe(s, es[0]) && SafeHeartbeats(Step(s, es[0]), es[1..]))
  }

  /** The run's heartbeats all reach Redis before their own key runs out. */
  ghost predicate TimelyHeartbeats(s: State, es: seq<Event>)
    requires IsRun(s, es)
    decreases |es|
  {
    es == [] || ((RunsBeat(s, es[0]) ==> OnTime(s, es[0].token)) && TimelyHeartbeats(Step(s, es[0]), es[1..]))
  }

  lemma {:induction false} SafeRunKeeps(s: State, es: seq<Event>)
    requires Invariant(s) && IsRun(s, es) && SafeHeartbeats(s, es)
    ensures Invariant(Run(s, es))
    decreases |es|
  {
    hide Step, QueuesFit, HolderIsStored, Enabled, HeartbeatSafe;
    if es != [] {
      StepKeepsQueues(s, es[0]);
      StepKeepsHolder(s, es[0]);
      SafeRunKeeps(Step(s, es[0]), es[1..]);
    }
  }

  /** Punctual heartbeats are safe ones, all along the run. */
  lemma {:induction false} TimelyIsSafe(s: State, es: seq<Event>)
    requires Invariant(s) && IsRun(s, es) && TimelyHeartbeats(s, es)
    ensures SafeHeartbeats(s, es)
    decreases |es|
  {
    hide Step, QueuesFit, HolderIsStored, Enabled, OnTime;
    if es != [] {
      if RunsBeat(s, es[0]) { OnTimeIsSafe(s, es[0]); }
      StepKeepsQueues(s, es[0]);
      StepKeepsHolder(s, es[0]);
      TimelyIsSafe(Step(s, es[0]), es[1..]);
    }
  }

  ghost predicate Start(s: State) { s.key.None? && s.sessions == map[] }

  /** In every run whose heartbeats are on time, at most one attempt holds the lock and the stored
      token is the holder's; and an attempt whose delete has run never sends Redis anything again. */
  lemma MutualExclusion(s: State, es: seq<Event>)
    requires Start(s) && IsRun(s, es) && TimelyHeartbeats(s, es)
    ensures var end := Run(s, es);
      && (forall t, u :: Holds(end, t) && Holds(end, u) ==> t == u)
      && (forall t :: Holds(end, t) ==> Live(end) && end.key.value.token == t)
      && (forall t :: t in end.sessions && end.sessions[t].phase.Done? ==> end.sessions[t].queue == [])
  {
    hide Step, Enabled;
    TimelyIsSafe(s, es);
    SafeRunKeeps(s, es);
    var end := Run(s, es);
    forall t | t in end.sessions && end.sessions[t].phase.Done?
      ensures end.sessions[t].queue == []
    {
      assert QueueFits(end.sessions[t]);
    }
  }

  /** What a late heartbeat does: one step keeps the lock exclusive exactly if nobody else holds it. */
  lemma LateHeartbeat(s: State, t: Token)
    requires Invariant(s) && NextIs(s, t, SetXX)
    ensures HolderIsStored(RunCommand(s, t)) <==> HeartbeatSafe(s, Execute(t))
  {
    assert QueueFits(s.sessions[t]);
    if HeartbeatSafe(s, Execute(t)) {
      StepKeepsHolder(s, Execute(t));
    } else {
      var u :| u != t && Holds(s, u);
      assert Holds(RunCommand(s, t), u);
    }
  }

  /** In every state, on time or not, the key disappears only when its own attempt deletes it. */
  lemma OnlyOwnerDeletes(s: State, e: Event)
    requires Enabled(s, e) && Live(s) && !e.Tick? && !Live(Step(s, e))
    requires forall t :: t in s.sessions ==> s.sessions[t].ttl > 0
    ensures (e.Execute? || e.Unheard?) && e.token == s.key.value.token && NextIs(s, e.token, Delete)
  {
  }

  /** A key that is gone comes back only by an acquisition: a heartbeat never revives it. */
  lemma OnlyAcquisitionRevives(s: State, e: Event)
    requires Enabled(s, e) && !Live(s) && Live(Step(s, e))
    ensures (e.Execute? || e.Unheard?) && NextIs(s, e.token, SetNX)
  {
  }

  /** An acquisition succeeds exactly on a key that is not live, and then, like a heartbeat on a live key, leaves
      the attempt's own token for exactly its TTL; every other command leaves a live key's token alone. */
  lemma KeyAfterCommand(s: State, t: Token)
    requires t in s.sessions && s.sessions[t].queue != []
    ensures var after := RunCommand(s, t); var until := s.now + s.sessions[t].ttl;
      && (NextIs(s, t, SetNX) && !Live(s) ==> after.key == Some(Entry(t, until)) && after.sessions[t].phase.Holding?)
      && (NextIs(s, t, SetNX) && Live(s) ==> after.key == s.key && after.sessions[t].phase.Done?)
      && (NextIs(s, t, SetXX) ==> after.key == if Live(s) then Some(Entry(t, until)) else s.key)
      && (NextIs(s, t, Delete) && Live(s) ==> after.key == if s.key.value.token == t then None else s.key)
  {
  }

  /** Attempt 1 acquired, its heartbeat is under way, and its key runs out now. */
  function Overdue(): State {
    State(3000, Some(Entry(1, 3000)), map[1 := Session(Holding, 3000, [SetXX], 3000)])
  }

  lemma OverdueHappens()
    ensures var s := State(0, None, map[]); var es := [Acquire(1, 3000), Execute(1), Beat(1), Tick(3000)];
      IsRun(s, es) && Run(s, es) == Overdue()
  {
    var s := State(0, None, map[]);
    var es := [Acquire(1, 3000), Execute(1), Beat(1), Tick(3000)];
    var s1 := Step(s, es[0]);
    var s2 := Step(s1, es[1]);
    var s3 := Step(s2, es[2]);
    UnfoldRun(s, es);
    UnfoldRun(s1, es[1..]);
    UnfoldRun(s2, es[2..]);
    UnfoldRun(s3, es[3..]);
    assert s2.sessions[1].queue == [] && s3.sessions[1].queue == [SetXX];
    assert s3.sessions == Overdue().sessions;
  }

  /** One missed deadline is enough: attempt 1 is overtaken by attempt 2, then its stale heartbeat
      takes the key back; both hold, and the stored token is attempt 1's. */
  lemma StaleHeartbeatBreaksLock()
    ensures var s := Overdue(); var es := [Acquire(2, 3000), Execute(2), Execute(1)];
      IsRun(s, es) && Holds(Run(s, es), 1) && Holds(Run(s, es), 2) && Run(s, es).key.value.token == 1
  {
    var s := Overdue();
    var es := [Acquire(2, 3000), Execute(2), Execute(1)];
    var s1 := Step(s, es[0]);
    var s2 := Step(s1, es[1]);
    UnfoldRun(s, es);
    UnfoldRun(s1, es[1..]);
    UnfoldRun(s2, es[2..]);
  }

  lemma UnfoldRun(s: State, es: seq<Event>)
    requires es != [] && Enabled(s, es[0])
    ensures IsRun(s, es) <==> IsRun(Step(s, es[0]), es[1..])
    ensures IsRun(s, es) ==> Run(s, es) == Run(Step(s, es[0]), es[1..])
  {
    hide Step;
  }

  // ---------------------------------------------------------------- heartbeat schedule

  /** `Math.max(1000, Math.floor(ttlMs / 3))` */
  function Interval(ttl: int): (i: int)
    ensures i >= 1000
  {
    Max(1000, ttl / 3)
  }

  /** A bound on delays under which one missed heartbeat does no harm exists exactly if the TTL exceeds
      2 s; from 3 s on it may be up to a whole interval. */
  lemma RoomForOneMissed(ttl: int)
    ensures (exists latency :: LeavesRoom(latency, ttl)) <==> ttl > 2000
    ensures ttl >= 3000 ==> forall latency :: 0 <= latency < Interval(ttl) ==> LeavesRoom(latency, ttl)
    ensures if ttl >= 3000 then 3 * Interval(ttl) <= ttl < 3 * Interval(ttl) + 3 else Interval(ttl) == 1000
  {
    if ttl > 2000 { assert LeavesRoom(0, ttl); }
  }

  predicate LeavesRoom(latency: int, ttl: int) { 0 <= latency < ttl - 2 * Interval(ttl) }

  /** What an observer notes of an attempt that acquired the key at `base`: how many heartbeats have been
      run or lost, and the number of the last one that was run (0 is the acquisition). */
  datatype Watch = Watch(base: int, passed: nat, last: nat)

  function Observe(ws: map<Token, Watch>, s: State, e: Event): map<Token, Watch>
    requires Enabled(s, e)
  {
    if e.Execute? || e.Unheard? then
      match s.sessions[e.token].queue[0]
      case SetNX => if Live(s) then ws else ws[e.token := Watch(s.now, 0, 0)]
      case SetXX =>
        if e.token !in ws then ws else
        var w := ws[e.token];
        ws[e.token := Watch(w.base, w.passed + 1, w.passed + 1)]
      case Delete => ws
    else if e.Lose? && NextIs(s, e.token, SetXX) && e.token in ws then
      var w := ws[e.token];
      ws[e.token := w.(passed := w.passed + 1)]
    else ws
  }

  /** Heartbeats under way. */
  function Pending(x: Session): int { |x.queue| - if x.phase.Releasing? then 1 else 0 }

  /** When heartbeat number `k` is due. */
  function Due(w: Watch, ttl: int, k: int): int { w.base + k * Interval(ttl) }

  /** Heartbeats fire no sooner than they are due, are run within `latency` of that if they are run, and
      of two consecutive ones at most one is lost. */
  ghost predicate Punctual(s: State, ws: map<Token, Watch>, e: Event, latency: int) {
    match e
    case Acquire(_, ttl) => LeavesRoom(latency, ttl)
    case Beat(t) =>
      t in s.sessions && t in ws ==> Due(ws[t], s.sessions[t].ttl, ws[t].passed + Pending(s.sessions[t]) + 1) <= s.now
    case Execute(t) =>
      NextIs(s, t, SetXX) && t in ws ==> s.now <= Due(ws[t], s.sessions[t].ttl, ws[t].passed + 1) + latency
    case Unheard(t) =>
      NextIs(s, t, SetXX) && t in ws ==> s.now <= Due(ws[t], s.sessions[t].ttl, ws[t].passed + 1) + latency
    case Lose(t) => NextIs(s, t, SetXX) && t in ws ==> ws[t].last == ws[t].passed
    case _ => true
  }

  ghost predicate OnSchedule(s: State, ws: map<Token, Watch>, es: seq<Event>, latency: int)
    requires IsRun(s, es)
    decreases |es|
  {
    es == [] || (Punctual(s, ws, es[0], latency) && OnSchedule(Step(s, es[0]), Observe(ws, s, es[0]), es[1..], latency))
  }

  /** The last heartbeat run is the latest or the one before, its key lasts a whole TTL from when it was
      due, and every heartbeat under way was due by now. */
  ghost predicate WatchFits(now: int, x: Session, w: Watch) {
    && w.last <= w.passed <= w.last + 1
    && Due(w, x.ttl, w.last) + x.ttl <= x.deadline
    && Due(w, x.ttl, w.passed + Pending(x)) <= now
  }

  ghost predicate SessionFits(s: State, ws: map<Token, Watch>, t: Token, latency: int)
    requires t in s.sessions
  {
    var x := s.sessions[t];
    && (!x.phase.Done? ==> LeavesRoom(latency, x.ttl))
    && (x.phase.Holding? || x.phase.Releasing? ==> t in ws && WatchFits(s.now, x, ws[t]))
  }

  ghost predicate SessionsFit(s: State, ws: map<Token, Watch>, latency: int) {
    forall t :: t in s.sessions ==> SessionFits(s, ws, t, latency)
  }

  lemma DueOrder(w: Watch, ttl: int, j: int, k: int)
    requires j <= k
    ensures Due(w, ttl, j) + (k - j) * Interval(ttl) == Due(w, ttl, k)
    ensures Due(w, ttl, j) <= Due(w, ttl, k)
  {
    hide Interval;
    assert j * Interval(ttl) + (k - j) * Interval(ttl) == k * Interval(ttl);
    assert (k - j) * Interval(ttl) >= 0;
  }

  /** A punctual heartbeat finds its own key. */
  lemma PunctualIsOnTime(s: State, ws: map<Token, Watch>, e: Event, latency: int)
    requires QueuesFit(s) && SessionsFit(s, ws, latency) && RunsBeat(s, e) && Punctual(s, ws, e, latency)
    ensures OnTime(s, e.token)
  {
    var t := e.token;
    assert QueueFits(s.sessions[t]) && SessionFits(s, ws, t, latency);
    hide Interval, Due, QueuesFit, SessionsFit;
    var w, ttl := ws[t], s.sessions[t].ttl;
    DueOrder(w, ttl, w.last, w.passed + 1);
    TwoIntervals(w.passed + 1 - w.last, ttl);
  }

  lemma TwoIntervals(n: int, ttl: int)
    requires n <= 2
    ensures n * Interval(ttl) <= 2 * Interval(ttl)
  {
    hide Interval;
  }

  lemma StepFits(s: State, ws: map<Token, Watch>, e: Event, latency: int)
    requires Invariant(s) && SessionsFit(s, ws, latency) && Enabled(s, e) && Punctual(s, ws, e, latency)
    ensures SessionsFit(Step(s, e), Observe(ws, s, e), latency)
  {
    hide Due, LeavesRoom, HolderIsStored, QueuesFit, SessionFits;
    forall t | t in Step(s, e).sessions
      ensures SessionFits(Step(s, e), Observe(ws, s, e), t, latency)
    {
      if !e.Tick? && t == e.token {
        OwnStepFits(s, ws, e, latency);
      } else {
        OtherStepFits(s, ws, e, t, latency);
      }
    }
  }

  lemma OtherStepFits(s: State, ws: map<Token, Watch>, e: Event, t: Token, latency: int)
    requires SessionsFit(s, ws, latency) && Enabled(s, e) && t in s.sessions && (e.Tick? || t != e.token)
    ensures t in Step(s, e).sessions && SessionFits(Step(s, e), Observe(ws, s, e), t, latency)
  {
    hide Due, LeavesRoom;
    assert SessionFits(s, ws, t, latency);
    assert Step(s, e).sessions[t] == s.sessions[t] && Step(s, e).now >= s.now;
    assert t in ws ==> t in Observe(ws, s, e) && Observe(ws, s, e)[t] == ws[t];
    hide Step, Observe;
  }

  lemma OwnStepFits(s: State, ws: map<Token, Watch>, e: Event, latency: int)
    requires Invariant(s) && SessionsFit(s, ws, latency) && Enabled(s, e) && Punctual(s, ws, e, latency) && !e.Tick?
    ensures SessionFits(Step(s, e), Observe(ws, s, e), e.token, latency)
  {
    hide Due, LeavesRoom, HolderIsStored, Live;
    if e.Acquire? { return; }
    assert QueueFits(s.sessions[e.token]) && SessionFits(s, ws, e.token, latency);
    hide QueuesFit, SessionsFit;
    if RunsBeat(s, e) {
      RunBeatFits(s, ws, e, latency);
    } else if e.Execute? || e.Unheard? {
      FirstOrLastFits(s, ws, e, latency);
    } else {
      OtherOwnStepFits(s, ws, e, latency);
    }
  }

  /** A heartbeat is sent, the release is sent, or a command is lost. */
  lemma OtherOwnStepFits(s: State, ws: map<Token, Watch>, e: Event, latency: int)
    requires Enabled(s, e) && Punctual(s, ws, e, latency) && (e.Beat? || e.StartRelease? || e.Lose?)
    requires QueueFits(s.sessions[e.token]) && SessionFits(s, ws, e.token, latency)
    ensures SessionFits(Step(s, e), Observe(ws, s, e), e.token, latency)
  {
    hide LeavesRoom, Interval;
  }

  /** The acquisition starts the watch, and the delete ends it. */
  lemma FirstOrLastFits(s: State, ws: map<Token, Watch>, e: Event, latency: int)
    requires Enabled(s, e) && (e.Execute? || e.Unheard?) && !RunsBeat(s, e)
    requires QueueFits(s.sessions[e.token]) && SessionFits(s, ws, e.token, latency)
    ensures SessionFits(Step(s, e), Observe(ws, s, e), e.token, latency)
  {
    hide Due, LeavesRoom, Live;
    AcquisitionFits(s.now, s.sessions[e.token].ttl);
  }

  lemma AcquisitionFits(now: int, ttl: int)
    ensures Due(Watch(now, 0, 0), ttl, 0) == now
  {
  }

  /** Once run, a heartbeat is the last one and its key lasts from now. */
  lemma RunBeatFits(s: State, ws: map<Token, Watch>, e: Event, latency: int)
    requires Invariant(s) && SessionsFit(s, ws, latency) && Enabled(s, e) && Punctual(s, ws, e, latency)
    requires RunsBeat(s, e)
    ensures SessionFits(Step(s, e), Observe(ws, s, e), e.token, latency)
  {
    var t := e.token;
    PunctualIsOnTime(s, ws, e, latency);
    assert QueueFits(s.sessions[t]) && SessionFits(s, ws, t, latency);
    assert Holds(s, t) && Live(s);
    var x, w := s.sessions[t], ws[t];
    var after := Step(s, e).sessions[t];
    assert after == x.(queue := x.queue[1..], deadline := s.now + x.ttl);
    assert Observe(ws, s, e)[t] == Watch(w.base, w.passed + 1, w.passed + 1);
    hide Step, Observe, Due, LeavesRoom, HolderIsStored, Live, QueuesFit, SessionsFit;
    var v := Watch(w.base, w.passed + 1, w.passed + 1);
    SameDue(v, w, x.ttl, v.passed + Pending(after));
    SameDue(v, w, x.ttl, v.last);
    DueOrder(w, x.ttl, w.passed + 1, w.passed + Pending(x));
  }

  lemma SameDue(v: Watch, w: Watch, ttl: int, k: int)
    requires v.base == w.base
    ensures Due(v, ttl, k) == Due(w, ttl, k)
  {
  }

  lemma {:induction false} ScheduleIsTimely(s: State, ws: map<Token, Watch>, es: seq<Event>, latency: int)
    requires Invariant(s) && SessionsFit(s, ws, latency) && IsRun(s, es) && OnSchedule(s, ws, es, latency)
    ensures TimelyHeartbeats(s, es)
    decreases |es|
  {
    hide Step, Observe, QueuesFit, HolderIsStored, Enabled, OnTime, SessionsFit, Punctual;
    if es != [] {
      if RunsBeat(s, es[0]) {
        PunctualIsOnTime(s, ws, es[0], latency);
        OnTimeIsSafe(s, es[0]);
      }
      StepKeepsQueues(s, es[0]);
      StepKeepsHolder(s, es[0]);
      StepFits(s, ws, es[0], latency);
      ScheduleIsTimely(Step(s, es[0]), Observe(ws, s, es[0]), es[1..], latency);
    }
  }

  /** If heartbeats fire an interval apart from the acquisition, take at most `latency` when they are run,
      and no two in a row are lost, then they are all timely, and so the lock is exclusive. */
  lemma ScheduleExcludes(s: State, es: seq<Event>, latency: int)
    requires Start(s) && IsRun(s, es) && OnSchedule(s, map[], es, latency)
    ensures TimelyHeartbeats(s, es)
    ensures var end := Run(s, es); forall t, u :: Holds(end, t) && Holds(end, u) ==> t == u
  {
    hide Step, Enabled, OnSchedule;
    ScheduleIsTimely(s, map[], es, latency);
    MutualExclusion(s, es);
  }
}
