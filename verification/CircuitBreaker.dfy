/** The circuit breaker of src/utils/circuit-breaker.ts with any number of calls in flight:
    `execute` is split where it awaits, and every reading of the clock is a separate one. */
module CircuitBreaker {
  import opened Basics

  datatype Options = Options(threshold: int, resetTimeout: int, window: int)

  /** The defaults of the constructor, which are also the settings of both shipped breakers. */
  const SHIPPED := Options(5, 60000, 60000)

  datatype Mode = Closed | Open | HalfOpen

  datatype Circuit = Circuit(failures: nat, lastFailure: int, mode: Mode, nextAttempt: int)

  // ---------------------------------------------------------------- the breaker object

  /** `value || fallback` */
  function OrElse(value: Option<int>, fallback: int): int {
    if value.None? || value.value == 0 then fallback else value.value
  }

  function Updated(c: Circuit, o: Options, now: int): Circuit {
    var kept := if now - c.lastFailure > o.window then c.(failures := 0) else c;
    if c.mode.Open? && now >= c.nextAttempt then kept.(mode := HalfOpen) else kept
  }

  /** `execute` reads the clock at `t1` in `updateState` and again at `t2`. */
  predicate Refuses(c: Circuit, t1: int, t2: int) { c.mode.Open? && t1 < c.nextAttempt && t2 < c.nextAttempt }

  function Begun(c: Circuit, o: Options, t1: int, t2: int): Circuit {
    var u := Updated(c, o, t1);
    if u.mode.Open? && t2 >= u.nextAttempt then u.(mode := HalfOpen) else u
  }

  function Succeeded(c: Circuit): Circuit {
    if c.mode.HalfOpen? then c.(mode := Closed, failures := 0) else c.(failures := 0)
  }

  predicate Trips(c: Circuit, o: Options) { c.failures + 1 >= o.threshold && !c.mode.Open? }

  function AfterFailure(c: Circuit, o: Options, t1: int, t2: int): Circuit {
    var counted := c.(failures := c.failures + 1, lastFailure := t1);
    if Trips(c, o) then counted.(mode := Open, nextAttempt := t2 + o.resetTimeout) else counted
  }

  class CircuitBreaker {
    var failures: nat
    var lastFailureTime: int
    var mode: Mode
    var nextAttempt: int
    const options: Options

    ghost function State(): Circuit
      reads this
    {
      Circuit(failures, lastFailureTime, mode, nextAttempt)
    }

    constructor (threshold: Option<int>, resetTimeout: Option<int>, window: Option<int>)
      ensures State() == Circuit(0, 0, Closed, 0)
      ensures options.threshold != 0 && options.resetTimeout != 0 && options.window != 0
      ensures threshold in {None, Some(0)} ==> options.threshold == SHIPPED.threshold
      ensures resetTimeout in {None, Some(0)} ==> options.resetTimeout == SHIPPED.resetTimeout
      ensures window in {None, Some(0)} ==> options.window == SHIPPED.window
      ensures threshold == Some(options.threshold) || threshold in {None, Some(0)}
      ensures resetTimeout == Some(options.resetTimeout) || resetTimeout in {None, Some(0)}
      ensures window == Some(options.window) || window in {None, Some(0)}
    {
      options := Options(OrElse(threshold, 5), OrElse(resetTimeout, 60000), OrElse(window, 60000));
      failures, lastFailureTime, mode, nextAttempt := 0, 0, Closed, 0;
    }

    /** `updateState` */
    method UpdateState(now: int)
      modifies this
      ensures State() == Updated(old(State()), options, now)
    {
      if now - lastFailureTime > options.window {
        if failures > 0 {
          failures := 0;
        }
      }
      if mode == Open && now >= nextAttempt {
        mode := HalfOpen;
      }
    }

    /** `execute` up to the call of the operation; `started` is false when it throws instead. */
    method Begin(t1: int, t2: int) returns (started: bool)
      requires t1 <= t2
      modifies this
      ensures started <==> !Refuses(old(State()), t1, t2)
      ensures State() == Begun(old(State()), options, t1, t2)
    {
      UpdateState(t1);
      if mode == Open {
        if t2 < nextAttempt {
          return false;
        }
        mode := HalfOpen;
      }
      return true;
    }

    /** `onSuccess` */
    method OnSuccess()
      modifies this
      ensures State() == Succeeded(old(State()))
    {
      if mode == HalfOpen {
        mode := Closed;
        failures := 0;
      } else {
        failures := 0;
      }
    }

    /** `onFailure` */
    method OnFailure(t1: int, t2: int)
      modifies this
      ensures State() == AfterFailure(old(State()), options, t1, t2)
    {
      failures := failures + 1;
      lastFailureTime := t1;
      if failures >= options.threshold {
        if mode != Open {
          mode := Open;
          nextAttempt := t2 + options.resetTimeout;
        }
      }
    }
  }

  // ---------------------------------------------------------------- the log of a run

  /** `Looked` is a clock reading of `updateState`; `Probing` tells whether `execute` or `getState` made the
      circuit half-open. */
  datatype Entry =
    | Looked(time: int)
    | Began(id: nat, time: int)
    | Refused(time: int)
    | Passed(id: nat)
    | Failed(id: nat, time: int)
    | Tripped(time: int)
    | Probing(time: int, byStart: bool)
    | Recovered

  function ModeAfter(mode: Mode, e: Entry): Mode {
    match e
    case Tripped(_) => Open
    case Probing(_, _) => HalfOpen
    case Recovered => Closed
    case _ => mode
  }

  function LastMode(log: seq<Entry>): Mode {
    if log == [] then Closed else ModeAfter(LastMode(log[..|log| - 1]), log[|log| - 1])
  }

  function LastTrip(log: seq<Entry>): Option<int> {
    if log == [] then None
    else if log[|log| - 1].Tripped? then Some(log[|log| - 1].time)
    else LastTrip(log[..|log| - 1])
  }

  /** Time of the latest failure, and 0 before the first. */
  function LastFailure(log: seq<Entry>): int {
    if log == [] then 0
    else if log[|log| - 1].Failed? then log[|log| - 1].time
    else LastFailure(log[..|log| - 1])
  }

  /** Failures since the latest success. */
  function FailuresInRow(log: seq<Entry>): nat {
    if log == [] then 0 else
    var e, before := log[|log| - 1], FailuresInRow(log[..|log| - 1]);
    if e.Failed? then before + 1 else if e.Passed? then 0 else before
  }

  /** Failures since the latest success and since the latest look at the clock that came more than a
      window after the failure before it. */
  function Standing(log: seq<Entry>, window: int): nat {
    if log == [] then 0 else
    var e, past := log[|log| - 1], log[..|log| - 1];
    if e.Failed? then Standing(past, window) + 1
    else if e.Passed? || (e.Looked? && e.time - LastFailure(past) > window) then 0
    else Standing(past, window)
  }

  function FlyingAfter(flying: set<nat>, e: Entry): set<nat> {
    match e
    case Began(id, _) => flying + {id}
    case Passed(id) => flying - {id}
    case Failed(id, _) => flying - {id}
    case _ => flying
  }

  /** Calls that have begun and have no result yet. */
  function Flying(log: seq<Entry>): set<nat> {
    if log == [] then {} else FlyingAfter(Flying(log[..|log| - 1]), log[|log| - 1])
  }

  predicate BeganIn(log: seq<Entry>, id: nat) { exists i :: 0 <= i < |log| && log[i].Began? && log[i].id == id }

  ghost predicate AfterTrips(log: seq<Entry>, t: int, o: Options) {
    forall i :: 0 <= i < |log| && log[i].Tripped? ==> log[i].time + o.resetTimeout <= t
  }

  /** What must follow at once: a call after the probing it caused, and recovery after a success while
      half-open. */
  ghost predicate Prompt(past: seq<Entry>, e: Entry) {
    past != [] ==>
      && (past[|past| - 1].Probing? && past[|past| - 1].byStart ==> e.Began?)
      && (past[|past| - 1].Passed? && LastMode(past).HalfOpen? ==> e.Recovered?)
  }

  /** What a circuit breaker promises, said of its log alone. Operations begin only while it is not
      open and never within the reset time of a trip; it refuses only within that time; it trips
      only on `threshold` failures in a row and not within the reset time of another trip; it
      probes only after the reset time, and recovers only while probing and on a success. */
  ghost predicate Legal(past: seq<Entry>, e: Entry, o: Options) {
    match e
    case Began(id, t) => !LastMode(past).Open? && AfterTrips(past, t, o) && !BeganIn(past, id)
    case Refused(t) => LastMode(past).Open? && LastTrip(past).Some? && t < LastTrip(past).value + o.resetTimeout
    case Passed(id) => id in Flying(past)
    case Failed(id, _) => id in Flying(past)
    case Tripped(t) => !LastMode(past).Open? && FailuresInRow(past) >= o.threshold && AfterTrips(past, t, o)
    case Probing(t, _) => LastMode(past).Open? && AfterTrips(past, t, o)
    case Recovered => LastMode(past).HalfOpen? && past != [] && past[|past| - 1].Passed?
    case Looked(_) => true
  }

  ghost predicate LegalLog(log: seq<Entry>, o: Options) {
    forall j :: 0 <= j < |log| ==> Legal(log[..j], log[j], o) && Prompt(log[..j], log[j])
  }

  // ---------------------------------------------------------------- runs

  datatype World = World(c: Circuit, now: int, log: seq<Entry>)

  datatype Event =
    | Start(id: nat, t1: int, t2: int)
    | Succeed(id: nat)
    | Fail(id: nat, t1: int, t2: int)
    | GetState(t: int)

  /** The clock never goes back, every call is new, and only a call in flight can end. */
  predicate Enabled(w: World, e: Event) {
    match e
    case Start(id, t1, t2) => !BeganIn(w.log, id) && w.now <= t1 <= t2
    case Succeed(id) => id in Flying(w.log)
    case Fail(id, t1, t2) => id in Flying(w.log) && w.now <= t1 <= t2
    case GetState(t) => w.now <= t
  }

  function ProbingEntry(before: Circuit, after: Circuit, t: int, byStart: bool): seq<Entry> {
    if before.mode.Open? && after.mode.HalfOpen? then [Probing(t, byStart)] else []
  }

  function Step(w: World, o: Options, e: Event): World {
    match e
    case Start(id, t1, t2) =>
      var c := Begun(w.c, o, t1, t2);
      var looked := w.log + [Looked(t1)];
      if Refuses(w.c, t1, t2) then World(c, t2, looked + [Refused(t2)])
      else World(c, t2, looked + ProbingEntry(w.c, c, t2, true) + [Began(id, t2)])
    case Succeed(id) =>
      World(Succeeded(w.c), w.now, w.log + [Passed(id)] + if w.c.mode.HalfOpen? then [Recovered] else [])
    case Fail(id, t1, t2) =>
      World(AfterFailure(w.c, o, t1, t2), t2, w.log + [Failed(id, t1)] + if Trips(w.c, o) then [Tripped(t2)] else [])
    case GetState(t) =>
      var c := Updated(w.c, o, t);
      World(c, t, w.log + [Looked(t)] + ProbingEntry(w.c, c, t, false))
  }

  ghost predicate IsRun(w: World, o: Options, es: seq<Event>)
    decreases |es|
  {
    es == [] || (Enabled(w, es[0]) && IsRun(Step(w, o, es[0]), o, es[1..]))
  }

  ghost function Run(w: World, o: Options, es: seq<Event>): World
    decreases |es|
  {
    if es == [] then w else Run(Step(w, o, es[0]), o, es[1..])
  }

  function Initial(now: nat): World { World(Circuit(0, 0, Closed, 0), now, []) }

  // ---------------------------------------------------------------- the invariant

  /** What the circuit remembers of its log. */
  ghost predicate Remembers(c: Circuit, now: int, log: seq<Entry>, o: Options) {
    && c.mode == LastMode(log) && c.failures == Standing(log, o.window) <= FailuresInRow(log)
    && c.lastFailure == LastFailure(log)
    && (LastTrip(log).None? ==> !c.mode.Open? && c.nextAttempt <= now)
    && (LastTrip(log).Some? ==> c.nextAttempt == LastTrip(log).value + o.resetTimeout && LastTrip(log).value <= now)
    && AfterTrips(log, c.nextAttempt, o)
    && (now < c.nextAttempt ==> c.mode.Open?)
  }

  ghost predicate BelowThreshold(c: Circuit, o: Options) {
    o.threshold >= 1 && c.mode.Closed? ==> c.failures < o.threshold
  }

  /** Nothing is due at once. */
  ghost predicate Settled(log: seq<Entry>) { forall e :: Prompt(log, e) }

  ghost predicate Invariant(w: World, o: Options) {
    Remembers(w.c, w.now, w.log, o) && LegalLog(w.log, o) && Settled(w.log) && BelowThreshold(w.c, o)
  }

  lemma Snoc(log: seq<Entry>, e: Entry, o: Options)
    ensures LastMode(log + [e]) == ModeAfter(LastMode(log), e)
    ensures LastTrip(log + [e]) == if e.Tripped? then Some(e.time) else LastTrip(log)
    ensures LastFailure(log + [e]) == if e.Failed? then e.time else LastFailure(log)
    ensures FailuresInRow(log + [e]) == (
      if e.Failed? then FailuresInRow(log) + 1 else if e.Passed? then 0 else FailuresInRow(log))
    ensures Standing(log + [e], o.window) == (
      if e.Failed? then Standing(log, o.window) + 1
      else if e.Passed? || (e.Looked? && e.time - LastFailure(log) > o.window) then 0 else Standing(log, o.window))
    ensures Flying(log + [e]) == FlyingAfter(Flying(log), e)
    ensures forall id :: BeganIn(log + [e], id) <==> BeganIn(log, id) || (e.Began? && e.id == id)
  {
    var all := log + [e];
    assert all[..|log|] == log;
    forall id
      ensures BeganIn(all, id) <==> BeganIn(log, id) || (e.Began? && e.id == id)
    {
      if BeganIn(log, id) {
        var i :| 0 <= i < |log| && log[i].Began? && log[i].id == id;
        assert all[i] == log[i];
      }
      assert all[|log|] == e;
    }
  }

  lemma TripsSnoc(log: seq<Entry>, e: Entry, o: Options, t: int)
    ensures AfterTrips(log + [e], t, o) <==> AfterTrips(log, t, o) && (e.Tripped? ==> e.time + o.resetTimeout <= t)
  {
    if AfterTrips(log + [e], t, o) {
      assert forall i :: 0 <= i < |log| ==> (log + [e])[i] == log[i];
      assert (log + [e])[|log|] == e;
    }
  }

  lemma {:induction false} NeverTripped(log: seq<Entry>, o: Options, t: int)
    requires LastTrip(log).None?
    ensures AfterTrips(log, t, o)
  {
    if log != [] { NeverTripped(log[..|log| - 1], o, t); }
  }

  lemma LegalSnoc(log: seq<Entry>, e: Entry, o: Options)
    requires LegalLog(log, o) && Legal(log, e, o) && Prompt(log, e)
    ensures LegalLog(log + [e], o)
  {
    hide Legal, Prompt;
    var all := log + [e];
    forall j | 0 <= j < |all|
      ensures Legal(all[..j], all[j], o) && Prompt(all[..j], all[j])
    {
      if j < |log| { assert all[..j] == log[..j] && all[j] == log[j]; } else { assert all[..j] == log; }
    }
  }

  lemma SettledSnoc(log: seq<Entry>, e: Entry)
    requires !(e.Probing? && e.byStart) && !(e.Passed? && LastMode(log).HalfOpen?)
    ensures Settled(log + [e])
  {
    assert LastMode(log + [e]) == LastMode(log) || !e.Passed? by { Snoc(log, e, SHIPPED); }
    hide LastMode;
  }

  /** A look at the clock: the count is cleared after a quiet window. */
  function Seen(c: Circuit, o: Options, t: int): Circuit {
    if t - c.lastFailure > o.window then c.(failures := 0) else c
  }

  lemma LookKeeps(c: Circuit, now: int, log: seq<Entry>, o: Options, t: int)
    requires Remembers(c, now, log, o) && LegalLog(log, o) && Settled(log) && now <= t
    ensures var grown := log + [Looked(t)];
      Remembers(Seen(c, o, t), t, grown, o) && LegalLog(grown, o) && Settled(grown)
  {
    hide LastMode, LastTrip, FailuresInRow, Standing, LastFailure, Flying, BeganIn, LegalLog, AfterTrips;
    Snoc(log, Looked(t), o);
    TripsSnoc(log, Looked(t), o, c.nextAttempt);
    LegalSnoc(log, Looked(t), o);
    SettledSnoc(log, Looked(t));
  }

  /** Entering the half-open state, from `updateState` or from `execute` itself. */
  lemma ProbingKeeps(c: Circuit, now: int, log: seq<Entry>, o: Options, t: int, byStart: bool)
    requires Remembers(c, now, log, o) && LegalLog(log, o) && Settled(log)
    requires c.mode.Open? && now <= t && c.nextAttempt <= t
    ensures var grown := log + [Probing(t, byStart)];
      Remembers(c.(mode := HalfOpen), t, grown, o) && LegalLog(grown, o) && (!byStart ==> Settled(grown))
  {
    var e := Probing(t, byStart);
    assert AfterTrips(log, t, o);
    hide LastMode, LastTrip, FailuresInRow, Standing, LastFailure, Flying, BeganIn, LegalLog, AfterTrips;
    Snoc(log, e, o);
    TripsSnoc(log, e, o, c.nextAttempt);
    LegalSnoc(log, e, o);
    if !byStart { SettledSnoc(log, e); }
  }

  lemma LaterKeeps(c: Circuit, now: int, log: seq<Entry>, o: Options, t: int)
    requires Remembers(c, now, log, o) && now <= t
    ensures Remembers(c, t, log, o)
  {
    hide LastMode, LastTrip, FailuresInRow, Standing, LastFailure, AfterTrips;
  }

  /** `Updated` and `Begun` look at the clock and perhaps start probing. */
  lemma BegunShape(c: Circuit, o: Options, t1: int, t2: int)
    requires t1 <= t2
    ensures Begun(c, o, t1, t2)
         == Seen(c, o, t1).(mode := if c.mode.Open? && c.nextAttempt <= t2 then HalfOpen else c.mode)
    ensures Begun(c, o, t1, t1) == Updated(c, o, t1)
  {
  }

  lemma BegunKeeps(c: Circuit, now: int, log: seq<Entry>, o: Options, t1: int, t2: int, byStart: bool)
    requires Remembers(c, now, log, o) && LegalLog(log, o) && Settled(log) && BelowThreshold(c, o) && now <= t1 <= t2
    ensures var b := Begun(c, o, t1, t2); var grown := log + [Looked(t1)] + ProbingEntry(c, b, t2, byStart);
      && Remembers(b, t2, grown, o) && LegalLog(grown, o) && BelowThreshold(b, o)
      && (!byStart || ProbingEntry(c, b, t2, byStart) == [] ==> Settled(grown))
  {
    hide LastMode, LastTrip, FailuresInRow, LegalLog, Begun, Remembers, Settled;
    BegunShape(c, o, t1, t2);
    var b := Begun(c, o, t1, t2);
    var looked := log + [Looked(t1)];
    LookKeeps(c, now, log, o, t1);
    if c.mode.Open? && c.nextAttempt <= t2 {
      ProbingKeeps(Seen(c, o, t1), t1, looked, o, t2, byStart);
    } else {
      assert looked + ProbingEntry(c, b, t2, byStart) == looked;
      LaterKeeps(Seen(c, o, t1), t1, looked, o, t2);
    }
  }

  /** An entry about a call that neither trips nor changes the mode. */
  lemma NoteKeeps(c: Circuit, now: int, log: seq<Entry>, o: Options, e: Entry)
    requires Remembers(c, now, log, o) && LegalLog(log, o) && Prompt(log, e)
    requires e.Began? || e.Refused?
    requires e.Began? ==> e.time == now && !c.mode.Open? && !BeganIn(log, e.id)
    requires e.Refused? ==> e.time == now < c.nextAttempt && c.mode.Open?
    ensures Remembers(c, now, log + [e], o) && LegalLog(log + [e], o) && Settled(log + [e])
  {
    assert e.Began? ==> AfterTrips(log, e.time, o);
    hide LastMode, LastTrip, FailuresInRow, Standing, LastFailure, Flying, LegalLog, AfterTrips, Prompt, BeganIn;
    Snoc(log, e, o);
    TripsSnoc(log, e, o, c.nextAttempt);
    LegalSnoc(log, e, o);
    SettledSnoc(log, e);
  }

  lemma NotBegun(log: seq<Entry>, t1: int, probing: seq<Entry>, id: nat, o: Options)
    requires !BeganIn(log, id) && |probing| <= 1 && (probing != [] ==> probing[0].Probing?)
    ensures !BeganIn(log + [Looked(t1)] + probing, id)
  {
    Snoc(log, Looked(t1), o);
    hide BeganIn;
    var looked := log + [Looked(t1)];
    if probing == [] { assert looked + probing == looked; }
    else {
      Snoc(looked, probing[0], o);
      assert probing == [probing[0]];
    }
  }

  /** A call is what must follow the probing it caused. */
  lemma CallIsPrompt(log: seq<Entry>, t1: int, probing: seq<Entry>, id: nat, t2: int)
    requires |probing| <= 1 && (probing != [] ==> probing[0].Probing?)
    ensures Prompt(log + [Looked(t1)] + probing, Began(id, t2))
  {
  }

  lemma StartKeeps(w: World, o: Options, id: nat, t1: int, t2: int)
    requires Invariant(w, o) && Enabled(w, Start(id, t1, t2))
    ensures Invariant(Step(w, o, Start(id, t1, t2)), o)
  {
    hide Remembers, LegalLog, BelowThreshold, Begun, Settled, BeganIn, Prompt;
    var c := Begun(w.c, o, t1, t2);
    var probing := ProbingEntry(w.c, c, t2, true);
    var grown := w.log + [Looked(t1)] + probing;
    BegunShape(w.c, o, t1, t2);
    BegunKeeps(w.c, w.now, w.log, o, t1, t2, true);
    if Refuses(w.c, t1, t2) {
      assert grown == w.log + [Looked(t1)];
      SettledPrompt(grown, Refused(t2));
      NoteKeeps(c, t2, grown, o, Refused(t2));
    } else {
      NotBegun(w.log, t1, probing, id, o);
      CallIsPrompt(w.log, t1, probing, id, t2);
      NoteKeeps(c, t2, grown, o, Began(id, t2));
    }
  }

  lemma SettledPrompt(log: seq<Entry>, e: Entry)
    requires Settled(log)
    ensures Prompt(log, e)
  {
  }

  lemma SucceedKeeps(w: World, o: Options, id: nat)
    requires Invariant(w, o) && Enabled(w, Succeed(id))
    ensures Invariant(Step(w, o, Succeed(id)), o)
  {
    hide LastMode, LastTrip, FailuresInRow, Standing, LastFailure, Flying, BeganIn, LegalLog, AfterTrips, Settled;
    var log := w.log + [Passed(id)];
    Snoc(w.log, Passed(id), o);
    TripsSnoc(w.log, Passed(id), o, w.c.nextAttempt);
    SettledPrompt(w.log, Passed(id));
    LegalSnoc(w.log, Passed(id), o);
    if w.c.mode.HalfOpen? {
      Snoc(log, Recovered, o);
      TripsSnoc(log, Recovered, o, w.c.nextAttempt);
      LegalSnoc(log, Recovered, o);
      SettledSnoc(log, Recovered);
    } else {
      assert log + [] == log;
      SettledSnoc(w.log, Passed(id));
    }
  }

  /** A failure that does not trip. */
  lemma FailureKeeps(c: Circuit, now: int, log: seq<Entry>, o: Options, id: nat, t1: int, t2: int)
    requires Remembers(c, now, log, o) && LegalLog(log, o) && Settled(log) && id in Flying(log) && now <= t1 <= t2
    ensures var grown := log + [Failed(id, t1)];
      && Remembers(c.(failures := c.failures + 1, lastFailure := t1), t2, grown, o)
      && LegalLog(grown, o) && Settled(grown)
  {
    hide LastMode, LastTrip, FailuresInRow, Standing, LastFailure, Flying, BeganIn, LegalLog, AfterTrips, Settled;
    var e := Failed(id, t1);
    Snoc(log, e, o);
    TripsSnoc(log, e, o, c.nextAttempt);
    SettledPrompt(log, e);
    LegalSnoc(log, e, o);
    SettledSnoc(log, e);
  }

  /** Earlier trips are over by the time of a new one, and so is their reset time before the new one's. */
  lemma TripsOver(c: Circuit, now: int, log: seq<Entry>, o: Options)
    requires Remembers(c, now, log, o) && !c.mode.Open?
    ensures AfterTrips(log, now, o) && AfterTrips(log, now + o.resetTimeout, o)
  {
    if LastTrip(log).None? { NeverTripped(log, o, now + o.resetTimeout); }
    hide LastMode, LastTrip, FailuresInRow, Standing, LastFailure;
  }

  lemma TripKeeps(c: Circuit, now: int, log: seq<Entry>, o: Options)
    requires Remembers(c, now, log, o) && LegalLog(log, o) && Settled(log) && !c.mode.Open? && c.failures >= o.threshold
    ensures var grown := log + [Tripped(now)];
      && Remembers(c.(mode := Open, nextAttempt := now + o.resetTimeout), now, grown, o)
      && LegalLog(grown, o) && Settled(grown)
  {
    hide LastMode, LastTrip, FailuresInRow, Standing, LastFailure, Flying, BeganIn, LegalLog, AfterTrips, Settled;
    var e := Tripped(now);
    TripsOver(c, now, log, o);
    Snoc(log, e, o);
    TripsSnoc(log, e, o, now + o.resetTimeout);
    SettledPrompt(log, e);
    LegalSnoc(log, e, o);
    SettledSnoc(log, e);
  }

  lemma FailKeeps(w: World, o: Options, id: nat, t1: int, t2: int)
    requires Invariant(w, o) && Enabled(w, Fail(id, t1, t2))
    ensures Invariant(Step(w, o, Fail(id, t1, t2)), o)
  {
    FailureKeeps(w.c, w.now, w.log, o, id, t1, t2);
    hide Remembers, LegalLog, Settled;
    var log := w.log + [Failed(id, t1)];
    if Trips(w.c, o) {
      TripKeeps(w.c.(failures := w.c.failures + 1, lastFailure := t1), t2, log, o);
    } else {
      assert log + [] == log;
    }
  }

  lemma StepKeeps(w: World, o: Options, e: Event)
    requires Invariant(w, o) && Enabled(w, e)
    ensures Invariant(Step(w, o, e), o)
  {
    match e
    case Start(id, t1, t2) => StartKeeps(w, o, id, t1, t2);
    case Succeed(id) => SucceedKeeps(w, o, id);
    case Fail(id, t1, t2) => FailKeeps(w, o, id, t1, t2);
    case GetState(t) =>
      hide Remembers, LegalLog, BelowThreshold, Begun, Updated, Settled;
      BegunShape(w.c, o, t, t);
      BegunKeeps(w.c, w.now, w.log, o, t, t, false);
  }

  lemma {:induction false} RunKeeps(w: World, o: Options, es: seq<Event>)
    requires Invariant(w, o) && IsRun(w, o, es)
    ensures Invariant(Run(w, o, es), o)
    decreases |es|
  {
    hide Step, Invariant, Enabled;
    if es != [] {
      StepKeeps(w, o, es[0]);
      RunKeeps(Step(w, o, es[0]), o, es[1..]);
    }
  }

  lemma InitialKeeps(now: nat, o: Options)
    ensures Invariant(Initial(now), o)
  {
  }

  /** In every run, with any number of calls in flight and late results landing at any time, the log
      is that of a circuit breaker; and a closed circuit is below its threshold exactly if the
      threshold is at least 1. */
  lemma BreakerGuarantees(now: nat, o: Options, es: seq<Event>)
    requires IsRun(Initial(now), o, es)
    ensures var w := Run(Initial(now), o, es);
      && LegalLog(w.log, o) && w.c.mode == LastMode(w.log)
      && (w.c.mode.Closed? ==> (w.c.failures < o.threshold <==> o.threshold >= 1))
  {
    hide Step;
    InitialKeeps(now, o);
    RunKeeps(Initial(now), o, es);
  }

  /** Pairwise reading of the log: after a trip nothing begins and nothing trips again before the
      reset time has passed. */
  lemma QuietAfterTrip(log: seq<Entry>, o: Options, i: nat, j: nat)
    requires LegalLog(log, o) && i < j < |log| && log[i].Tripped? && (log[j].Began? || log[j].Tripped?)
    ensures log[j].time >= log[i].time + o.resetTimeout
  {
    hide LastMode, FailuresInRow, LastTrip, Prompt;
    assert Legal(log[..j], log[j], o);
    assert log[..j][i] == log[i];
  }

  // ---------------------------------------------------------------- failures while half-open

  /** In every run and for every call in flight, what its failure does, whatever else has begun or ended
      since the circuit became half-open: it opens a circuit that is not open exactly if it makes up the
      threshold together with the failures that stand, those after the latest success and after the
      latest look that followed a quiet window. Short of that a half-open circuit stays half-open. */
  lemma EveryFailure(now: nat, o: Options, es: seq<Event>, id: nat, f1: int, f2: int)
    requires IsRun(Initial(now), o, es) && Enabled(Run(Initial(now), o, es), Fail(id, f1, f2))
    ensures var w := Run(Initial(now), o, es);
      Step(w, o, Fail(id, f1, f2)).c.mode
        == if Standing(w.log, o.window) + 1 >= o.threshold then Open else LastMode(w.log)
  {
    InitialKeeps(now, o);
    RunKeeps(Initial(now), o, es);
    hide IsRun, Run, LegalLog, Settled;
  }

  /** For a half-open circuit. */
  lemma HalfOpenFailure(now: nat, o: Options, es: seq<Event>, id: nat, f1: int, f2: int)
    requires IsRun(Initial(now), o, es) && Enabled(Run(Initial(now), o, es), Fail(id, f1, f2))
    requires Run(Initial(now), o, es).c.mode.HalfOpen?
    ensures var w := Run(Initial(now), o, es); var after := Step(w, o, Fail(id, f1, f2)).c.mode;
      (after.Open? <==> Standing(w.log, o.window) + 1 >= o.threshold) && (after.Open? || after.HalfOpen?)
  {
    BreakerGuarantees(now, o, es);
    EveryFailure(now, o, es, id, f1, f2);
    hide IsRun, Run, Step, LegalLog;
  }

  /** A probe that starts on an open circuit and fails, with no other result in between, reopens it
      exactly if the threshold is met by one failure, or the count was still standing when the probe
      started. */
  lemma FailedProbe(c: Circuit, o: Options, t1: int, t2: int, f1: int, f2: int)
    requires c.mode.Open? && t1 <= t2 <= f1 <= f2 && !Refuses(c, t1, t2)
    ensures var after := AfterFailure(Begun(c, o, t1, t2), o, f1, f2);
      after.mode.Open? <==> o.threshold <= 1 || (t1 - c.lastFailure <= o.window && c.failures + 1 >= o.threshold)
  {
  }

  /** A probe is begun in a run that has left the circuit open, and the next thing is its failure. */
  ghost predicate IsProbe(w: World, id: nat, t1: int, t2: int, f1: int, f2: int) {
    w.c.mode.Open? && Enabled(w, Start(id, t1, t2)) && !Refuses(w.c, t1, t2) && t2 <= f1 <= f2
  }

  function Probed(w: World, o: Options, id: nat, t1: int, t2: int, f1: int, f2: int): Circuit {
    Step(Step(w, o, Start(id, t1, t2)), o, Fail(id, f1, f2)).c
  }

  /** The special case of a probe whose failure is the next event. In every run it reopens the circuit
      exactly if one failure meets the threshold, or some call failed at most a window before the probe
      started and enough failures stand with it. */
  lemma ProbeReopens(now: nat, o: Options, es: seq<Event>, id: nat, t1: int, t2: int, f1: int, f2: int)
    requires IsRun(Initial(now), o, es) && IsProbe(Run(Initial(now), o, es), id, t1, t2, f1, f2)
    ensures var w := Run(Initial(now), o, es);
      Probed(w, o, id, t1, t2, f1, f2).mode.Open? <==> (
        o.threshold <= 1 || (t1 <= LastFailure(w.log) + o.window && Standing(w.log, o.window) + 1 >= o.threshold))
  {
    InitialKeeps(now, o);
    RunKeeps(Initial(now), o, es);
    var w := Run(Initial(now), o, es);
    FailedProbe(w.c, o, t1, t2, f1, f2);
    hide IsRun, Run, LegalLog, Settled, Begun;
  }

  /** Every failing call reads the same millisecond twice. */
  ghost predicate OneReading(es: seq<Event>) { forall i :: 0 <= i < |es| && es[i].Fail? ==> es[i].t1 == es[i].t2 }

  /** While the circuit is open its count is not cleared by the clock, so it stands or it counts from
      the latest success. */
  ghost predicate StandsWhileOpen(w: World, o: Options) {
    w.c.mode.Open? ==>
      && (Standing(w.log, o.window) == FailuresInRow(w.log) || Standing(w.log, o.window) >= o.threshold)
      && w.c.nextAttempt <= w.c.lastFailure + o.resetTimeout
  }

  lemma StepStands(w: World, o: Options, e: Event)
    requires Invariant(w, o) && Enabled(w, e) && StandsWhileOpen(w, o) && o.resetTimeout <= o.window
    requires e.Fail? ==> e.t1 == e.t2
    ensures StandsWhileOpen(Step(w, o, e), o)
  {
    hide LegalLog, Settled, BeganIn;
    match e
    case Start(id, t1, t2) => LookStands(w, o, e, t1, t2);
    case GetState(t) => LookStands(w, o, e, t, t);
    case Succeed(id) =>
      Snoc(w.log, Passed(id), o);
      hide LastMode, LastTrip, Standing, FailuresInRow, LastFailure, Flying;
      if Step(w, o, e).c.mode.Open? { assert Step(w, o, e).log == w.log + [Passed(id)]; }
    case Fail(id, t1, t2) => FailStands(w, o, id, t1);
  }

  /** A look that leaves the circuit open comes before the count runs out. */
  lemma LookStands(w: World, o: Options, e: Event, t1: int, t2: int)
    requires Remembers(w.c, w.now, w.log, o) && StandsWhileOpen(w, o) && o.resetTimeout <= o.window && t1 <= t2
    requires (e == GetState(t1) && t1 == t2) || (e.Start? && e.t1 == t1 && e.t2 == t2)
    ensures StandsWhileOpen(Step(w, o, e), o)
  {
    BegunShape(w.c, o, t1, t2);
    hide LastMode, LastTrip, Standing, FailuresInRow, LastFailure, Flying, Begun, Updated, BeganIn;
    var after := Step(w, o, e);
    if after.c.mode.Open? {
      Snoc(w.log, Looked(t1), o);
      Snoc(w.log + [Looked(t1)], Refused(t2), o);
      assert w.log + [Looked(t1)] + [] == w.log + [Looked(t1)];
    }
  }

  lemma FailStands(w: World, o: Options, id: nat, t: int)
    requires Remembers(w.c, w.now, w.log, o) && StandsWhileOpen(w, o) && w.now <= t
    ensures StandsWhileOpen(Step(w, o, Fail(id, t, t)), o)
  {
    hide LastMode, LastTrip, Standing, FailuresInRow, LastFailure, Flying, BeganIn;
    var log := w.log + [Failed(id, t)];
    Snoc(w.log, Failed(id, t), o);
    Snoc(log, Tripped(t), o);
    assert log + [] == log;
  }

  lemma {:induction false} RunStands(w: World, o: Options, es: seq<Event>)
    requires Invariant(w, o) && IsRun(w, o, es) && StandsWhileOpen(w, o) && o.resetTimeout <= o.window && OneReading(es)
    ensures StandsWhileOpen(Run(w, o, es), o)
    decreases |es|
  {
    hide Step, Invariant, Enabled, StandsWhileOpen;
    if es != [] {
      StepKeeps(w, o, es[0]);
      StepStands(w, o, es[0]);
      RunStands(Step(w, o, es[0]), o, es[1..]);
    }
  }

  /** The same special case with the shipped settings: a probe whose failure is the next event reopens
      the circuit exactly if some call failed within the minute before the probe started, and with it at
      least five failed since the latest success. So when no call fails while the circuit is open,
      it reopens only on a probe in the very millisecond the reset time ends. */
  lemma ShippedProbe(now: nat, es: seq<Event>, id: nat, t1: int, t2: int, f1: int, f2: int)
    requires IsRun(Initial(now), SHIPPED, es) && OneReading(es)
    requires IsProbe(Run(Initial(now), SHIPPED, es), id, t1, t2, f1, f2)
    ensures var w := Run(Initial(now), SHIPPED, es);
      var reopened := Probed(w, SHIPPED, id, t1, t2, f1, f2).mode.Open?;
      && (reopened <==> t1 <= LastFailure(w.log) + 60000 && FailuresInRow(w.log) + 1 >= 5)
      && (reopened && t1 == t2 && LastTrip(w.log) == Some(LastFailure(w.log)) ==> t1 == LastTrip(w.log).value + 60000)
  {
    InitialKeeps(now, SHIPPED);
    RunKeeps(Initial(now), SHIPPED, es);
    RunStands(Initial(now), SHIPPED, es);
    ProbeReopens(now, SHIPPED, es, id, t1, t2, f1, f2);
    hide IsRun, Run, LegalLog, Settled, Standing, FailuresInRow, LastFailure, LastTrip, Probed;
  }

  /** Five failures at 10, a probe at 70000 that fails: the circuit stays half-open. */
  lemma FailedProbeStays()
    ensures var c := Circuit(5, 10, Open, 60010);
      !Refuses(c, 70000, 70000)
      && AfterFailure(Begun(c, SHIPPED, 70000, 70000), SHIPPED, 70001, 70001) == Circuit(1, 70001, HalfOpen, 60010)
  {
  }

  /** Other results while the probe is in flight decide instead: four failures of older calls let a probe
      reopen that would not, and a success of an older call keeps one from reopening that would. */
  lemma OtherResultsDecide()
    ensures var c := Begun(Circuit(5, 10, Open, 60010), SHIPPED, 70000, 70000);
      var c1 := AfterFailure(c, SHIPPED, 70001, 70001);
      var c2 := AfterFailure(c1, SHIPPED, 70002, 70002);
      var c3 := AfterFailure(c2, SHIPPED, 70003, 70003);
      var c4 := AfterFailure(c3, SHIPPED, 70004, 70004);
      AfterFailure(c, SHIPPED, 70005, 70005).mode.HalfOpen? && AfterFailure(c4, SHIPPED, 70005, 70005).mode.Open?
    ensures var c := Begun(Circuit(5, 59000, Open, 119000), SHIPPED, 119000, 119000);
      AfterFailure(c, SHIPPED, 119002, 119002).mode.Open?
      && AfterFailure(Succeeded(c), SHIPPED, 119002, 119002).mode.Closed?
  {
  }

  /** Two failures trip the breaker, and a probe after a quiet window fails without reopening it. */
  lemma FailedProbeRun()
    ensures var es := [Start(1, 0, 0), Start(2, 0, 0), Fail(1, 10, 10), Fail(2, 10, 10),
                       Start(3, 70000, 70000), Fail(3, 70001, 70001)];
      IsRun(Initial(0), TWICE, es) && Run(Initial(0), TWICE, es).c == Circuit(1, 70001, HalfOpen, 60010)
  {
    var es := [Start(1, 0, 0), Start(2, 0, 0), Fail(1, 10, 10), Fail(2, 10, 10),
               Start(3, 70000, 70000), Fail(3, 70001, 70001)];
    FirstFailures();
    ProbeSteps();
    hide Step, Enabled, TwoCalls, BothFailed, ProbeBegun;
    var w1 := World(Circuit(0, 0, Closed, 0), 0, [Looked(0), Began(1, 0)]);
    var w2 := World(Circuit(0, 0, Closed, 0), 0, TwoCalls());
    var w3 := World(Circuit(1, 10, Closed, 0), 10, TwoCalls() + [Failed(1, 10)]);
    Unfold(Initial(0), TWICE, es);
    Unfold(w1, TWICE, es[1..]);
    Unfold(w2, TWICE, es[2..]);
    Unfold(w3, TWICE, es[3..]);
    Unfold(World(Circuit(2, 10, Open, 60010), 10, BothFailed()), TWICE, es[4..]);
    Unfold(World(Circuit(0, 10, HalfOpen, 60010), 70000, ProbeBegun()), TWICE, es[5..]);
  }

  const TWICE := Options(2, 60000, 60000)

  function BothFailed(): seq<Entry> { TwoCalls() + [Failed(1, 10)] + [Failed(2, 10)] + [Tripped(10)] }

  function ProbeBegun(): seq<Entry> { BothFailed() + [Looked(70000)] + [Probing(70000, true)] + [Began(3, 70000)] }

  lemma FirstFailures()
    ensures Enabled(Initial(0), Start(1, 0, 0))
    ensures var w1 := Step(Initial(0), TWICE, Start(1, 0, 0)); var w2 := Step(w1, TWICE, Start(2, 0, 0));
      && w1 == World(Circuit(0, 0, Closed, 0), 0, [Looked(0), Began(1, 0)]) && Enabled(w1, Start(2, 0, 0))
      && w2 == World(Circuit(0, 0, Closed, 0), 0, TwoCalls()) && Enabled(w2, Fail(1, 10, 10))
    ensures var w2 := World(Circuit(0, 0, Closed, 0), 0, TwoCalls()); var w3 := Step(w2, TWICE, Fail(1, 10, 10));
      && w3 == World(Circuit(1, 10, Closed, 0), 10, TwoCalls() + [Failed(1, 10)]) && Enabled(w3, Fail(2, 10, 10))
  {
    LateCalls();
    TwoFlying();
    assert [Looked(0), Began(1, 0)] + [Looked(0)] + [Began(2, 0)] == TwoCalls();
    hide BeganIn, Flying, TwoCalls;
  }

  lemma TwoFlying()
    ensures 2 in Flying(TwoCalls() + [Failed(1, 10)])
    ensures !BeganIn(BothFailed(), 3) && 3 in Flying(ProbeBegun())
  {
    var a := TwoCalls();
    assert a == [Looked(0), Began(1, 0)] + [Looked(0)] + [Began(2, 0)];
    Snoc([Looked(0), Began(1, 0)] + [Looked(0)], Began(2, 0), TWICE);
    Snoc(a, Failed(1, 10), TWICE);
    assert !BeganIn(a, 3);
    Snoc(a + [Failed(1, 10)], Failed(2, 10), TWICE);
    Snoc(a + [Failed(1, 10)] + [Failed(2, 10)], Tripped(10), TWICE);
    hide Flying, BeganIn, TwoCalls;
    Snoc(BothFailed() + [Looked(70000)] + [Probing(70000, true)], Began(3, 70000), TWICE);
  }

  lemma ProbeSteps()
    ensures var w3 := World(Circuit(1, 10, Closed, 0), 10, TwoCalls() + [Failed(1, 10)]);
      Step(w3, TWICE, Fail(2, 10, 10)) == World(Circuit(2, 10, Open, 60010), 10, BothFailed())
    ensures var w4 := World(Circuit(2, 10, Open, 60010), 10, BothFailed());
      && Enabled(w4, Start(3, 70000, 70000))
      && Step(w4, TWICE, Start(3, 70000, 70000)) == World(Circuit(0, 10, HalfOpen, 60010), 70000, ProbeBegun())
    ensures var w5 := World(Circuit(0, 10, HalfOpen, 60010), 70000, ProbeBegun());
      && Enabled(w5, Fail(3, 70001, 70001))
      && Step(w5, TWICE, Fail(3, 70001, 70001)).c == Circuit(1, 70001, HalfOpen, 60010)
  {
    TwoFlying();
    hide Flying, BeganIn, TwoCalls;
  }

  // ---------------------------------------------------------------- what closes the circuit

  /** Where the half-open state was entered; nothing has changed the mode since. */
  function ProbingAt(log: seq<Entry>): (p: nat)
    requires LastMode(log).HalfOpen?
    ensures p < |log| && log[p].Probing?
    ensures forall i :: p < i < |log| ==> !log[i].Tripped? && !log[i].Probing? && !log[i].Recovered?
  {
    if log[|log| - 1].Probing? then |log| - 1 else ProbingAt(log[..|log| - 1])
  }

  ghost predicate BeganBetween(log: seq<Entry>, p: int, j: int, id: nat) {
    exists b :: p < b < j && 0 <= b < |log| && log[b].Began? && log[b].id == id
  }

  /** A call in flight was in flight before or has begun since. */
  lemma {:induction false} FlyingSince(log: seq<Entry>, p: nat, id: nat)
    requires p <= |log| && id in Flying(log)
    ensures id in Flying(log[..p]) || BeganBetween(log, p - 1, |log|, id)
    decreases |log|
  {
    if p == |log| {
      assert log[..p] == log;
    } else {
      var past, e := log[..|log| - 1], log[|log| - 1];
      if e == Began(id, if e.Began? then e.time else 0) {
        assert BeganBetween(log, p - 1, |log|, id);
      } else {
        FlyingSince(past, p, id);
        assert past[..p] == log[..p];
        if BeganBetween(past, p - 1, |past|, id) {
          var b :| p - 1 < b < |past| && 0 <= b && past[b].Began? && past[b].id == id;
          assert log[b] == past[b];
        }
      }
    }
  }

  lemma {:induction false} FlyingBegan(log: seq<Entry>, id: nat)
    requires id in Flying(log)
    ensures BeganIn(log, id)
  {
    var past, e := log[..|log| - 1], log[|log| - 1];
    if !(e.Began? && e.id == id) {
      FlyingBegan(past, id);
      var i :| 0 <= i < |past| && past[i].Began? && past[i].id == id;
      assert log[i] == past[i];
    }
  }

  /** What lies between the probing and a recovery. */
  ghost predicate OnlyFailures(log: seq<Entry>, p: int, j: int) {
    forall k :: p < k < j - 1 && 0 <= k < |log| ==> log[k].Failed? || log[k].Looked?
  }

  ghost predicate NoneBegan(log: seq<Entry>, p: int, j: int) {
    forall k :: p < k < j && 0 <= k < |log| ==> !log[k].Began?
  }

  /** Where the circuit was probing before the recovery at `j`. */
  ghost predicate ProbedAt(log: seq<Entry>, p: nat, j: nat) {
    && p < j - 1 && j < |log| && log[p].Probing? && log[j].Recovered? && log[j - 1].Passed?
    && forall i :: p < i < j ==>
      LastMode(log[..i]).HalfOpen? && !log[i].Tripped? && !log[i].Probing? && !log[i].Recovered?
  }

  lemma RecoveryHasProbing(log: seq<Entry>, o: Options, j: nat) returns (p: nat)
    requires LegalLog(log, o) && j < |log| && log[j].Recovered?
    ensures ProbedAt(log, p, j)
  {
    assert Legal(log[..j], log[j], o);
    p := ProbingAt(log[..j]);
    assert log[..j][j - 1] == log[j - 1] && log[..j][p] == log[p];
    forall i | p < i < j
      ensures LastMode(log[..i]).HalfOpen? && !log[i].Tripped? && !log[i].Probing? && !log[i].Recovered?
    {
      assert log[..j][i] == log[i];
      StillHalfOpen(log, p, i);
    }
  }

  lemma {:induction false} StillHalfOpen(log: seq<Entry>, p: nat, i: nat)
    requires p < i <= |log| && log[p].Probing?
    requires forall k :: p < k < i ==> !log[k].Tripped? && !log[k].Probing? && !log[k].Recovered?
    ensures LastMode(log[..i]).HalfOpen?
  {
    assert log[..i][..i - 1] == log[..i - 1] && log[..i][i - 1] == log[i - 1];
    if i - 1 > p { StillHalfOpen(log, p, i - 1); }
  }

  lemma BeginsOnce(log: seq<Entry>, o: Options, i: nat, j: nat)
    requires LegalLog(log, o) && i < j < |log| && log[i].Began? && log[j].Began?
    ensures log[i].id != log[j].id
  {
    hide LastMode;
    assert Legal(log[..j], log[j], o);
    assert log[..j][i] == log[i];
  }

  /** The call whose success closes the circuit began after the probing exactly if it was not in flight
      when the probing started. */
  lemma CloserBegan(log: seq<Entry>, o: Options, p: nat, j: nat)
    requires LegalLog(log, o) && ProbedAt(log, p, j)
    ensures BeganBetween(log, p, j, log[j - 1].id) <==> log[j - 1].id !in Flying(log[..p])
  {
    var id := log[j - 1].id;
    assert Legal(log[..j - 1], log[j - 1], o);
    if id in Flying(log[..p]) {
      FlyingBegan(log[..p], id);
      var i :| 0 <= i < p && log[..p][i].Began? && log[..p][i].id == id;
      assert log[i] == log[..p][i];
      forall b | p < b < j && log[b].Began?
        ensures log[b].id != id
      {
        BeginsOnce(log, o, i, b);
      }
    } else {
      FlyingSince(log[..j - 1], p, id);
      assert log[..j - 1][..p] == log[..p];
      var b :| p - 1 < b < j - 1 && 0 <= b && log[..j - 1][b].Began? && log[..j - 1][b].id == id;
      assert log[b] == log[..j - 1][b];
    }
  }

  /** No call at all began between the probing and the recovery exactly if `getState` started the probing
      and only failures of older calls were seen before the success. */
  lemma ClosedWithoutProbe(log: seq<Entry>, o: Options, p: nat, j: nat)
    requires LegalLog(log, o) && ProbedAt(log, p, j)
    ensures NoneBegan(log, p, j) <==> !log[p].byStart && OnlyFailures(log, p, j)
  {
    assert Prompt(log[..p + 1], log[p + 1]);
    assert log[..p + 1][p] == log[p];
    if NoneBegan(log, p, j) {
      forall k | p < k < j - 1
        ensures log[k].Failed? || log[k].Looked?
      {
        assert Legal(log[..k], log[k], o) && Prompt(log[..k + 1], log[k + 1]);
        assert log[..k + 1][k] == log[k];
        assert LastMode(log[..k]).HalfOpen? && LastMode(log[..k + 1]).HalfOpen?;
      }
    }
  }

  /** In every run, each recovery follows a success while half-open, and both conditions hold of it. */
  lemma RecoveryOrigin(now: nat, o: Options, es: seq<Event>, j: nat)
    requires IsRun(Initial(now), o, es)
    requires j < |Run(Initial(now), o, es).log| && Run(Initial(now), o, es).log[j].Recovered?
    ensures var log := Run(Initial(now), o, es).log;
      exists p: nat :: ProbedAt(log, p, j)
        && (BeganBetween(log, p, j, log[j - 1].id) <==> log[j - 1].id !in Flying(log[..p]))
        && (NoneBegan(log, p, j) <==> !log[p].byStart && OnlyFailures(log, p, j))
  {
    hide Step;
    BreakerGuarantees(now, o, es);
    var log := Run(Initial(now), o, es).log;
    hide Run, IsRun, LegalLog, ProbedAt, BeganBetween, NoneBegan, OnlyFailures;
    var p := RecoveryHasProbing(log, o, j);
    CloserBegan(log, o, p, j);
    ClosedWithoutProbe(log, o, p, j);
  }

  const LATE := Options(1, 60000, 60000)

  /** The log of two calls that have begun. */
  function TwoCalls(): seq<Entry> { [Looked(0), Began(1, 0), Looked(0), Began(2, 0)] }

  function ThenProbing(): seq<Entry> {
    TwoCalls() + [Failed(1, 10), Tripped(10), Looked(60010), Probing(60010, false)]
  }

  /** A run in which both happen: call 2 began before the trip, `getState` makes the circuit half-open,
      and the late success of call 2 closes it with no probe begun. */
  lemma LateSuccessCloses()
    ensures var es := [Start(1, 0, 0), Start(2, 0, 0), Fail(1, 10, 10), GetState(60010), Succeed(2)];
      IsRun(Initial(0), LATE, es) && Run(Initial(0), LATE, es).log == ThenProbing() + [Passed(2), Recovered]
  {
    var es := [Start(1, 0, 0), Start(2, 0, 0), Fail(1, 10, 10), GetState(60010), Succeed(2)];
    LateSteps();
    LateCalls();
    hide Step, BeganIn, Flying, TwoCalls, ThenProbing;
    var w0 := Initial(0);
    var w1 := World(Circuit(0, 0, Closed, 0), 0, [Looked(0), Began(1, 0)]);
    var w2 := World(Circuit(0, 0, Closed, 0), 0, TwoCalls());
    var w3 := World(Circuit(1, 10, Open, 60010), 10, TwoCalls() + [Failed(1, 10), Tripped(10)]);
    var w4 := World(Circuit(1, 10, HalfOpen, 60010), 60010, ThenProbing());
    Unfold(w0, LATE, es);
    Unfold(w1, LATE, es[1..]);
    Unfold(w2, LATE, es[2..]);
    Unfold(w3, LATE, es[3..]);
    Unfold(w4, LATE, es[4..]);
  }

  lemma LateSteps()
    ensures Step(Initial(0), LATE, Start(1, 0, 0)) == World(Circuit(0, 0, Closed, 0), 0, [Looked(0), Began(1, 0)])
    ensures Step(World(Circuit(0, 0, Closed, 0), 0, [Looked(0), Began(1, 0)]), LATE, Start(2, 0, 0))
         == World(Circuit(0, 0, Closed, 0), 0, TwoCalls())
    ensures Step(World(Circuit(0, 0, Closed, 0), 0, TwoCalls()), LATE, Fail(1, 10, 10))
         == World(Circuit(1, 10, Open, 60010), 10, TwoCalls() + [Failed(1, 10), Tripped(10)])
    ensures var w3 := World(Circuit(1, 10, Open, 60010), 10, TwoCalls() + [Failed(1, 10), Tripped(10)]);
      Step(w3, LATE, GetState(60010)) == World(Circuit(1, 10, HalfOpen, 60010), 60010, ThenProbing())
    ensures Step(World(Circuit(1, 10, HalfOpen, 60010), 60010, ThenProbing()), LATE, Succeed(2)).log
         == ThenProbing() + [Passed(2), Recovered]
  {
    assert [Looked(0), Began(1, 0)] + [Looked(0)] + [Began(2, 0)] == TwoCalls();
    assert ThenProbing() == TwoCalls() + [Failed(1, 10), Tripped(10)] + [Looked(60010)] + [Probing(60010, false)];
  }

  lemma LateCalls()
    ensures !BeganIn([], 1) && !BeganIn([Looked(0), Began(1, 0)], 2)
    ensures 1 in Flying(TwoCalls()) && 2 in Flying(ThenProbing())
  {
    var a := [Looked(0), Began(1, 0)];
    var b := TwoCalls();
    var c := ThenProbing();
    Snoc([Looked(0)], Began(1, 0), SHIPPED);
    Snoc(a, Looked(0), SHIPPED);
    Snoc(a + [Looked(0)], Began(2, 0), SHIPPED);
    Snoc(b, Failed(1, 10), SHIPPED);
    Snoc(b + [Failed(1, 10)], Tripped(10), SHIPPED);
    Snoc(b + [Failed(1, 10), Tripped(10)], Looked(60010), SHIPPED);
    Snoc(b + [Failed(1, 10), Tripped(10), Looked(60010)], Probing(60010, false), SHIPPED);
    hide Flying;
    assert a == [Looked(0)] + [Began(1, 0)] && b == a + [Looked(0)] + [Began(2, 0)];
    assert b + [Failed(1, 10)] + [Tripped(10)] == b + [Failed(1, 10), Tripped(10)];
    assert b + [Failed(1, 10), Tripped(10)] + [Looked(60010)] == b + [Failed(1, 10), Tripped(10), Looked(60010)];
    assert c == b + [Failed(1, 10), Tripped(10), Looked(60010)] + [Probing(60010, false)];
  }

  lemma Unfold(w: World, o: Options, es: seq<Event>)
    requires es != []
    ensures IsRun(w, o, es) <==> Enabled(w, es[0]) && IsRun(Step(w, o, es[0]), o, es[1..])
    ensures Run(w, o, es) == Run(Step(w, o, es[0]), o, es[1..])
  {
    hide Step, Enabled;
  }
}
