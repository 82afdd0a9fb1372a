/** The request queue of src/middlewares/request-queue.middleware.ts: a semaphore with a first-in
    first-out wait list, waiting timeouts and a release that each request performs only once. */
module Backpressure {
  import opened Basics

  /** Requests are numbered in order of arrival. */
  type Id = nat

  datatype Queue = Queue(active: int, waiting: seq<Id>, rejected: nat)

  // ---------------------------------------------------------------- the queue object

  function Acquired(q: Queue, max: int, id: Id): Queue {
    if q.active < max then q.(active := q.active + 1) else q.(waiting := q.waiting + [id])
  }

  predicate Wakes(q: Queue, max: int) { q.waiting != [] && Max(0, q.active - 1) < max }

  function Released(q: Queue, max: int): Queue {
    if Wakes(q, max) then Queue(Max(0, q.active - 1) + 1, q.waiting[1..], q.rejected)
    else q.(active := Max(0, q.active - 1))
  }

  /** `s` without the first occurrence of `id`. */
  function Remove(s: seq<Id>, id: Id): (r: seq<Id>)
    ensures |r| == if id in s then |s| - 1 else |s|
  {
    if s == [] then [] else if s[0] == id then s[1..] else [s[0]] + Remove(s[1..], id)
  }

  function TimedOut(q: Queue, id: Id): Queue {
    q.(waiting := Remove(q.waiting, id), rejected := q.rejected + 1)
  }

  lemma {:induction false} RemoveAt(s: seq<Id>, id: Id, i: nat)
    requires i <= |s| && id !in s[..i] && (i < |s| ==> s[i] == id)
    ensures Remove(s, id) == if i < |s| then s[..i] + s[i + 1..] else s
  {
    if i > 0 {
      var tail := s[1..];
      assert s[0] == s[..i][0] && s[0] != id;
      assert tail[..i - 1] == s[..i][1..];
      RemoveAt(tail, id, i - 1);
      assert Remove(s, id) == [s[0]] + Remove(tail, id);
      hide Remove;
      if i < |s| {
        assert [s[0]] + tail[..i - 1] == s[..i];
        assert tail[i..] == s[i + 1..];
        assert [s[0]] + (tail[..i - 1] + tail[i..]) == ([s[0]] + tail[..i - 1]) + tail[i..];
      } else {
        assert s == [s[0]] + tail;
      }
    }
  }

  class RequestQueue {
    var activeCount: int
    var waitQueue: seq<Id>
    const maxConcurrent: int
    var rejectedCount: nat

    ghost function State(): Queue
      reads this
    {
      Queue(activeCount, waitQueue, rejectedCount)
    }

    constructor (maxConcurrent: int)
      ensures this.maxConcurrent == maxConcurrent && State() == Queue(0, [], 0)
    {
      this.maxConcurrent := maxConcurrent;
      activeCount, waitQueue, rejectedCount := 0, [], 0;
    }

    /** `acquire`; `admitted` tells whether the promise is resolved at once. */
    method Acquire(id: Id, bypass: bool) returns (admitted: bool)
      modifies this
      ensures State() == if bypass then old(State()) else Acquired(old(State()), maxConcurrent, id)
      ensures admitted <==> bypass || old(activeCount) < maxConcurrent
    {
      if bypass {
        return true;
      }
      if activeCount < maxConcurrent {
        activeCount := activeCount + 1;
        return true;
      }
      waitQueue := waitQueue + [id];
      return false;
    }

    /** `release`; `woken` is the waiter whose promise is resolved with `true`. */
    method Release(bypass: bool) returns (woken: Option<Id>)
      modifies this
      ensures State() == if bypass then old(State()) else Released(old(State()), maxConcurrent)
      ensures woken == if !bypass && Wakes(old(State()), maxConcurrent) then Some(old(waitQueue)[0]) else None
    {
      woken := None;
      if bypass {
        return;
      }
      activeCount := activeCount - 1;
      if activeCount < 0 {
        activeCount := 0;
      }
      if |waitQueue| > 0 && activeCount < maxConcurrent {
        woken := Some(waitQueue[0]);
        waitQueue := waitQueue[1..];
        activeCount := activeCount + 1;
      }
    }

    /** The timer of waiter `id` fires. */
    method Timeout(id: Id)
      modifies this
      ensures State() == TimedOut(old(State()), id)
    {
      var i := 0;
      while i < |waitQueue| && waitQueue[i] != id
        invariant 0 <= i <= |waitQueue| && id !in waitQueue[..i]
      {
        i := i + 1;
      }
      RemoveAt(waitQueue, id, i);
      if i < |waitQueue| {
        waitQueue := waitQueue[..i] + waitQueue[i + 1..];
      }
      rejectedCount := rejectedCount + 1;
    }
  }

  // ---------------------------------------------------------------- runs

  /** The queue with its history. `arrived` and `admitted` list the requests that do not bypass the
      queue; `open` holds the admitted ones whose once-only release is still to come. */
  datatype World = World(q: Queue, next: nat, bypassed: set<Id>, arrived: seq<Id>, admitted: seq<Id>,
                         open: set<Id>, gone: set<Id>)

  /** `Finish` is a `finish` or `close` event of a response; both may occur, in any number. */
  datatype Event = Arrive(bypass: bool) | Finish(id: Id) | Timeout(id: Id)

  /** Only admitted requests have their release attached, and a waiter's timer is cleared when it is
      woken. */
  predicate Enabled(w: World, e: Event) {
    match e
    case Arrive(_) => true
    case Finish(id) => id in w.admitted || id in w.bypassed
    case Timeout(id) => id in w.q.waiting
  }

  function Step(w: World, max: int, e: Event): World {
    match e
    case Arrive(true) => w.(next := w.next + 1, bypassed := w.bypassed + {w.next})
    case Arrive(false) =>
      var entered := w.(q := Acquired(w.q, max, w.next), next := w.next + 1, arrived := w.arrived + [w.next]);
      if w.q.active < max then entered.(admitted := w.admitted + [w.next], open := w.open + {w.next}) else entered
    case Finish(id) => if id in w.open then Close(w, max, id) else w
    case Timeout(id) => w.(q := TimedOut(w.q, id), gone := w.gone + {id})
  }

  /** The one release that counts, and whom it lets in. */
  function Close(w: World, max: int, id: Id): World {
    var left := w.(q := Released(w.q, max), open := w.open - {id});
    if Wakes(w.q, max)
    then left.(admitted := w.admitted + [w.q.waiting[0]], open := w.open - {id} + {w.q.waiting[0]})
    else left
  }

  ghost predicate IsRun(w: World, max: int, es: seq<Event>)
    decreases |es|
  {
    es == [] || (Enabled(w, es[0]) && IsRun(Step(w, max, es[0]), max, es[1..]))
  }

  ghost function Run(w: World, max: int, es: seq<Event>): World
    decreases |es|
  {
    if es == [] then w else Run(Step(w, max, es[0]), max, es[1..])
  }

  function Start(): World { World(Queue(0, [], 0), 0, {}, [], [], {}, {}) }

  // ---------------------------------------------------------------- the invariant

  ghost predicate Ascending(s: seq<Id>) { forall i, j :: 0 <= i < j < |s| ==> s[i] < s[j] }

  /** Those of `arrived` that have not given up, in order. */
  function Survivors(arrived: seq<Id>, gone: set<Id>): seq<Id> {
    if arrived == [] then []
    else
      var last := arrived[|arrived| - 1];
      var before := Survivors(arrived[..|arrived| - 1], gone);
      if last in gone then before else before + [last]
  }

  /** First come, first served: the survivors in order of arrival are those admitted, in order of
      admission, and then those waiting, in order of the queue. */
  ghost predicate InOrder(w: World) { Survivors(w.arrived, w.gone) == w.admitted + w.q.waiting }

  ghost predicate Numbered(w: World) {
    && Ascending(w.arrived)
    && (forall id :: id in w.arrived ==> id < w.next)
    && (forall id :: id in w.gone ==> id < w.next)
  }

  /** Every held slot belongs to one admitted, unfinished request, and waiting means the slots are
      all taken. A limit of 0 or less admits nobody. */
  ghost predicate SlotsFit(w: World, max: int) {
    && w.q.active == |w.open| && (forall id :: id in w.open ==> id in w.admitted)
    && 0 <= w.q.active <= Max(0, max)
    && (w.q.waiting != [] ==> w.q.active == Max(0, max))
  }

  ghost predicate Conserved(w: World) {
    |w.arrived| == |w.admitted| + |w.q.waiting| + w.q.rejected && w.q.rejected == |w.gone|
  }

  ghost predicate Invariant(w: World, max: int) { InOrder(w) && Numbered(w) && SlotsFit(w, max) && Conserved(w) }

  // ---------------------------------------------------------------- survivors

  lemma {:induction false} SurvivorsAscend(arrived: seq<Id>, gone: set<Id>)
    requires Ascending(arrived)
    ensures Ascending(Survivors(arrived, gone))
    ensures forall id :: id in Survivors(arrived, gone) <==> id in arrived && id !in gone
  {
    if arrived != [] {
      var a, x := arrived[..|arrived| - 1], arrived[|arrived| - 1];
      assert arrived == a + [x];
      SurvivorsAscend(a, gone);
      var before := Survivors(a, gone);
      hide Survivors;
      assert forall i :: 0 <= i < |before| ==> before[i] in before;
      assert x !in gone ==> Survivors(arrived, gone) == before + [x];
      assert x in gone ==> Survivors(arrived, gone) == before;
    }
  }

  lemma {:induction false} RemoveSnoc(s: seq<Id>, x: Id, id: Id)
    ensures Remove(s + [x], id) == if id in s then Remove(s, id) + [x] else if x == id then s else s + [x]
  {
    if s != [] {
      var t := s[1..];
      assert s + [x] == [s[0]] + (t + [x]) && s == [s[0]] + t;
      RemoveSnoc(t, x, id);
    }
  }

  lemma RemoveAbsent(s: seq<Id>, id: Id)
    requires id !in s
    ensures Remove(s, id) == s
  {
    RemoveAt(s, id, |s|);
  }

  lemma {:induction false} RemoveFromTail(a: seq<Id>, b: seq<Id>, id: Id)
    requires id !in a
    ensures Remove(a + b, id) == a + Remove(b, id)
  {
    if a != [] {
      assert (a + b)[1..] == a[1..] + b;
      RemoveFromTail(a[1..], b, id);
    } else {
      assert a + b == b;
    }
  }

  /** Giving up takes one request out of the survivors and changes nothing else. */
  lemma {:induction false} SurvivorsGiveUp(arrived: seq<Id>, gone: set<Id>, id: Id)
    requires Ascending(arrived)
    ensures Survivors(arrived, gone + {id}) == Remove(Survivors(arrived, gone), id)
  {
    if arrived != [] {
      var a, x := arrived[..|arrived| - 1], arrived[|arrived| - 1];
      assert arrived == a + [x];
      SurvivorsGiveUp(a, gone, id);
      SurvivorsAscend(a, gone);
      RemoveSnoc(Survivors(a, gone), x, id);
      if id !in Survivors(a, gone) { RemoveAbsent(Survivors(a, gone), id); }
    }
  }

  // ---------------------------------------------------------------- steps

  lemma TimeoutKeepsOrder(w: World, max: int, id: Id)
    requires InOrder(w) && Numbered(w) && id in w.q.waiting
    ensures InOrder(Step(w, max, Timeout(id)))
    ensures id !in w.gone && id in w.arrived && id !in w.admitted
  {
    hide Survivors;
    SurvivorsGiveUp(w.arrived, w.gone, id);
    SurvivorsAscend(w.arrived, w.gone);
    WaiterNotAdmitted(w, id);
    RemoveFromTail(w.admitted, w.q.waiting, id);
  }

  lemma WaiterNotAdmitted(w: World, id: Id)
    requires InOrder(w) && Numbered(w) && id in w.q.waiting
    ensures id !in w.admitted && id in w.arrived && id !in w.gone
  {
    SurvivorsAscend(w.arrived, w.gone);
    hide Survivors;
    var all := w.admitted + w.q.waiting;
    var j :| 0 <= j < |w.q.waiting| && w.q.waiting[j] == id;
    assert all[|w.admitted| + j] == id;
    forall i | 0 <= i < |w.admitted|
      ensures w.admitted[i] != id
    {
      assert all[i] == w.admitted[i];
    }
  }

  lemma StepKeepsOrder(w: World, max: int, e: Event)
    requires Invariant(w, max) && Enabled(w, e)
    ensures InOrder(Step(w, max, e))
  {
    hide Conserved;
    match e
    case Timeout(id) => TimeoutKeepsOrder(w, max, id);
    case Arrive(bypass) =>
      if !bypass {
        assert w.next !in w.gone;
        assert (w.arrived + [w.next])[..|w.arrived|] == w.arrived;
      }
    case Finish(id) =>
      if id in w.open && Wakes(w.q, max) {
        hide Survivors;
        assert w.q.waiting == [w.q.waiting[0]] + w.q.waiting[1..];
      }
  }

  lemma StepKeepsNumbers(w: World, max: int, e: Event)
    requires InOrder(w) && Numbered(w) && Enabled(w, e)
    ensures Numbered(Step(w, max, e))
  {
    hide Survivors, InOrder;
    assert forall i :: 0 <= i < |w.arrived| ==> w.arrived[i] in w.arrived;
    if e.Timeout? { WaiterNotAdmitted(w, e.id); }
  }

  lemma StepKeepsSlots(w: World, max: int, e: Event)
    requires Invariant(w, max) && Enabled(w, e)
    ensures SlotsFit(Step(w, max, e), max)
  {
    hide InOrder, Survivors, Numbered, Conserved;
    if e == Arrive(false) && w.q.active < max {
      NextIsNew(w);
    } else if e.Finish? && e.id in w.open {
      assert |w.open - {e.id}| == |w.open| - 1;
      if Wakes(w.q, max) { WaiterNotAdmitted(w, w.q.waiting[0]); }
    }
  }

  lemma NextIsNew(w: World)
    requires InOrder(w) && Numbered(w)
    ensures w.next !in w.admitted
  {
    SurvivorsAscend(w.arrived, w.gone);
    hide Survivors;
    assert forall id :: id in w.admitted ==> id in w.admitted + w.q.waiting;
  }

  lemma StepConserves(w: World, max: int, e: Event)
    requires Invariant(w, max) && Enabled(w, e)
    ensures Conserved(Step(w, max, e))
  {
    hide InOrder, Numbered;
    if e.Timeout? { WaiterNotAdmitted(w, e.id); }
  }

  lemma StepKeepsInvariant(w: World, max: int, e: Event)
    requires Invariant(w, max) && Enabled(w, e)
    ensures Invariant(Step(w, max, e), max)
  {
    hide Step, InOrder, Numbered, SlotsFit, Conserved;
    StepKeepsOrder(w, max, e);
    StepKeepsNumbers(w, max, e);
    StepKeepsSlots(w, max, e);
    StepConserves(w, max, e);
  }

  lemma {:induction false} RunKeepsInvariant(w: World, max: int, es: seq<Event>)
    requires Invariant(w, max) && IsRun(w, max, es)
    ensures Invariant(Run(w, max, es), max)
    decreases |es|
  {
    hide Step, Invariant, Enabled;
    if es != [] {
      StepKeepsInvariant(w, max, es[0]);
      RunKeepsInvariant(Step(w, max, es[0]), max, es[1..]);
    }
  }

  // ---------------------------------------------------------------- what every run guarantees

  /** From an empty queue, after any arrivals, responses and timeouts: the slots in use never exceed
      the limit, nobody waits while one is free, nothing is lost, and service is first come, first
      served among those that did not give up. */
  lemma QueueGuarantees(max: int, es: seq<Event>)
    requires IsRun(Start(), max, es)
    ensures var w := Run(Start(), max, es);
      && 0 <= w.q.active <= Max(0, max)
      && (w.q.waiting != [] ==> w.q.active == Max(0, max))
      && |w.arrived| == |w.admitted| + |w.q.waiting| + w.q.rejected
      && Survivors(w.arrived, w.gone) == w.admitted + w.q.waiting
      && Ascending(w.arrived)
  {
    hide Step;
    RunKeepsInvariant(Start(), max, es);
  }

  /** Nobody is overtaken: whoever arrived before an admitted request and did not give up was
      admitted too, and earlier. */
  lemma NoOvertaking(w: World, max: int, a: Id, j: nat)
    requires Invariant(w, max) && j < |w.admitted| && a in w.arrived && a !in w.gone && a < w.admitted[j]
    ensures exists i :: 0 <= i < j && w.admitted[i] == a
  {
    SurvivorsAscend(w.arrived, w.gone);
    hide Survivors;
    var all := w.admitted + w.q.waiting;
    assert a in all && all[j] == w.admitted[j];
    var i :| 0 <= i < |all| && all[i] == a;
    assert i < j;
    assert w.admitted[i] == a;
  }

  // ---------------------------------------------------------------- progress

  predicate IsRelease(w: World, e: Event) { e.Finish? && e.id in w.open }

  /** Slots freed along a run. */
  ghost function Releases(w: World, max: int, es: seq<Event>): nat
    decreases |es|
  {
    if es == [] then 0
    else (if IsRelease(w, es[0]) then 1 else 0) + Releases(Step(w, max, es[0]), max, es[1..])
  }

  /** `id` is queued with at most `k` requests before it, or is not queued and cannot be again. */
  ghost predicate Within(w: World, id: Id, k: int) {
    id < w.next && forall i :: 0 <= i < |w.q.waiting| && w.q.waiting[i] == id ==> i <= k
  }

  lemma {:induction false} RemovedIndex(s: seq<Id>, gone: Id, i: nat)
    requires i < |Remove(s, gone)|
    ensures Remove(s, gone)[i] == s[i] || (i + 1 < |s| && Remove(s, gone)[i] == s[i + 1])
  {
    if s[0] != gone && i > 0 { RemovedIndex(s[1..], gone, i - 1); }
  }

  lemma {:induction false} RemovedMovesUp(s: seq<Id>, gone: Id, id: Id, k: int)
    requires forall i :: 0 <= i < |s| && s[i] == id ==> i <= k
    ensures forall i :: 0 <= i < |Remove(s, gone)| && Remove(s, gone)[i] == id ==> i <= k
  {
    forall i | 0 <= i < |Remove(s, gone)| && Remove(s, gone)[i] == id
      ensures i <= k
    {
      RemovedIndex(s, gone, i);
    }
  }

  /** A release moves every waiter one place up; nothing moves one back. */
  lemma StepMovesUp(w: World, max: int, e: Event, id: Id, k: int)
    requires Invariant(w, max) && Enabled(w, e) && Within(w, id, k)
    ensures Within(Step(w, max, e), id, if IsRelease(w, e) then k - 1 else k)
  {
    hide InOrder, Numbered, Conserved;
    if e.Timeout? { RemovedMovesUp(w.q.waiting, e.id, id, k); }
    if IsRelease(w, e) {
      assert |w.open| > 0 by { assert e.id in w.open; }
      assert w.q.waiting != [] ==> Wakes(w.q, max);
    }
  }

  lemma {:induction false} RunMovesUp(w: World, max: int, es: seq<Event>, id: Id, k: int)
    requires Invariant(w, max) && IsRun(w, max, es) && Within(w, id, k)
    ensures Within(Run(w, max, es), id, k - Releases(w, max, es))
    decreases |es|
  {
    hide Step, Invariant, Enabled, Within, IsRelease;
    if es != [] {
      StepKeepsInvariant(w, max, es[0]);
      StepMovesUp(w, max, es[0], id, k);
      RunMovesUp(Step(w, max, es[0]), max, es[1..], id, if IsRelease(w, es[0]) then k - 1 else k);
    }
  }

  /** A waiter with `k` requests before it stops waiting by the time `k + 1` slots have been freed,
      whatever else arrives, finishes or times out meanwhile. */
  lemma WaiterLeaves(w: World, max: int, es: seq<Event>, k: nat)
    requires Invariant(w, max) && IsRun(w, max, es) && k < |w.q.waiting| && Releases(w, max, es) > k
    ensures w.q.waiting[k] !in Run(w, max, es).q.waiting
  {
    hide Step, Enabled, Survivors, SlotsFit, Conserved;
    var id := w.q.waiting[k];
    assert Within(w, id, k) by {
      SurvivorsAscend(w.arrived, w.gone);
      WaiterNotAdmitted(w, id);
      var all := w.admitted + w.q.waiting;
      assert forall i :: 0 <= i < |w.q.waiting| ==> all[|w.admitted| + i] == w.q.waiting[i];
    }
    RunMovesUp(w, max, es, id, k);
  }
}
