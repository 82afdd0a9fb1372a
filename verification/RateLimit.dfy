/** The in-memory fallback limiter of src/utils/rate-limit.service.ts: fixed windows per user, opened
    by the first call after the last window ended, and a cleanup that runs in the background. */
module RateLimit {
  import opened Basics

  datatype Window = Window(count: nat, expiresAt: int)

  datatype Reply = Reply(allowed: bool, remaining: int, resetAt: int)

  type Store = map<string, Window>

  // ---------------------------------------------------------------- the limiter

  function Get(store: Store, uid: string): Option<Window> { if uid in store then Some(store[uid]) else None }

  /** The window a call at `now` falls in, with that call counted. */
  function Next(w: Option<Window>, now: int, windowMs: int): Window {
    if w.None? || w.value.expiresAt <= now then Window(1, now + windowMs)
    else w.value.(count := w.value.count + 1)
  }

  function Answer(w: Window, limit: int): Reply { Reply(w.count <= limit, Max(0, limit - w.count), w.expiresAt) }

  function Cleaned(store: Store, now: int): Store {
    map uid | uid in store && store[uid].expiresAt > now :: store[uid]
  }

  class Limiter {
    var store: Store
    const limit: int
    const windowMs: int

    /** `FALLBACK_RATE_LIMIT_MAX`: never 0, half of an even configured limit and just under half of an
        odd one. */
    constructor (callRateLimitMax: int, windowSeconds: int)
      ensures store == map[] && windowMs == windowSeconds * 1000
      ensures limit >= 1 && (callRateLimitMax < 2 ==> limit == 1)
      ensures callRateLimitMax >= 2 ==> 2 * limit <= callRateLimitMax < 2 * limit + 2
    {
      store := map[];
      limit := Max(1, callRateLimitMax / 2);
      windowMs := windowSeconds * 1000;
    }

    /** `checkInMemoryRateLimit` */
    method Check(uid: string, now: int) returns (r: Reply)
      requires limit >= 1
      modifies this`store
      ensures store == old(store)[uid := Next(Get(old(store), uid), now, windowMs)]
      ensures r == Answer(Next(Get(old(store), uid), now, windowMs), limit)
    {
      if uid !in store || store[uid].expiresAt <= now {
        var expiresAt := now + windowMs;
        store := store[uid := Window(1, expiresAt)];
        return Reply(true, limit - 1, expiresAt);
      }
      var count := store[uid].count + 1;
      store := store[uid := store[uid].(count := count)];
      return Reply(count <= limit, Max(0, limit - count), store[uid].expiresAt);
    }

    /** `cleanupInMemoryStore` */
    method Cleanup(now: int) returns (cleaned: nat)
      modifies this`store
      ensures store == Cleaned(old(store), now)
      ensures cleaned == |old(store)| - |store|
    {
      cleaned := 0;
      var left := store.Keys;
      while left != {}
        invariant left <= store.Keys <= old(store).Keys
        invariant forall k :: k in store ==> store[k] == old(store)[k]
        invariant forall k :: k in old(store) && k !in left ==> (k in store <==> old(store)[k].expiresAt > now)
        invariant cleaned == |old(store)| - |store|
        decreases |left|
      {
        var key :| key in left;
        if store[key].expiresAt <= now {
          RemoveOne(store, key);
          store := store - {key};
          cleaned := cleaned + 1;
        }
        left := left - {key};
      }
    }
  }

  lemma RemoveOne(store: Store, key: string)
    requires key in store
    ensures |store - {key}| == |store| - 1
  {
    assert (store - {key}).Keys == store.Keys - {key};
  }

  // ---------------------------------------------------------------- runs

  datatype Event = Call(uid: string, time: int) | CleanUp(time: int)

  function Step(store: Store, e: Event, windowMs: int): Store {
    match e
    case Call(uid, t) => store[uid := Next(Get(store, uid), t, windowMs)]
    case CleanUp(t) => Cleaned(store, t)
  }

  /** The clock does not go back. */
  ghost predicate InTime(es: seq<Event>, now: int)
    decreases |es|
  {
    es == [] || (now <= es[0].time && InTime(es[1..], es[0].time))
  }

  /** When user `uid` calls. */
  function TimesOf(es: seq<Event>, uid: string): seq<int>
    decreases |es|
  {
    if es == [] then [] else
    (if es[0].Call? && es[0].uid == uid then [es[0].time] else []) + TimesOf(es[1..], uid)
  }

  /** What user `uid` is told in a run of everybody's calls and the cleanups between them. */
  function RepliesTo(store: Store, es: seq<Event>, uid: string, limit: int, windowMs: int): seq<Reply>
    decreases |es|
  {
    if es == [] then [] else
    (if es[0].Call? && es[0].uid == uid then [Answer(Next(Get(store, uid), es[0].time, windowMs), limit)] else [])
    + RepliesTo(Step(store, es[0], windowMs), es[1..], uid, limit, windowMs)
  }

  /** What one user alone would be told, without any cleanup. */
  function Alone(w: Option<Window>, times: seq<int>, limit: int, windowMs: int): (rs: seq<Reply>)
    ensures |rs| == |times|
    decreases |times|
  {
    if times == [] then [] else
    var next := Next(w, times[0], windowMs);
    [Answer(next, limit)] + Alone(Some(next), times[1..], limit, windowMs)
  }

  lemma {:induction false} TimesStart(es: seq<Event>, uid: string, now: int)
    requires InTime(es, now)
    ensures TimesOf(es, uid) != [] ==> now <= TimesOf(es, uid)[0]
    ensures Ordered(TimesOf(es, uid), now)
    decreases |es|
  {
    if es != [] {
      TimesStart(es[1..], uid, es[0].time);
      var rest := TimesOf(es[1..], uid);
      if es[0].Call? && es[0].uid == uid {
        assert TimesOf(es, uid) == [es[0].time] + rest;
      } else {
        assert TimesOf(es, uid) == rest;
        OrderedFrom(rest, es[0].time, now);
      }
    }
  }

  ghost predicate Ordered(times: seq<int>, now: int)
    decreases |times|
  {
    times == [] || (now <= times[0] && Ordered(times[1..], times[0]))
  }

  lemma OrderedFrom(times: seq<int>, now: int, earlier: int)
    requires Ordered(times, now) && earlier <= now
    ensures Ordered(times, earlier)
  {
  }

  /** A window that has ended is as good as none. */
  lemma EndedIsNone(w: Option<Window>, now: int, times: seq<int>, limit: int, windowMs: int)
    requires w.Some? && w.value.expiresAt <= now && (times != [] ==> now <= times[0])
    ensures Alone(w, times, limit, windowMs) == Alone(None, times, limit, windowMs)
  {
  }

  /** Neither other users nor cleanups, inserted anywhere, change any reply. */
  lemma {:induction false} CleanupsAreInvisible(store: Store, es: seq<Event>, now: int, uid: string, limit: int,
                                                windowMs: int)
    requires InTime(es, now)
    ensures RepliesTo(store, es, uid, limit, windowMs)
         == Alone(Get(store, uid), TimesOf(es, uid), limit, windowMs)
    decreases |es|
  {
    hide Answer, Next;
    if es != [] {
      var after, rest := Step(store, es[0], windowMs), TimesOf(es[1..], uid);
      CleanupsAreInvisible(after, es[1..], es[0].time, uid, limit, windowMs);
      if es[0].Call? && es[0].uid == uid {
        assert TimesOf(es, uid) == [es[0].time] + rest;
      } else {
        assert TimesOf(es, uid) == rest;
        TimesStart(es[1..], uid, es[0].time);
        if es[0].CleanUp? && uid in store && store[uid].expiresAt <= es[0].time {
          EndedIsNone(Get(store, uid), es[0].time, rest, limit, windowMs);
        }
      }
    }
  }

  // ---------------------------------------------------------------- counting

  /** Calls allowed at times `a <= t < b`. */
  function AllowedWithin(times: seq<int>, rs: seq<Reply>, a: int, b: int): nat
    requires |times| == |rs|
    decreases |times|
  {
    if times == [] then 0 else
    (if rs[0].allowed && a <= times[0] < b then 1 else 0) + AllowedWithin(times[1..], rs[1..], a, b)
  }

  /** Calls allowed in the window that ends at `x`. */
  function AllowedUntil(rs: seq<Reply>, x: int): nat {
    if rs == [] then 0 else (if rs[0].allowed && rs[0].resetAt == x then 1 else 0) + AllowedUntil(rs[1..], x)
  }

  /** Number of calls allowed to one user alone in `[a, b)`. */
  ghost function Hits(w: Option<Window>, times: seq<int>, limit: int, windowMs: int, a: int, b: int): nat {
    AllowedWithin(times, Alone(w, times, limit, windowMs), a, b)
  }

  lemma HitsStep(w: Option<Window>, times: seq<int>, limit: int, windowMs: int, a: int, b: int)
    requires times != []
    ensures var next := Next(w, times[0], windowMs);
      Hits(w, times, limit, windowMs, a, b)
      == (if next.count <= limit && a <= times[0] < b then 1 else 0)
         + Hits(Some(next), times[1..], limit, windowMs, a, b)
  {
    var next := Next(w, times[0], windowMs);
    hide Next;
    var rest := Alone(Some(next), times[1..], limit, windowMs);
    assert Alone(w, times, limit, windowMs)[1..] == rest;
  }

  lemma {:induction false} NoneAfter(w: Option<Window>, times: seq<int>, limit: int, windowMs: int, a: int, b: int,
                                     now: int)
    requires Ordered(times, now) && b <= now
    ensures Hits(w, times, limit, windowMs, a, b) == 0
    decreases |times|
  {
    hide Next, Hits;
    if times != [] {
      HitsStep(w, times, limit, windowMs, a, b);
      NoneAfter(Some(Next(w, times[0], windowMs)), times[1..], limit, windowMs, a, b, times[0]);
    } else {
      assert Hits(w, times, limit, windowMs, a, b) == 0 by { HitsNone(w, limit, windowMs, a, b); }
    }
  }

  lemma HitsNone(w: Option<Window>, limit: int, windowMs: int, a: int, b: int)
    ensures Hits(w, [], limit, windowMs, a, b) == 0
  {
  }

  /** Within a window that has counted `count` calls, at most `limit - count` more are allowed. */
  lemma {:induction false} WithinWindow(w: Window, times: seq<int>, limit: int, windowMs: int, a: int, b: int, now: int)
    requires Ordered(times, now) && b <= w.expiresAt
    ensures Hits(Some(w), times, limit, windowMs, a, b) <= Max(0, limit - w.count)
    decreases |times|
  {
    hide Hits;
    if times == [] {
      HitsNone(Some(w), limit, windowMs, a, b);
    } else {
      HitsStep(Some(w), times, limit, windowMs, a, b);
      var next := Next(Some(w), times[0], windowMs);
      if w.expiresAt <= times[0] {
        NoneAfter(Some(next), times[1..], limit, windowMs, a, b, times[0]);
      } else {
        WithinWindow(next, times[1..], limit, windowMs, a, b, times[0]);
      }
    }
  }

  /** Up to one window length after the current window ends, one more window fits. */
  lemma {:induction false} WithinTwo(w: Window, times: seq<int>, limit: int, windowMs: int, a: int, b: int, now: int)
    requires Ordered(times, now) && b <= w.expiresAt + windowMs && limit >= 1
    ensures Hits(Some(w), times, limit, windowMs, a, b) <= Max(0, limit - w.count) + limit
    decreases |times|
  {
    hide Hits;
    if times == [] {
      HitsNone(Some(w), limit, windowMs, a, b);
    } else {
      HitsStep(Some(w), times, limit, windowMs, a, b);
      var next := Next(Some(w), times[0], windowMs);
      if w.expiresAt <= times[0] {
        WithinWindow(next, times[1..], limit, windowMs, a, b, times[0]);
      } else {
        WithinTwo(next, times[1..], limit, windowMs, a, b, times[0]);
      }
    }
  }

  lemma {:induction false} AnyInterval(w: Option<Window>, times: seq<int>, limit: int, windowMs: int, a: int, now: int)
    requires Ordered(times, now) && limit >= 1 && (w.Some? ==> w.value.count >= 1)
    ensures Hits(w, times, limit, windowMs, a, a + windowMs) <= 2 * limit - 1
    decreases |times|
  {
    hide Hits;
    if times == [] {
      HitsNone(w, limit, windowMs, a, a + windowMs);
    } else {
      HitsStep(w, times, limit, windowMs, a, a + windowMs);
      var next := Next(w, times[0], windowMs);
      if times[0] < a {
        AnyInterval(Some(next), times[1..], limit, windowMs, a, times[0]);
      } else if w.None? || w.value.expiresAt <= times[0] {
        WithinWindow(next, times[1..], limit, windowMs, a, a + windowMs, times[0]);
      } else {
        WithinTwo(w.value, times, limit, windowMs, a, a + windowMs, now);
      }
    }
  }

  /** In every run, any half-open interval of one window length holds fewer than twice the limit of
      allowed calls of one user. */
  lemma FewerThanTwiceTheLimit(es: seq<Event>, now: int, uid: string, limit: int, windowMs: int, a: int)
    requires InTime(es, now) && limit >= 1
    ensures |TimesOf(es, uid)| == |RepliesTo(map[], es, uid, limit, windowMs)|
    ensures AllowedWithin(TimesOf(es, uid), RepliesTo(map[], es, uid, limit, windowMs), a, a + windowMs)
         <= 2 * limit - 1
  {
    CleanupsAreInvisible(map[], es, now, uid, limit, windowMs);
    TimesStart(es, uid, now);
    AnyInterval(None, TimesOf(es, uid), limit, windowMs, a, now);
  }

  // ---------------------------------------------------------------- one window

  /** No window that is still to be used ends at `x`. */
  lemma {:induction false} NoWindowEndsAt(w: Option<Window>, times: seq<int>, limit: int, windowMs: int, x: int,
                                          now: int)
    requires Ordered(times, now) && now + windowMs > x
    requires w.None? || w.value.expiresAt <= now || w.value.expiresAt > x
    ensures AllowedUntil(Alone(w, times, limit, windowMs), x) == 0
    decreases |times|
  {
    if times != [] {
      var next := Next(w, times[0], windowMs);
      assert Alone(w, times, limit, windowMs)[1..] == Alone(Some(next), times[1..], limit, windowMs);
      NoWindowEndsAt(Some(next), times[1..], limit, windowMs, x, times[0]);
    }
  }

  lemma {:induction false} RestOfWindow(w: Window, times: seq<int>, limit: int, windowMs: int, now: int)
    requires Ordered(times, now) && windowMs > 0
    ensures AllowedUntil(Alone(Some(w), times, limit, windowMs), w.expiresAt) <= Max(0, limit - w.count)
    decreases |times|
  {
    if times != [] {
      var next := Next(Some(w), times[0], windowMs);
      assert Alone(Some(w), times, limit, windowMs)[1..] == Alone(Some(next), times[1..], limit, windowMs);
      if w.expiresAt <= times[0] {
        NoWindowEndsAt(Some(next), times[1..], limit, windowMs, w.expiresAt, times[0]);
      } else {
        RestOfWindow(next, times[1..], limit, windowMs, times[0]);
      }
    }
  }

  lemma {:induction false} WindowFromStart(w: Option<Window>, times: seq<int>, limit: int, windowMs: int, x: int,
                                           now: int)
    requires Ordered(times, now) && windowMs > 0 && limit >= 1
    ensures AllowedUntil(Alone(w, times, limit, windowMs), x) <= limit
    decreases |times|
  {
    if times != [] {
      var next := Next(w, times[0], windowMs);
      assert Alone(w, times, limit, windowMs)[1..] == Alone(Some(next), times[1..], limit, windowMs);
      if next.expiresAt == x {
        RestOfWindow(next, times[1..], limit, windowMs, times[0]);
      } else {
        WindowFromStart(Some(next), times[1..], limit, windowMs, x, times[0]);
      }
    }
  }

  /** In every run, each window of a user allows at most `limit` calls; a window is told by its end,
      which every reply reports. */
  lemma WindowLimit(es: seq<Event>, now: int, uid: string, limit: int, windowMs: int, x: int)
    requires InTime(es, now) && limit >= 1 && windowMs > 0
    ensures AllowedUntil(RepliesTo(map[], es, uid, limit, windowMs), x) <= limit
  {
    CleanupsAreInvisible(map[], es, now, uid, limit, windowMs);
    TimesStart(es, uid, now);
    WindowFromStart(None, TimesOf(es, uid), limit, windowMs, x, now);
  }

  /** A configured window of 0 or less ends as it opens: any number of calls is allowed in it, so
      `WindowLimit` holds exactly for positive windows. */
  lemma {:induction false} NoLimitWithoutWindow(w: Option<Window>, t: int, n: nat, limit: int, windowMs: int)
    requires windowMs <= 0 && limit >= 1 && (w.None? || w.value.expiresAt <= t)
    ensures AllowedUntil(Alone(w, Repeated(t, n), limit, windowMs), t + windowMs) == n
    decreases n
  {
    if n > 0 {
      var times, next := Repeated(t, n), Next(w, t, windowMs);
      assert times[1..] == Repeated(t, n - 1);
      assert Alone(w, times, limit, windowMs)[1..] == Alone(Some(next), times[1..], limit, windowMs);
      NoLimitWithoutWindow(Some(next), t, n - 1, limit, windowMs);
    }
  }

  // ---------------------------------------------------------------- the bound is exact

  function Repeated(t: int, n: nat): (ts: seq<int>)
    ensures |ts| == n
  {
    if n == 0 then [] else [t] + Repeated(t, n - 1)
  }

  /** `n` calls at one time within a window that has room for them. */
  lemma {:induction false} BurstAllowed(w: Window, t: int, n: nat, rest: seq<int>, limit: int, windowMs: int, a: int,
                                        b: int)
    requires t < w.expiresAt && w.count + n <= limit && a <= t < b
    ensures Hits(Some(w), Repeated(t, n) + rest, limit, windowMs, a, b)
         == n + Hits(Some(w.(count := w.count + n)), rest, limit, windowMs, a, b)
    decreases n
  {
    hide Hits;
    var times := Repeated(t, n) + rest;
    if n == 0 {
      assert times == rest;
    } else {
      HitsStep(Some(w), times, limit, windowMs, a, b);
      assert times[1..] == Repeated(t, n - 1) + rest;
      BurstAllowed(w.(count := w.count + 1), t, n - 1, rest, limit, windowMs, a, b);
    }
  }

  /** One call at 0, `limit - 1` at the end of its window, `limit` at the start of the next. */
  function Straddling(limit: nat, windowMs: int): seq<int>
    requires limit >= 1
  {
    [0] + (Repeated(windowMs - 1, limit - 1) + ([windowMs] + (Repeated(windowMs, limit - 1) + [])))
  }

  /** For every limit and every window of at least 2 ms, `2 * limit - 1` is reached. */
  lemma BoundIsReached(limit: nat, windowMs: int)
    requires limit >= 1 && windowMs >= 2
    ensures Hits(None, Straddling(limit, windowMs), limit, windowMs, 1, 1 + windowMs) == 2 * limit - 1
  {
    hide Hits;
    var all, a, b := Straddling(limit, windowMs), 1, 1 + windowMs;
    var second := [windowMs] + (Repeated(windowMs, limit - 1) + []);
    HitsStep(None, all, limit, windowMs, a, b);
    assert all[1..] == Repeated(windowMs - 1, limit - 1) + second;
    BurstAllowed(Window(1, windowMs), windowMs - 1, limit - 1, second, limit, windowMs, a, b);
    var full := Window(1, windowMs).(count := limit);
    HitsStep(Some(full), second, limit, windowMs, a, b);
    assert second[1..] == Repeated(windowMs, limit - 1) + [];
    BurstAllowed(Window(1, 2 * windowMs), windowMs, limit - 1, [], limit, windowMs, a, b);
    HitsNone(Some(Window(1, 2 * windowMs).(count := limit)), limit, windowMs, a, b);
  }

  // ---------------------------------------------------------------- the other fields of a reply

  /** `remaining` is what is left: of the next calls before the window ends, exactly that many are allowed, and
      the reply's `resetAt` is that end. */
  lemma {:induction false} RemainingIsExact(w: Window, times: seq<int>, limit: int, windowMs: int, now: int)
    requires Ordered(times, now) && forall i :: 0 <= i < |times| ==> times[i] < w.expiresAt
    ensures var left := Answer(w, limit).remaining;
      && left >= 0 && Answer(w, limit).resetAt == w.expiresAt
      && AllowedUntil(Alone(Some(w), times, limit, windowMs), w.expiresAt) == if |times| < left then |times| else left
    decreases |times|
  {
    if times != [] {
      var next := Next(Some(w), times[0], windowMs);
      assert Alone(Some(w), times, limit, windowMs)[1..] == Alone(Some(next), times[1..], limit, windowMs);
      RemainingIsExact(next, times[1..], limit, windowMs, times[0]);
    }
  }

  /** A window begins with the first call after the last window ended and is `windowMs` long. */
  lemma WindowOfCall(w: Option<Window>, now: int, limit: int, windowMs: int)
    requires limit >= 1
    ensures var next := Next(w, now, windowMs);
      if w.Some? && now < w.value.expiresAt then next.expiresAt == w.value.expiresAt
      else next.expiresAt == now + windowMs && Answer(next, limit) == Reply(true, limit - 1, now + windowMs)
  {
  }
}
