/** The cache around the scan (`dashboardRazorpayCollectedAmount` in
    src/modules/admin/admin-razorpay-collected.service.ts): requests in one process share the work
    for a cache key, and Redis is shared with other processes, may lose entries and may fail. */
module CollectedCache {
  import opened Basics
  import opened CollectedScan
  import opened CollectedSnapshot
  import I = IsoText

  const CURRENT_BUCKET_MS: int := 30_000

  /** What identifies a request for a fixed provider mode: its cache key before hashing. */
  datatype Params = Params(from: int, requestedTo: int, effectiveTo: int)

  /** Redis keys: one per cache identity, and one for the latest value of a requested range. */
  datatype Key = Full(p: Params) | Latest(from: int, requestedTo: int)

  /** The stored value with the range it was requested for. */
  datatype Cached = Cached(from: int, requestedTo: int, amount: Amount)

  datatype Tag = Miss | Hit | Stale

  datatype Outcome = Answer(value: Cached, tag: Tag) | Failure

  datatype WorkPhase = Locking | Scanning | Waiting | Recovering | Finished(outcome: Outcome)

  datatype Work = Work(p: Params, phase: WorkPhase)

  datatype RequestPhase = Reading | Joined(work: nat) | Owns(work: nat) | Answered(outcome: Outcome)

  datatype Request = Request(p: Params, phase: RequestPhase)

  /** A completed scan, in this process or another: what was asked, the payments visited, the provider's
      list when the scan began, whether that list was served steadily (`CollectedSnapshot.Steady`), and the
      result. */
  datatype ScanRecord = ScanRecord(p: Params, visited: seq<Payment>, listed: seq<Payment>, steady: bool, amount: Amount)

  /** `scans` is the history of completed scans; no step reads it. */
  datatype World = World(redis: map<Key, Cached>, inProcess: map<Params, nat>, works: map<nat, Work>,
                         requests: map<nat, Request>, scans: set<ScanRecord>)

  // ---------------------------------------------------------------- the frozen end of a range

  /** `asOf`: the clock cut to a 30 s bucket while the range is still open, else its end. */
  function FrozenMs(now: int, requestedTo: int): int {
    if requestedTo > now then now / CURRENT_BUCKET_MS * CURRENT_BUCKET_MS else requestedTo
  }

  function ParamsAt(from: int, requestedTo: int, now: int): Params {
    Params(from, requestedTo, Min(requestedTo, FrozenMs(now, requestedTo)))
  }

  /** The key's end is the end that the scan itself computes, it is never in the future, and an
      open range lags the clock by less than a bucket. */
  lemma EffectiveEnd(from: int, requestedTo: int, now: int)
    ensures var p := ParamsAt(from, requestedTo, now);
      && EffectiveRange(Some(from), Some(requestedTo), FrozenMs(now, requestedTo)) == Range(Some(from), p.effectiveTo)
      && p.effectiveTo <= now && p.effectiveTo <= requestedTo
      && (p.effectiveTo == requestedTo || (now < requestedTo && now - p.effectiveTo < 30_000))
  {
  }

  /** While a range is open, requests of one 30 s bucket of the clock share a key; once it has ended all do. */
  lemma KeysShared(from: int, requestedTo: int, s: int, t: int)
    requires s <= t
    ensures requestedTo <= s ==> ParamsAt(from, requestedTo, s) == ParamsAt(from, requestedTo, t)
    ensures t < requestedTo ==>
      (ParamsAt(from, requestedTo, s) == ParamsAt(from, requestedTo, t) <==> s / 30_000 == t / 30_000)
  {
  }

  // ---------------------------------------------------------------- cache keys

  predicate Printable(p: Params) { I.InRange(p.from) && I.InRange(p.requestedTo) && I.InRange(p.effectiveTo) }

  function ModeName(test: bool): string { if test then "test" else "live" }

  /** The text that `cacheIdentity` hashes. */
  function Identity(test: bool, p: Params): string
    requires Printable(p)
  {
    ModeName(test) + "|all-currencies|" + I.ToIso(p.from) + "|" + I.ToIso(p.requestedTo) + "|" + I.ToIso(p.effectiveTo)
  }

  /** The text that is hashed for the key of the latest value. */
  function LatestIdentity(test: bool, p: Params): string
    requires Printable(p)
  {
    ModeName(test) + "|" + I.ToIso(p.from) + "|" + I.ToIso(p.requestedTo)
  }

  /** Cache identities tell modes and parameters apart to the millisecond, and identities of the
      latest value tell modes and requested ranges apart. */
  lemma IdentityInjective(test: bool, p: Params, test': bool, p': Params)
    requires Printable(p) && Printable(p')
    ensures Identity(test, p) == Identity(test', p') <==> test == test' && p == p'
    ensures LatestIdentity(test, p) == LatestIdentity(test', p')
      <==> test == test' && p.from == p'.from && p.requestedTo == p'.requestedTo
  {
    hide I.ToIso, I.InRange, I.FromIso;
    IdentityParts(test, p);
    IdentityParts(test', p');
  }

  lemma IdentityParts(test: bool, p: Params)
    requires Printable(p)
    ensures var s := Identity(test, p);
      |s| == 94 && s[..4] == ModeName(test) && I.FromIso(s[20..44]) == Some(p.from)
      && I.FromIso(s[45..69]) == Some(p.requestedTo) && I.FromIso(s[70..94]) == Some(p.effectiveTo)
    ensures var s := LatestIdentity(test, p);
      |s| == 54 && s[..4] == ModeName(test) && I.FromIso(s[5..29]) == Some(p.from)
      && I.FromIso(s[30..54]) == Some(p.requestedTo)
  {
    hide I.ToIso, I.InRange, I.FromIso;
    I.IsoRoundTrip(p.from);
    I.IsoRoundTrip(p.requestedTo);
    I.IsoRoundTrip(p.effectiveTo);
    FullParts(ModeName(test), I.ToIso(p.from), I.ToIso(p.requestedTo), I.ToIso(p.effectiveTo));
    LatestParts(ModeName(test), I.ToIso(p.from), I.ToIso(p.requestedTo));
  }

  lemma FullParts(mode: string, a: string, b: string, c: string)
    requires |mode| == 4 && |a| == |b| == |c| == 24
    ensures var s := mode + "|all-currencies|" + a + "|" + b + "|" + c;
      |s| == 94 && s[..4] == mode && s[20..44] == a && s[45..69] == b && s[70..94] == c
  {
  }

  lemma LatestParts(mode: string, a: string, b: string)
    requires |mode| == 4 && |a| == |b| == 24
    ensures var s := mode + "|" + a + "|" + b; |s| == 54 && s[..4] == mode && s[5..29] == a && s[30..54] == b
  {
  }

  // ---------------------------------------------------------------- steps

  datatype Event =
    | Arrive(req: nat, from: int, requestedTo: int, now: int)
    | ReadCache(req: nat, work: nat, lost: bool)
    | Lock(work: nat, acquired: bool)
    | LockFails(work: nat)
    | ScanSucceeds(work: nat, record: ScanRecord, stored: bool)
    | ScanFails(work: nat)
    | PollCache(work: nat, lost: bool)
    | StopPolling(work: nat)
    | ReadLatest(work: nat, lost: bool)
    | Deliver(req: nat)
    | Expire(key: Key)
    | OtherProcessStores(record: ScanRecord)

  /** The value holds the exact totals of what the scan visited, and of the provider's list at its start if
      that was served steadily, for the given range. */
  ghost predicate IsTrue(x: ScanRecord, r: Range) {
    IsExact(x.amount, x.visited, r) && (x.steady ==> IsTotalOf(x.amount, x.listed, r))
  }

  ghost predicate IsScan(x: ScanRecord) { IsTrue(x, Range(Some(x.p.from), x.p.effectiveTo)) }

  /** The scan of the work started at `now`: what succeeds is a scan on record, whatever the provider does. */
  method ScanFor(from: int, requestedTo: int, now: int, fetch: nat -> Fetched, clock: nat -> int, maxPages: int,
                 maxScanMs: int, ghost lists: nat -> seq<Payment>, ghost added: nat -> seq<Payment>)
    returns (result: Result<Amount>)
    ensures var steady := SteadyFor(from, requestedTo, now, fetch, lists, added);
      result.Ok? ==>
        exists visited :: IsScan(RecordOf(from, requestedTo, now, visited, lists(0), steady, result.value))
  {
    hide IsExact, IsTotalOf, Steady, Visited, PagesRead, FullPage, ShortPage, EffectiveRange;
    EffectiveEnd(from, requestedTo, now);
    result := Scan(Some(from), Some(requestedTo), FrozenMs(now, requestedTo), fetch, clock, maxPages, maxScanMs);
    if result.Ok? {
      ghost var n := PagesRead(fetch, clock, maxPages, maxScanMs, 0).value;
      ghost var steady := SteadyFor(from, requestedTo, now, fetch, lists, added);
      if steady {
        PagesReadFull(fetch, clock, maxPages, maxScanMs, 0);
        var r := Range(Some(from), ParamsAt(from, requestedTo, now).effectiveTo);
        SteadyIsTotal(fetch, lists, added, r, n, result.value);
      }
      assert IsScan(RecordOf(from, requestedTo, now, Visited(fetch, n), lists(0), steady, result.value));
    }
  }

  function RecordOf(from: int, requestedTo: int, now: int, visited: seq<Payment>, listed: seq<Payment>, steady: bool,
                    amount: Amount): ScanRecord {
    ScanRecord(ParamsAt(from, requestedTo, now), visited, listed, steady, amount)
  }

  ghost predicate SteadyFor(from: int, requestedTo: int, now: int, fetch: nat -> Fetched, lists: nat -> seq<Payment>,
                            added: nat -> seq<Payment>) {
    Steady(fetch, lists, added, Range(Some(from), ParamsAt(from, requestedTo, now).effectiveTo))
  }

  lemma SteadyIsTotal(fetch: nat -> Fetched, lists: nat -> seq<Payment>, added: nat -> seq<Payment>, r: Range, n: nat,
                      a: Amount)
    requires Steady(fetch, lists, added, r) && n > 0 && IsExact(a, Visited(fetch, n), r)
    requires (forall j :: 0 <= j < n - 1 ==> FullPage(fetch, j)) && ShortPage(fetch, n - 1)
    ensures IsTotalOf(a, lists(0), r)
  {
    hide IsExact, IsTotalOf, GrowsAtFront, ServesPages, Dated, Visited, FullPage, ShortPage;
    SnapshotSums(fetch, lists, added, r, n, a);
  }

  function ValueOf(x: ScanRecord): Cached { Cached(x.p.from, x.p.requestedTo, x.amount) }

  ghost predicate Enabled(w: World, e: Event) {
    match e
    case Arrive(req, _, _, _) => req !in w.requests
    case ReadCache(req, work, _) => req in w.requests && w.requests[req].phase.Reading? && work !in w.works
    case Lock(work, _) => work in w.works && w.works[work].phase.Locking?
    case LockFails(work) => work in w.works && w.works[work].phase.Locking?
    case ScanSucceeds(work, record, _) =>
      work in w.works && w.works[work].phase.Scanning? && w.works[work].p == record.p && IsScan(record)
    case ScanFails(work) => work in w.works && w.works[work].phase.Scanning?
    case PollCache(work, _) => work in w.works && w.works[work].phase.Waiting?
    case StopPolling(work) => work in w.works && w.works[work].phase.Waiting?
    case ReadLatest(work, _) => work in w.works && w.works[work].phase.Recovering?
    case Deliver(req) =>
      && req in w.requests && (w.requests[req].phase.Joined? || w.requests[req].phase.Owns?)
      && w.requests[req].phase.work in w.works && w.works[w.requests[req].phase.work].phase.Finished?
    case Expire(_) => true
    case OtherProcessStores(record) => IsScan(record)
  }

  function Recorded(w: World, x: ScanRecord): World { w.(scans := w.scans + {x}) }

  function SetWork(w: World, work: nat, phase: WorkPhase): World
    requires work in w.works
  {
    w.(works := w.works[work := w.works[work].(phase := phase)])
  }

  function SetRequest(w: World, req: nat, phase: RequestPhase): World
    requires req in w.requests
  {
    w.(requests := w.requests[req := w.requests[req].(phase := phase)])
  }

  /** `writeRedis`: both keys in one MULTI, or neither. */
  function Store(redis: map<Key, Cached>, x: ScanRecord): map<Key, Cached> {
    redis[Full(x.p) := ValueOf(x)][Latest(x.p.from, x.p.requestedTo) := ValueOf(x)]
  }

  function FinishScan(w: World, work: nat, x: ScanRecord, stored: bool): World
    requires work in w.works
  {
    SetWork(w.(redis := if stored then Store(w.redis, x) else w.redis), work, Finished(Answer(ValueOf(x), Miss)))
  }

  /** After a cache miss the lookup of `inProcess` and the start of new work are one synchronous turn. */
  function JoinOrStart(w: World, req: nat, work: nat): World
    requires req in w.requests
  {
    var p := w.requests[req].p;
    if p in w.inProcess then SetRequest(w, req, Joined(w.inProcess[p]))
    else
      var started := w.(inProcess := w.inProcess[p := work], works := w.works[work := Work(p, Locking)]);
      SetRequest(started, req, Owns(work))
  }

  function Step(w: World, e: Event): World
    requires Enabled(w, e)
  {
    match e
    case Arrive(req, from, requestedTo, now) =>
      w.(requests := w.requests[req := Request(ParamsAt(from, requestedTo, now), Reading)])
    case ReadCache(req, work, lost) =>
      var key := Full(w.requests[req].p);
      if key in w.redis && !lost then SetRequest(w, req, Answered(Answer(w.redis[key], Hit)))
      else JoinOrStart(w, req, work)
    case Lock(work, acquired) => SetWork(w, work, if acquired then Scanning else Waiting)
    case LockFails(work) => SetWork(w, work, Finished(Failure))
    case ScanSucceeds(work, record, stored) => FinishScan(Recorded(w, record), work, record, stored)
    case ScanFails(work) => SetWork(w, work, Recovering)
    case PollCache(work, lost) =>
      var key := Full(w.works[work].p);
      if key in w.redis && !lost then SetWork(w, work, Finished(Answer(w.redis[key], Hit))) else w
    case StopPolling(work) => SetWork(w, work, Recovering)
    case ReadLatest(work, lost) =>
      var key := Latest(w.works[work].p.from, w.works[work].p.requestedTo);
      SetWork(w, work, Finished(if key in w.redis && !lost then Answer(w.redis[key], Stale) else Failure))
    case Deliver(req) =>
      var r := w.requests[req];
      var done := SetRequest(w, req, Answered(w.works[r.phase.work].phase.outcome));
      if r.phase.Owns? then done.(inProcess := done.inProcess - {r.p}) else done
    case Expire(key) => w.(redis := w.redis - {key})
    case OtherProcessStores(record) => Recorded(w, record).(redis := Store(w.redis, record))
  }

  ghost predicate IsRun(w: World, es: seq<Event>)
    decreases |es|
  {
    es == [] || (Enabled(w, es[0]) && IsRun(Step(w, es[0]), es[1..]))
  }

  ghost function Run(w: World, es: seq<Event>): World
    requires IsRun(w, es)
    decreases |es|
  {
    if es == [] then w else Run(Step(w, es[0]), es[1..])
  }

  // ---------------------------------------------------------------- invariant

  /** Some completed scan of the same requested range produced the value; with `current`, for the very
      same end. */
  ghost predicate Serves(scans: set<ScanRecord>, v: Cached, from: int, requestedTo: int, current: Option<int>) {
    exists x :: x in scans && v == ValueOf(x) && x.p.from == from && x.p.requestedTo == requestedTo
                && (current.Some? ==> x.p.effectiveTo == current.value)
  }

  ghost predicate StoredRight(scans: set<ScanRecord>, key: Key, v: Cached) {
    match key
    case Full(p) => Serves(scans, v, p.from, p.requestedTo, Some(p.effectiveTo))
    case Latest(from, requestedTo) => Serves(scans, v, from, requestedTo, None)
  }

  /** An answer is the value of a completed scan of the same requested range, and unless it is marked
      stale its end is the one of the request. */
  ghost predicate RightFor(scans: set<ScanRecord>, o: Outcome, p: Params) {
    o.Answer? ==> Serves(scans, o.value, p.from, p.requestedTo, if o.tag == Stale then None else Some(p.effectiveTo))
  }

  ghost predicate RedisRight(w: World) { forall k :: k in w.redis ==> StoredRight(w.scans, k, w.redis[k]) }

  ghost predicate ScansRight(w: World) { forall x :: x in w.scans ==> IsScan(x) }

  ghost predicate WorksRight(w: World) {
    forall x :: x in w.works ==>
      if w.works[x].phase.Finished? then RightFor(w.scans, w.works[x].phase.outcome, w.works[x].p)
      else w.works[x].p in w.inProcess && w.inProcess[w.works[x].p] == x
  }

  ghost predicate RequestsRight(w: World) {
    forall r :: r in w.requests ==> RequestRight(w, w.requests[r])
  }

  ghost predicate RequestRight(w: World, q: Request) {
    match q.phase
    case Reading => true
    case Joined(x) => x in w.works && w.works[x].p == q.p
    case Owns(x) => x in w.works && w.works[x].p == q.p && q.p in w.inProcess && w.inProcess[q.p] == x
    case Answered(o) => RightFor(w.scans, o, q.p)
  }

  /** Every entry of `inProcess` has exactly one request that will remove it. */
  ghost predicate EntriesOwned(w: World) {
    && (forall p :: p in w.inProcess ==> exists r :: Owner(w, r, w.inProcess[p]))
    && (forall r, s, x :: Owner(w, r, x) && Owner(w, s, x) ==> r == s)
    && (forall p :: p in w.inProcess ==> w.inProcess[p] in w.works && w.works[w.inProcess[p]].p == p)
  }

  ghost predicate Owner(w: World, r: nat, x: nat) { r in w.requests && w.requests[r].phase == Owns(x) }

  ghost predicate Invariant(w: World) {
    ScansRight(w) && RedisRight(w) && WorksRight(w) && RequestsRight(w) && EntriesOwned(w)
  }

  // ---------------------------------------------------------------- a longer history changes nothing

  lemma ServesMore(scans: set<ScanRecord>, more: set<ScanRecord>, v: Cached, from: int, requestedTo: int,
                   current: Option<int>)
    requires scans <= more && Serves(scans, v, from, requestedTo, current)
    ensures Serves(more, v, from, requestedTo, current)
  {
  }

  lemma RightMore(scans: set<ScanRecord>, more: set<ScanRecord>, o: Outcome, p: Params)
    requires scans <= more && RightFor(scans, o, p)
    ensures RightFor(more, o, p)
  {
    hide Serves;
    if o.Answer? {
      ServesMore(scans, more, o.value, p.from, p.requestedTo, if o.tag == Stale then None else Some(p.effectiveTo));
    }
  }

  lemma RecordedKeeps(w: World, x: ScanRecord)
    requires Invariant(w) && IsScan(x)
    ensures Invariant(Recorded(w, x))
  {
    hide Serves, RightFor, IsScan;
    var after := Recorded(w, x);
    forall k | k in after.redis
      ensures StoredRight(after.scans, k, after.redis[k])
    {
      assert StoredRight(w.scans, k, w.redis[k]);
      match k
      case Full(p) => ServesMore(w.scans, after.scans, w.redis[k], p.from, p.requestedTo, Some(p.effectiveTo));
      case Latest(from, requestedTo) => ServesMore(w.scans, after.scans, w.redis[k], from, requestedTo, None);
    }
    RecordedWorks(w, x);
    RecordedRequests(w, x);
    RecordedEntries(w, x);
  }

  lemma RecordedWorks(w: World, x: ScanRecord)
    requires WorksRight(w)
    ensures WorksRight(Recorded(w, x))
  {
    hide Serves, RightFor;
    var after := Recorded(w, x);
    forall y | y in w.works && w.works[y].phase.Finished?
      ensures RightFor(after.scans, w.works[y].phase.outcome, w.works[y].p)
    {
      RightMore(w.scans, after.scans, w.works[y].phase.outcome, w.works[y].p);
    }
  }

  lemma RecordedRequests(w: World, x: ScanRecord)
    requires RequestsRight(w)
    ensures RequestsRight(Recorded(w, x))
  {
    hide Serves, RightFor;
    var after := Recorded(w, x);
    forall r | r in after.requests
      ensures RequestRight(after, after.requests[r])
    {
      assert RequestRight(w, w.requests[r]);
      if w.requests[r].phase.Answered? {
        RightMore(w.scans, after.scans, w.requests[r].phase.outcome, w.requests[r].p);
      }
    }
  }

  lemma RecordedEntries(w: World, x: ScanRecord)
    requires EntriesOwned(w)
    ensures EntriesOwned(Recorded(w, x))
  {
    EntriesFrame(w, Recorded(w, x));
  }

  /** The value of a scan on record serves its own parameters. */
  lemma OwnScanServes(scans: set<ScanRecord>, x: ScanRecord)
    requires x in scans
    ensures Serves(scans, ValueOf(x), x.p.from, x.p.requestedTo, Some(x.p.effectiveTo))
    ensures Serves(scans, ValueOf(x), x.p.from, x.p.requestedTo, None)
    ensures RightFor(scans, Answer(ValueOf(x), Miss), x.p)
  {
  }

  lemma StoreKeeps(w: World, x: ScanRecord)
    requires RedisRight(w) && x in w.scans
    ensures RedisRight(w.(redis := Store(w.redis, x)))
  {
    hide Serves, ValueOf;
    OwnScanServes(w.scans, x);
  }

  lemma StepKeepsScans(w: World, e: Event)
    requires Invariant(w) && Enabled(w, e)
    ensures ScansRight(Step(w, e))
  {
    hide IsScan, ParamsAt, Store, RedisRight, WorksRight, RequestsRight, EntriesOwned;
  }

  lemma StepKeepsRedis(w: World, e: Event)
    requires Invariant(w) && Enabled(w, e)
    ensures RedisRight(Step(w, e))
  {
    hide StoredRight, Invariant, Store, ParamsAt, IsScan;
    assert RedisRight(w) by { KeepsParts(w); }
    match e
    case ScanSucceeds(_, record, _) =>
      RecordedKeeps(w, record);
      KeepsParts(Recorded(w, record));
      StoreKeeps(Recorded(w, record), record);
    case OtherProcessStores(record) =>
      RecordedKeeps(w, record);
      KeepsParts(Recorded(w, record));
      StoreKeeps(Recorded(w, record), record);
    case _ =>
  }

  lemma KeepsParts(w: World)
    requires Invariant(w)
    ensures RedisRight(w) && WorksRight(w) && RequestsRight(w) && EntriesOwned(w)
  {
  }

  lemma HitRight(w: World, p: Params)
    requires RedisRight(w)
    ensures Full(p) in w.redis ==> RightFor(w.scans, Answer(w.redis[Full(p)], Hit), p)
    ensures Latest(p.from, p.requestedTo) in w.redis ==>
      RightFor(w.scans, Answer(w.redis[Latest(p.from, p.requestedTo)], Stale), p)
  {
    hide Serves;
    if Full(p) in w.redis { assert StoredRight(w.scans, Full(p), w.redis[Full(p)]); }
    var latest := Latest(p.from, p.requestedTo);
    if latest in w.redis { assert StoredRight(w.scans, latest, w.redis[latest]); }
  }

  lemma SetWorkKeeps(w: World, work: nat, phase: WorkPhase)
    requires WorksRight(w) && work in w.works && !w.works[work].phase.Finished?
    requires phase.Finished? ==> RightFor(w.scans, phase.outcome, w.works[work].p)
    ensures WorksRight(SetWork(w, work, phase))
  {
    hide RightFor;
  }

  lemma StepKeepsWorks(w: World, e: Event)
    requires Invariant(w) && Enabled(w, e)
    ensures WorksRight(Step(w, e))
  {
    hide RightFor, RedisRight, EntriesOwned, RequestsRight, WorksRight, ScansRight, IsScan;
    hide Store, ParamsAt, SetWork, SetRequest, JoinOrStart, Recorded;
    match e
    case ScanSucceeds(work, record, stored) => FinishKeepsWorks(w, work, record, stored);
    case OtherProcessStores(record) =>
      RecordedWorks(w, record);
      WorksFrame(Recorded(w, record), Step(w, e));
    case LockFails(work) =>
      FailureRight(w.scans, w.works[work].p);
      SetWorkKeeps(w, work, Finished(Failure));
    case Lock(work, acquired) => SetWorkKeeps(w, work, if acquired then Scanning else Waiting);
    case ScanFails(work) => SetWorkKeeps(w, work, Recovering);
    case StopPolling(work) => SetWorkKeeps(w, work, Recovering);
    case PollCache(work, _) =>
      HitRight(w, w.works[work].p);
      var key := Full(w.works[work].p);
      if key in w.redis { SetWorkKeeps(w, work, Finished(Answer(w.redis[key], Hit))); }
    case ReadLatest(work, lost) =>
      HitRight(w, w.works[work].p);
      FailureRight(w.scans, w.works[work].p);
      var key := Latest(w.works[work].p.from, w.works[work].p.requestedTo);
      SetWorkKeeps(w, work, Finished(if key in w.redis && !lost then Answer(w.redis[key], Stale) else Failure));
    case Deliver(req) => DeliverKeepsWorks(w, req);
    case ReadCache(_, _, _) => ReadKeepsWorks(w, e);
    case Arrive(_, _, _, _) => WorksFrame(w, Step(w, e));
    case Expire(_) => WorksFrame(w, Step(w, e));
  }

  lemma WorksFrame(w: World, after: World)
    requires WorksRight(w) && after.works == w.works && after.inProcess == w.inProcess && after.scans == w.scans
    ensures WorksRight(after)
  {
    hide RightFor;
  }

  lemma FinishKeepsWorks(w: World, work: nat, x: ScanRecord, stored: bool)
    requires WorksRight(w) && work in w.works && w.works[work].phase.Scanning? && x.p == w.works[work].p
    ensures WorksRight(FinishScan(Recorded(w, x), work, x, stored))
  {
    hide RightFor, Store, ValueOf, WorksRight;
    RecordedWorks(w, x);
    OwnScanServes(w.scans + {x}, x);
    var kept := Recorded(w, x).(redis := if stored then Store(w.redis, x) else w.redis);
    WorksFrame(Recorded(w, x), kept);
    SetWorkKeeps(kept, work, Finished(Answer(ValueOf(x), Miss)));
  }

  lemma ReadKeepsWorks(w: World, e: Event)
    requires Invariant(w) && Enabled(w, e) && e.ReadCache?
    ensures WorksRight(Step(w, e))
  {
    hide RightFor, RedisRight, EntriesOwned, RequestsRight, ScansRight;
  }

  lemma DeliverKeepsWorks(w: World, req: nat)
    requires Invariant(w) && Enabled(w, Deliver(req))
    ensures WorksRight(Step(w, Deliver(req)))
  {
    hide RightFor, RedisRight, EntriesOwned, ScansRight;
    assert RequestRight(w, w.requests[req]);
  }

  lemma FailureRight(scans: set<ScanRecord>, p: Params)
    ensures RightFor(scans, Failure, p)
  {
  }

  /** Steps other than reads of the cache and deliveries leave entries and waiting requests alone. */
  lemma QuietStep(w: World, e: Event)
    requires Enabled(w, e) && !e.ReadCache? && !e.Deliver?
    ensures Step(w, e).inProcess == w.inProcess && SameWorks(w, Step(w, e)) && w.scans <= Step(w, e).scans
    ensures forall r :: r in Step(w, e).requests ==>
      if r in w.requests then Step(w, e).requests[r] == w.requests[r] else Step(w, e).requests[r].phase.Reading?
    ensures forall r :: r in w.requests ==> r in Step(w, e).requests
  {
    hide IsScan, Store, ParamsAt;
  }

  ghost predicate SameWorks(w: World, after: World) {
    forall x :: x in w.works ==> x in after.works && after.works[x].p == w.works[x].p
  }

  lemma StepKeepsRequests(w: World, e: Event)
    requires Invariant(w) && Enabled(w, e)
    ensures RequestsRight(Step(w, e))
  {
    hide RightFor, RedisRight, Step, Enabled, WorksRight, EntriesOwned, RequestsRight;
    match e
    case ReadCache(_, _, _) => ReadKeepsRequests(w, e);
    case Deliver(req) => DeliverKeepsRequests(w, req);
    case _ => QuietKeepsRequests(w, e);
  }

  lemma QuietKeepsRequests(w: World, e: Event)
    requires RequestsRight(w) && Enabled(w, e) && !e.ReadCache? && !e.Deliver?
    ensures RequestsRight(Step(w, e))
  {
    hide RightFor, Step, Enabled;
    QuietStep(w, e);
    var after := Step(w, e);
    forall r | r in after.requests
      ensures RequestRight(after, after.requests[r])
    {
      if r in w.requests {
        assert RequestRight(w, w.requests[r]);
        if w.requests[r].phase.Answered? {
          RightMore(w.scans, after.scans, w.requests[r].phase.outcome, w.requests[r].p);
        }
      }
    }
  }

  lemma ReadKeepsRequests(w: World, e: Event)
    requires Invariant(w) && Enabled(w, e) && e.ReadCache?
    ensures RequestsRight(Step(w, e))
  {
    var p := w.requests[e.req].p;
    hide RightFor, RedisRight, WorksRight, ScansRight, RequestsRight, EntriesOwned, SetRequest;
    if Full(p) in w.redis && !e.lost {
      HitKeepsRequests(w, e.req);
    } else if p in w.inProcess {
      JoinKeepsRequests(w, e.req);
    } else {
      StartKeepsRequests(w, e.req, e.work);
    }
  }

  lemma HitKeepsRequests(w: World, req: nat)
    requires RequestsRight(w) && RedisRight(w) && req in w.requests && Full(w.requests[req].p) in w.redis
    ensures RequestsRight(SetRequest(w, req, Answered(Answer(w.redis[Full(w.requests[req].p)], Hit))))
  {
    HitRight(w, w.requests[req].p);
    hide RightFor, RedisRight, RequestsRight;
    RequestsFrame(w, SetRequest(w, req, Answered(Answer(w.redis[Full(w.requests[req].p)], Hit))), req);
  }

  lemma JoinKeepsRequests(w: World, req: nat)
    requires RequestsRight(w) && EntriesOwned(w) && req in w.requests && w.requests[req].p in w.inProcess
    ensures RequestsRight(SetRequest(w, req, Joined(w.inProcess[w.requests[req].p])))
  {
    hide RightFor, RequestsRight;
    RequestsFrame(w, SetRequest(w, req, Joined(w.inProcess[w.requests[req].p])), req);
  }

  lemma StartKeepsRequests(w: World, req: nat, work: nat)
    requires RequestsRight(w) && req in w.requests && w.requests[req].p !in w.inProcess && work !in w.works
    ensures RequestsRight(JoinOrStart(w, req, work))
  {
    hide RightFor, RequestsRight;
    RequestsFrame(w, JoinOrStart(w, req, work), req);
  }

  lemma RequestsFrame(w: World, after: World, req: nat)
    requires RequestsRight(w) && after.scans == w.scans && SameWorks(w, after) && req in after.requests
    requires forall q :: q in w.inProcess ==> q in after.inProcess && after.inProcess[q] == w.inProcess[q]
    requires after.requests == w.requests[req := after.requests[req]] && RequestRight(after, after.requests[req])
    ensures RequestsRight(after)
  {
    hide RightFor;
    forall r | r in after.requests && r != req
      ensures RequestRight(after, after.requests[r])
    {
      assert RequestRight(w, w.requests[r]);
    }
  }

  lemma DeliverKeepsRequests(w: World, req: nat)
    requires Invariant(w) && Enabled(w, Deliver(req))
    ensures RequestsRight(Step(w, Deliver(req)))
  {
    hide RightFor, RedisRight;
    var after := Step(w, Deliver(req));
    assert RequestRight(w, w.requests[req]);
    forall r | r in after.requests
      ensures RequestRight(after, after.requests[r])
    {
      assert RequestRight(w, w.requests[r]);
      if w.requests[r].phase.Owns? && w.requests[req].phase.Owns? && w.requests[r].p == w.requests[req].p {
        assert Owner(w, r, w.requests[req].phase.work) && Owner(w, req, w.requests[req].phase.work);
      }
    }
  }

  lemma StepKeepsEntries(w: World, e: Event)
    requires Invariant(w) && Enabled(w, e)
    ensures EntriesOwned(Step(w, e))
  {
    hide RightFor, RedisRight, Step, Enabled, WorksRight, EntriesOwned, RequestsRight;
    match e
    case ReadCache(req, work, lost) => ReadKeepsEntries(w, e);
    case Deliver(req) => DeliverKeepsEntries(w, req);
    case _ =>
      QuietStep(w, e);
      EntriesFrame(w, Step(w, e));
  }

  lemma EntriesFrame(w: World, after: World)
    requires EntriesOwned(w) && after.inProcess == w.inProcess && SameWorks(w, after)
    requires forall r, x :: Owner(after, r, x) <==> Owner(w, r, x)
    ensures EntriesOwned(after)
  {
  }

  lemma ReadKeepsEntries(w: World, e: Event)
    requires Invariant(w) && Enabled(w, e) && e.ReadCache?
    ensures EntriesOwned(Step(w, e))
  {
    hide RightFor, RedisRight, WorksRight, EntriesOwned;
    var p := w.requests[e.req].p;
    if (Full(p) in w.redis && !e.lost) || p in w.inProcess {
      EntriesFrame(w, Step(w, e));
    } else {
      StartKeepsEntries(w, e);
    }
  }

  lemma StartKeepsEntries(w: World, e: Event)
    requires Invariant(w) && Enabled(w, e) && e.ReadCache? && w.requests[e.req].p !in w.inProcess
    requires Full(w.requests[e.req].p) !in w.redis || e.lost
    ensures EntriesOwned(Step(w, e))
  {
    hide RightFor, RedisRight, WorksRight, ScansRight, RequestsRight, EntriesOwned;
    StartOwnsEntry(w, e.req, e.work);
  }

  /** New work adds one entry, owned by the request that started it. */
  lemma StartOwnsEntry(w: World, req: nat, work: nat)
    requires RequestsRight(w) && EntriesOwned(w) && req in w.requests && w.requests[req].phase.Reading?
    requires w.requests[req].p !in w.inProcess && work !in w.works
    ensures EntriesOwned(JoinOrStart(w, req, work))
  {
    hide RightFor;
    var p := w.requests[req].p;
    var after := JoinOrStart(w, req, work);
    forall r, x | Owner(w, r, x)
      ensures Owner(after, r, x) && x != work
    {
      assert RequestRight(w, w.requests[r]);
    }
    assert forall r, x :: Owner(after, r, x) ==> Owner(w, r, x) || (r == req && x == work);
    forall q | q in after.inProcess
      ensures exists r :: Owner(after, r, after.inProcess[q])
    {
      if q == p {
        assert Owner(after, req, work);
      } else {
        var r :| Owner(w, r, w.inProcess[q]);
        assert Owner(after, r, after.inProcess[q]);
      }
    }
  }

  lemma DeliverKeepsEntries(w: World, req: nat)
    requires Invariant(w) && Enabled(w, Deliver(req))
    ensures EntriesOwned(Step(w, Deliver(req)))
  {
    var after := Step(w, Deliver(req));
    var q := w.requests[req];
    assert after.works == w.works;
    assert after.inProcess == if q.phase.Owns? then w.inProcess - {q.p} else w.inProcess;
    assert after.requests == w.requests[req := q.(phase := after.requests[req].phase)];
    assert after.requests[req].phase.Answered?;
    hide RightFor, RedisRight, WorksRight, ScansRight, Step, Enabled;
    assert RequestRight(w, q);
    OwnersAfterDelivery(w, after, req);
  }

  /** Delivering to an owner removes its own entry and no other. */
  lemma OwnersAfterDelivery(w: World, after: World, req: nat)
    requires RequestsRight(w) && EntriesOwned(w) && req in w.requests && after.works == w.works
    requires after.inProcess == if w.requests[req].phase.Owns? then w.inProcess - {w.requests[req].p} else w.inProcess
    requires req in after.requests && after.requests[req].phase.Answered?
    requires after.requests == w.requests[req := after.requests[req]]
    requires !w.requests[req].phase.Reading? && !w.requests[req].phase.Answered?
    ensures EntriesOwned(after)
  {
    hide RightFor;
    assert forall r, x :: Owner(after, r, x) ==> Owner(w, r, x);
    forall p | p in after.inProcess
      ensures exists r :: Owner(after, r, after.inProcess[p])
    {
      var r :| Owner(w, r, w.inProcess[p]);
      assert RequestRight(w, w.requests[r]);
      assert Owner(after, r, after.inProcess[p]);
    }
  }

  lemma {:induction false} RunKeepsInvariant(w: World, es: seq<Event>)
    requires Invariant(w) && IsRun(w, es)
    ensures Invariant(Run(w, es))
    decreases |es|
  {
    hide ScansRight, RedisRight, WorksRight, RequestsRight, EntriesOwned, Step, Enabled;
    if es != [] {
      StepKeepsScans(w, es[0]);
      StepKeepsRedis(w, es[0]);
      StepKeepsWorks(w, es[0]);
      StepKeepsRequests(w, es[0]);
      StepKeepsEntries(w, es[0]);
      RunKeepsInvariant(Step(w, es[0]), es[1..]);
    }
  }

  // ---------------------------------------------------------------- what a run guarantees

  /** A fresh process, whatever values of earlier scans Redis already holds. */
  ghost predicate Fresh(w: World) {
    ScansRight(w) && RedisRight(w) && w.inProcess == map[] && w.works == map[] && w.requests == map[]
  }

  ghost predicate InFlight(w: World, x: nat) { x in w.works && !w.works[x].phase.Finished? }

  /** The answer holds, for the effective range it states itself, the exact totals of what some completed
      scan of the requested range visited, and of the provider's list at its start if that was served
      steadily; unless the answer is marked stale that range is the request's own. */
  ghost predicate AnswerIsTrue(scans: set<ScanRecord>, o: Outcome, p: Params) {
    o.Answer? ==>
      && o.value.from == p.from && o.value.requestedTo == p.requestedTo
      && o.value.amount.effective.from == Some(p.from)
      && (o.tag != Stale ==> o.value.amount.effective.to == p.effectiveTo)
      && exists x :: x in scans && ValueOf(x) == o.value && IsTrue(x, o.value.amount.effective)
  }

  lemma RightIsTrue(scans: set<ScanRecord>, o: Outcome, p: Params)
    requires RightFor(scans, o, p) && forall x :: x in scans ==> IsScan(x)
    ensures AnswerIsTrue(scans, o, p)
  {
    if o.Answer? {
      var x :| x in scans && o.value == ValueOf(x) && x.p.from == p.from && x.p.requestedTo == p.requestedTo
        && (o.tag != Stale ==> x.p.effectiveTo == p.effectiveTo);
      assert IsScan(x);
      ExactRange(x.amount, x.visited, Range(Some(x.p.from), x.p.effectiveTo));
      hide IsTrue;
    }
  }

  lemma ExactRange(a: Amount, visited: seq<Payment>, r: Range)
    requires IsExact(a, visited, r)
    ensures a.effective == r
  {
    hide Collected, SumBuckets, IsBucket;
  }

  /** In every interleaving: at most one piece of work per cache key is in flight; every answer is true in
      the sense above; and once all requests are answered, well or badly, `inProcess` is empty. */
  lemma RunGuarantees(w: World, es: seq<Event>)
    requires Fresh(w) && IsRun(w, es)
    ensures var after := Run(w, es);
      && (forall x, y :: InFlight(after, x) && InFlight(after, y) && after.works[x].p == after.works[y].p ==> x == y)
      && (forall r :: r in after.requests && after.requests[r].phase.Answered? ==>
            AnswerIsTrue(after.scans, after.requests[r].phase.outcome, after.requests[r].p))
      && ((forall r :: r in after.requests ==> after.requests[r].phase.Answered?) ==> after.inProcess == map[])
  {
    hide RedisRight, RightFor, IsScan, AnswerIsTrue;
    RunKeepsInvariant(w, es);
    var after := Run(w, es);
    forall r | r in after.requests && after.requests[r].phase.Answered?
      ensures AnswerIsTrue(after.scans, after.requests[r].phase.outcome, after.requests[r].p)
    {
      assert RequestRight(after, after.requests[r]);
      RightIsTrue(after.scans, after.requests[r].phase.outcome, after.requests[r].p);
    }
    forall p | p in after.inProcess
      ensures exists r :: r in after.requests && !after.requests[r].phase.Answered?
    {
      var r :| Owner(after, r, after.inProcess[p]);
    }
    assert after.inProcess == map[] || exists p :: p in after.inProcess;
  }

  // ---------------------------------------------------------------- where outcomes come from

  ghost predicate JustAnswered(w: World, after: World, r: nat) {
    && r in w.requests && !w.requests[r].phase.Answered?
    && r in after.requests && after.requests[r].phase.Answered?
  }

  /** A request is answered either from the cache, with the value stored under its own key and without any work,
      or by the outcome of the finished work that it joined or started. */
  lemma WhatRequestsGet(w: World, e: Event, r: nat)
    requires Invariant(w) && Enabled(w, e) && JustAnswered(w, Step(w, e), r)
    ensures var after := Step(w, e); var p := w.requests[r].p; var o := after.requests[r].phase.outcome;
      || (e.ReadCache? && e.req == r && Full(p) in w.redis && o == Answer(w.redis[Full(p)], Hit)
          && after.works == w.works && after.inProcess == w.inProcess)
      || (e == Deliver(r) && exists x :: x in w.works && w.works[x].p == p && w.works[x].phase == Finished(o))
  {
    hide IsScan, RedisRight, WorksRight, ScansRight, EntriesOwned, RightFor, ParamsAt, Store;
    assert RequestRight(w, w.requests[r]);
    if e.Deliver? { assert w.requests[r].phase.work in w.works; }
  }

  /** A readable cached value is always used, and otherwise a request shares the work in progress for its key or
      starts one. */
  lemma CacheIsUsed(w: World, req: nat, work: nat, lost: bool)
    requires Enabled(w, ReadCache(req, work, lost))
    ensures var p := w.requests[req].p; var after := Step(w, ReadCache(req, work, lost));
      && (after.requests[req].phase.Answered? <==> Full(p) in w.redis && !lost)
      && (!after.requests[req].phase.Answered? && p in w.inProcess ==>
            after.requests[req].phase == Joined(w.inProcess[p]) && after.works == w.works)
      && (!after.requests[req].phase.Answered? && p !in w.inProcess ==>
            after.requests[req].phase == Owns(work) && after.works == w.works[work := Work(p, Locking)])
  {
  }

  ghost predicate JustFinished(w: World, after: World, x: nat) {
    && x in w.works && !w.works[x].phase.Finished? && x in after.works && after.works[x].phase.Finished?
  }

  /** Work ends with the value of its own scan, with what another process has stored under its key, with the
      latest value of its requested range, or in failure; and it fails only if the lock could not be asked for,
      or the scan or the wait came to nothing and no latest value was readable. */
  lemma HowWorkEnds(w: World, e: Event, x: nat)
    requires Enabled(w, e) && JustFinished(w, Step(w, e), x)
    ensures var p := w.works[x].p; var latest := Latest(p.from, p.requestedTo);
      match Step(w, e).works[x].phase.outcome
      case Answer(v, Miss) => e.ScanSucceeds? && e.work == x && v == ValueOf(e.record)
      case Answer(v, Hit) => e == PollCache(x, false) && Full(p) in w.redis && v == w.redis[Full(p)]
      case Answer(v, Stale) => e == ReadLatest(x, false) && latest in w.redis && v == w.redis[latest]
      case Failure => e == LockFails(x) || e == ReadLatest(x, true) || (e == ReadLatest(x, false) && latest !in w.redis)
  {
    hide IsScan, ParamsAt, Store;
  }

  /** What a scan reported is stored under the key of its request and as the latest value of its range. */
  lemma ScanIsStored(w: World, work: nat, record: ScanRecord)
    requires Enabled(w, ScanSucceeds(work, record, true))
    ensures var redis := Step(w, ScanSucceeds(work, record, true)).redis; var p := w.works[work].p;
      && redis.Keys == w.redis.Keys + {Full(p), Latest(p.from, p.requestedTo)}
      && redis[Full(p)] == redis[Latest(p.from, p.requestedTo)] == Cached(p.from, p.requestedTo, record.amount)
      && forall k :: k in w.redis && k != Full(p) && k != Latest(p.from, p.requestedTo) ==> redis[k] == w.redis[k]
  {
    hide IsScan;
  }
}
