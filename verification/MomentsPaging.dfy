/** Keyset pagination of the moments gallery
    (src/modules/admin/admin-moments-management.controller.ts): pages in descending order of
    creation time and id, chained by cursors, over a collection that changes between pages. */
module MomentsPaging {
  import opened Basics
  import D = Decimal
  import opened IsoText

  /** A moment by what it is sorted on; `createdAt` is a time that `toISOString` prints in full. */
  datatype MomentKey = Moment(createdAt: int, id: string)

  predicate IsMoment(m: MomentKey) { InRange(m.createdAt) && IsObjectId(m.id) }

  /** `a` comes before `b` under `sort({ createdAt: -1, _id: -1 })`. */
  predicate Above(a: MomentKey, b: MomentKey) {
    a.createdAt > b.createdAt || (a.createdAt == b.createdAt && D.StrLess(b.id, a.id))
  }

  /** Newest first, and of moments of one instant the one with the greater id first. */
  predicate NewerOrSame(a: MomentKey, b: MomentKey) {
    a.createdAt >= b.createdAt && (a.createdAt == b.createdAt ==> D.StrLess(b.id, a.id))
  }

  lemma AboveMeans(a: MomentKey, b: MomentKey)
    ensures Above(a, b) <==> NewerOrSame(a, b)
  {
  }

  // ---------------------------------------------------------------- cursors

  /** `encodeMomentsGalleryCursor` */
  function Encode(m: MomentKey): string
    requires IsMoment(m)
  {
    ToIso(m.createdAt) + "_" + m.id
  }

  function LastIndexOf(s: string, c: char): (i: int)
    ensures -1 <= i < |s|
    ensures i >= 0 ==> s[i] == c
    ensures forall j :: i < j < |s| ==> s[j] != c
  {
    if s == [] then -1 else if s[|s| - 1] == c then |s| - 1 else LastIndexOf(s[..|s| - 1], c)
  }

  /** `decodeMomentsGalleryCursor` */
  function Decode(cursor: string): Option<MomentKey> {
    var sep := LastIndexOf(cursor, '_');
    if sep <= 0 then None
    else match FromIso(cursor[..sep])
      case None => None
      case Some(t) => if IsObjectId(cursor[sep + 1..]) then Some(Moment(t, cursor[sep + 1..])) else None
  }

  /** Decoding undoes encoding. */
  lemma CursorRoundTrip(m: MomentKey)
    requires IsMoment(m)
    ensures Decode(Encode(m)) == Some(m)
    ensures Encode(m) == ToIso(m.createdAt) + "_" + m.id && |Encode(m)| == 49
  {
    IsoRoundTrip(m.createdAt);
    hide ToIso, FromIso, InRange;
    var s := Encode(m);
    assert s[24] == '_' && s[..24] == ToIso(m.createdAt) && s[25..] == m.id;
    assert forall j :: 24 < j < |s| ==> s[j] == m.id[j - 25];
    assert LastIndexOf(s, '_') == 24;
  }

  // ---------------------------------------------------------------- pages

  predicate Below(m: MomentKey, cursor: Option<MomentKey>) { cursor.Some? ==> Above(cursor.value, m) }

  ghost predicate Descending(ms: seq<MomentKey>) {
    forall i, j :: 0 <= i < j < |ms| ==> Above(ms[i], ms[j])
  }

  /** What `find(pageQuery).sort(...).limit(k)` returns when the matching moments are `db`. */
  ghost predicate IsFind(db: set<MomentKey>, cursor: Option<MomentKey>, k: nat, found: seq<MomentKey>) {
    && Descending(found) && |found| <= k
    && (forall m :: m in found ==> m in db && Below(m, cursor))
    && (forall m :: m in db && Below(m, cursor) && m !in found ==>
          |found| == k && forall i :: 0 <= i < k ==> Above(found[i], m))
  }

  datatype Response = InvalidCursor | Page(items: seq<MomentKey>, nextCursor: Option<string>)

  /** A page of `db` below `cursor`: in order, nothing skipped above its end, and `more` only if full. */
  ghost predicate IsPage(db: set<MomentKey>, cursor: Option<MomentKey>, limit: nat, items: seq<MomentKey>, more: bool) {
    && Descending(items) && |items| <= limit && (more ==> |items| == limit)
    && (forall m :: m in items ==> m in db && Below(m, cursor))
    && (forall m :: m in db && Below(m, cursor) && m !in items ==> more && items != [] && Above(items[|items| - 1], m))
  }

  /** `Math.min(Number(limit) || 30, 100)` */
  function PageLimit(requested: Option<int>): int {
    var n := if requested.None? || requested.value == 0 then 30 else requested.value;
    if n <= 100 then n else 100
  }

  /** The limit is 30 when absent, zero or no number, at most 100, and otherwise as asked, negative or not. */
  lemma PageLimits(requested: Option<int>)
    ensures requested in {None, Some(0)} ==> PageLimit(requested) == 30
    ensures requested.Some? && requested.value != 0 ==>
      PageLimit(requested) == if requested.value > 100 then 100 else requested.value
  {
  }

  /** The decoded cursor of a request, or nothing for the first page. */
  function CursorOf(cursor: Option<string>): Option<MomentKey> {
    if cursor.Some? && cursor.value != "" then Decode(cursor.value) else None
  }

  predicate BadCursor(cursor: Option<string>) {
    cursor.Some? && cursor.value != "" && Decode(cursor.value).None?
  }

  /** What `limit(k)` makes of `IsFind`: no limit for 0, and the size of one batch for a negative `k`. */
  ghost predicate IsLimitedFind(db: set<MomentKey>, cursor: Option<MomentKey>, k: int, found: seq<MomentKey>) {
    IsFind(db, cursor, if k == 0 then |found| + 1 else Abs(k), found)
  }

  /** `found.slice(0, limit)`, where a negative limit counts from the end. */
  function Slice(found: seq<MomentKey>, limit: int): seq<MomentKey> {
    found[..if limit < 0 then Max(0, |found| + limit) else Min(|found|, limit)]
  }

  /** All of `db` below `cursor` but the very last moment. */
  ghost predicate IsAllButLast(db: set<MomentKey>, cursor: Option<MomentKey>, items: seq<MomentKey>) {
    && Descending(items)
    && (forall m :: m in items ==> m in db && Below(m, cursor))
    && (forall m, l :: m in db && Below(m, cursor) && m !in items && l in db && Below(l, cursor) && l !in items ==>
          m == l)
    && (forall m, i :: m in db && Below(m, cursor) && m !in items && 0 <= i < |items| ==> Above(items[i], m))
    && ((exists m :: m in db && Below(m, cursor)) ==> exists m :: m in db && Below(m, cursor) && m !in items)
  }

  /** What the handler answers when `db` matches the filter. The limit is only capped from above: -1 makes
      it withhold the last moment, and lower limits give empty pages. */
  ghost predicate IsResponse(db: set<MomentKey>, cursor: Option<string>, limit: int, r: Response) {
    && (r.InvalidCursor? <==> BadCursor(cursor))
    && (r.Page? && limit >= 1 ==> IsPage(db, CursorOf(cursor), limit, r.items, r.nextCursor.Some?))
    && (r.Page? && limit == -1 ==> IsAllButLast(db, CursorOf(cursor), r.items))
    && (r.Page? && limit == -1 ==> (r.nextCursor.Some? <==> r.items != []))
    && (r.Page? && limit < -1 ==> r.items == [] && r.nextCursor.None?)
    && (r.Page? && r.nextCursor.Some? ==> r.items != [] && CursorOf(r.nextCursor) == Some(r.items[|r.items| - 1]))
  }

  /** The page logic of `listAllMomentsForAdminHandler`, given what the query found. */
  method ListMoments(cursor: Option<string>, requested: Option<int>, ghost db: set<MomentKey>, found: seq<MomentKey>)
    returns (r: Response)
    requires forall m :: m in db ==> IsMoment(m)
    requires !BadCursor(cursor) ==> IsLimitedFind(db, CursorOf(cursor), PageLimit(requested) + 1, found)
    ensures IsResponse(db, cursor, PageLimit(requested), r)
  {
    hide Decode, Encode, IsMoment, IsResponse, IsLimitedFind, Slice;
    var limit := PageLimit(requested);
    if cursor.Some? && cursor.value != "" {
      var decoded := Decode(cursor.value);
      if decoded.None? {
        RefusalIsResponse(db, cursor, limit);
        return InvalidCursor;
      }
    }
    var items := Slice(found, limit);
    var next := None;
    if |found| > limit && items != [] {
      var last := items[|items| - 1];
      assert IsMoment(last) by { LastIsMoment(db, CursorOf(cursor), limit, found); }
      next := Some(Encode(last));
    }
    r := Page(items, next);
    PageIsResponse(db, cursor, limit, found, r);
  }

  lemma RefusalIsResponse(db: set<MomentKey>, cursor: Option<string>, limit: int)
    requires BadCursor(cursor)
    ensures IsResponse(db, cursor, limit, InvalidCursor)
  {
    hide Decode;
  }

  lemma LastIsMoment(db: set<MomentKey>, cursor: Option<MomentKey>, limit: int, found: seq<MomentKey>)
    requires forall m :: m in db ==> IsMoment(m)
    requires IsLimitedFind(db, cursor, limit + 1, found) && Slice(found, limit) != []
    ensures var items := Slice(found, limit); IsMoment(items[|items| - 1])
  {
    hide IsMoment, IsLimitedFind;
    FoundInDb(db, cursor, limit + 1, found);
    var items := Slice(found, limit);
    assert items[|items| - 1] in found;
  }

  lemma PageIsResponse(db: set<MomentKey>, cursor: Option<string>, limit: int, found: seq<MomentKey>, r: Response)
    requires (forall m :: m in db ==> IsMoment(m)) && !BadCursor(cursor) && limit != 0
    requires IsLimitedFind(db, CursorOf(cursor), limit + 1, found)
    requires r.Page? && r.items == Slice(found, limit)
    requires r.nextCursor.Some? <==> |found| > limit && r.items != []
    requires r.nextCursor.Some? ==>
      IsMoment(r.items[|r.items| - 1]) && r.nextCursor.value == Encode(r.items[|r.items| - 1])
    ensures IsResponse(db, cursor, limit, r)
  {
    hide Decode, Encode, Above, IsMoment, IsFind, IsPage, IsAllButLast;
    if r.nextCursor.Some? {
      CursorRoundTrip(r.items[|r.items| - 1]);
      EncodeNonEmpty(r.items[|r.items| - 1]);
    }
    if limit >= 1 {
      SliceIsPage(db, CursorOf(cursor), limit, found);
    } else if limit == -1 {
      AllButLast(db, CursorOf(cursor), found);
    } else {
      FoundInDb(db, CursorOf(cursor), limit + 1, found);
    }
  }

  lemma FoundInDb(db: set<MomentKey>, cursor: Option<MomentKey>, k: int, found: seq<MomentKey>)
    requires IsLimitedFind(db, cursor, k, found)
    ensures (forall m :: m in found ==> m in db) && (k != 0 ==> |found| <= Abs(k))
  {
    hide Above, Descending;
  }

  lemma AllButLast(db: set<MomentKey>, cursor: Option<MomentKey>, found: seq<MomentKey>)
    requires IsLimitedFind(db, cursor, 0, found)
    ensures IsAllButLast(db, cursor, Slice(found, -1))
  {
    var items := Slice(found, -1);
    hide Above;
    assert forall m :: m in db && Below(m, cursor) ==> m in found;
    if found != [] {
      var last := found[|found| - 1];
      assert found == items + [last];
      forall i | 0 <= i < |items|
        ensures Above(items[i], last) && items[i] != last
      {
        assert items[i] == found[i];
        AboveIrreflexive(last);
      }
      assert last in found && last !in items;
    }
  }

  lemma EncodeNonEmpty(m: MomentKey)
    requires IsMoment(m)
    ensures Encode(m) != ""
  {
    hide ToIso;
  }

  lemma SliceIsPage(db: set<MomentKey>, cursor: Option<MomentKey>, limit: nat, found: seq<MomentKey>)
    requires limit >= 1 && IsFind(db, cursor, limit + 1, found)
    ensures IsPage(db, cursor, limit, Slice(found, limit), |found| > limit)
  {
    hide Above;
    if |found| > limit {
      var items := found[..limit];
      assert forall m :: m in items ==> m in found;
      assert forall i :: 0 <= i < limit ==> items[i] == found[i];
      forall m | m in db && Below(m, cursor) && m !in items
        ensures Above(items[limit - 1], m)
      {
        if m in found {
          var i :| 0 <= i < |found| && found[i] == m;
          assert i == limit;
        }
      }
    }
  }

  // ---------------------------------------------------------------- sessions

  function CursorAt(pages: seq<seq<MomentKey>>, k: nat): Option<MomentKey>
    requires k <= |pages|
  {
    if k == 0 || pages[k - 1] == [] then None else Some(pages[k - 1][|pages[k - 1]| - 1])
  }

  /** Pages chained by cursors until no next cursor is given; `dbs[k]` is what matches the filter
      when page `k` is read and `limits[k]` the limit asked for. */
  ghost predicate IsSession(dbs: seq<set<MomentKey>>, pages: seq<seq<MomentKey>>, limits: seq<nat>) {
    && |dbs| == |limits| == |pages| > 0 && (forall k :: 0 <= k < |pages| ==> limits[k] >= 1)
    && forall k :: 0 <= k < |pages| ==> IsPage(dbs[k], CursorAt(pages, k), limits[k], pages[k], k < |pages| - 1)
  }

  /** The cursor sent with request `k`: none first, then the one just received. */
  function SentCursor(rs: seq<Response>, k: nat): Option<string>
    requires k <= |rs|
  {
    if k == 0 || rs[k - 1].InvalidCursor? then None else rs[k - 1].nextCursor
  }

  /** A client that follows cursors until none is given: every answer but the last has a next cursor. */
  ghost predicate IsExchange(dbs: seq<set<MomentKey>>, rs: seq<Response>, limits: seq<nat>) {
    && |dbs| == |rs| == |limits| > 0
    && (forall k :: 0 <= k < |rs| ==> limits[k] >= 1 && IsResponse(dbs[k], SentCursor(rs, k), limits[k], rs[k]))
    && (forall k :: 0 <= k < |rs| && rs[k].Page? ==> (rs[k].nextCursor.Some? <==> k < |rs| - 1))
  }

  function PagesOf(rs: seq<Response>): (pages: seq<seq<MomentKey>>)
    ensures |pages| == |rs| && forall k :: 0 <= k < |rs| && rs[k].Page? ==> pages[k] == rs[k].items
  {
    seq(|rs|, k requires 0 <= k < |rs| => if rs[k].Page? then rs[k].items else [])
  }

  /** Chained answers form a session: no cursor is ever refused, and each page is read from the end of
      the one before. */
  lemma ExchangeIsSession(dbs: seq<set<MomentKey>>, rs: seq<Response>, limits: seq<nat>)
    requires IsExchange(dbs, rs, limits)
    ensures (forall k :: 0 <= k < |rs| ==> rs[k].Page?) && IsSession(dbs, PagesOf(rs), limits)
  {
    hide IsPage, IsAllButLast, Decode, PagesOf;
    forall k | 0 <= k < |rs|
      ensures rs[k].Page? && IsPage(dbs[k], CursorAt(PagesOf(rs), k), limits[k], PagesOf(rs)[k], k < |rs| - 1)
    {
      AnswerInExchange(dbs, rs, limits, k);
      assert IsResponse(dbs[k], SentCursor(rs, k), limits[k], rs[k]);
    }
  }

  lemma {:induction false} AnswerInExchange(dbs: seq<set<MomentKey>>, rs: seq<Response>, limits: seq<nat>, k: nat)
    requires IsExchange(dbs, rs, limits) && k < |rs|
    ensures rs[k].Page? && CursorOf(SentCursor(rs, k)) == CursorAt(PagesOf(rs), k)
  {
    hide IsResponse, BadCursor, CursorOf, PagesOf;
    assert IsResponse(dbs[k], SentCursor(rs, k), limits[k], rs[k]);
    if k > 0 {
      AnswerInExchange(dbs, rs, limits, k - 1);
      assert IsResponse(dbs[k - 1], SentCursor(rs, k - 1), limits[k - 1], rs[k - 1]);
      NextIsGood(dbs[k - 1], SentCursor(rs, k - 1), limits[k - 1], rs[k - 1]);
    } else {
      assert !BadCursor(SentCursor(rs, 0)) && CursorOf(SentCursor(rs, 0)) == None by { FirstIsGood(); }
    }
    GoodIsAnswered(dbs[k], SentCursor(rs, k), limits[k], rs[k]);
  }

  lemma FirstIsGood()
    ensures !BadCursor(None) && CursorOf(None) == None
  {
  }

  lemma GoodIsAnswered(db: set<MomentKey>, cursor: Option<string>, limit: nat, r: Response)
    requires IsResponse(db, cursor, limit, r) && !BadCursor(cursor)
    ensures r.Page?
  {
    hide IsPage, IsAllButLast, Decode;
  }

  lemma NextIsGood(db: set<MomentKey>, cursor: Option<string>, limit: nat, r: Response)
    requires IsResponse(db, cursor, limit, r) && r.Page? && r.nextCursor.Some?
    ensures !BadCursor(r.nextCursor) && r.items != [] && CursorOf(r.nextCursor) == Some(r.items[|r.items| - 1])
  {
    hide IsPage, IsAllButLast, Decode;
  }

  lemma AboveTransitive(a: MomentKey, b: MomentKey, c: MomentKey)
    requires Above(a, b) && Above(b, c)
    ensures Above(a, c)
  {
    if a.createdAt == b.createdAt == c.createdAt { D.StrLessTransitive(c.id, b.id, a.id); }
    hide D.StrLess;
  }

  lemma AboveIrreflexive(a: MomentKey)
    ensures !Above(a, a)
  {
    D.StrLessIrreflexive(a.id);
  }

  /** Everything on a later page is below the cursor of an earlier one. */
  lemma {:induction false} LaterIsBelow(dbs: seq<set<MomentKey>>, pages: seq<seq<MomentKey>>, limits: seq<nat>,
                                        k: nat, l: nat, m: MomentKey)
    requires IsSession(dbs, pages, limits) && k < l < |pages| && m in pages[l]
    ensures pages[k] != [] && Above(pages[k][|pages[k]| - 1], m)
    decreases l - k
  {
    hide Above, IsSession;
    if l == k + 1 {
      NextIsBelow(dbs, pages, limits, k, m);
    } else {
      LaterIsBelow(dbs, pages, limits, k + 1, l, m);
      var last := pages[k + 1][|pages[k + 1]| - 1];
      NextIsBelow(dbs, pages, limits, k, last);
      AboveTransitive(pages[k][|pages[k]| - 1], last, m);
    }
  }

  lemma NextIsBelow(dbs: seq<set<MomentKey>>, pages: seq<seq<MomentKey>>, limits: seq<nat>, k: nat, m: MomentKey)
    requires IsSession(dbs, pages, limits) && k + 1 < |pages| && m in pages[k + 1]
    ensures pages[k] != [] && Above(pages[k][|pages[k]| - 1], m)
  {
    hide Above;
    assert IsPage(dbs[k], CursorAt(pages, k), limits[k], pages[k], true);
    assert IsPage(dbs[k + 1], CursorAt(pages, k + 1), limits[k + 1], pages[k + 1], k + 1 < |pages| - 1);
  }

  /** Over the whole session the order is strictly descending, so no moment is returned twice. */
  lemma SessionDescends(dbs: seq<set<MomentKey>>, pages: seq<seq<MomentKey>>, limits: seq<nat>, k: nat, i: nat,
                        l: nat, j: nat)
    requires IsSession(dbs, pages, limits) && k < |pages| && i < |pages[k]| && l < |pages| && j < |pages[l]|
    requires k < l || (k == l && i < j)
    ensures Above(pages[k][i], pages[l][j]) && pages[k][i] != pages[l][j]
    ensures NewerOrSame(pages[k][i], pages[l][j])
  {
    AboveMeans(pages[k][i], pages[l][j]);
    hide Above;
    assert IsPage(dbs[k], CursorAt(pages, k), limits[k], pages[k], k < |pages| - 1);
    if k < l {
      LaterIsBelow(dbs, pages, limits, k, l, pages[l][j]);
      var last := |pages[k]| - 1;
      if i < last { AboveTransitive(pages[k][i], pages[k][last], pages[l][j]); }
    }
    AboveIrreflexive(pages[k][i]);
  }

  ghost predicate Returned(pages: seq<seq<MomentKey>>, m: MomentKey, k: int, i: int) {
    0 <= k < |pages| && 0 <= i < |pages[k]| && pages[k][i] == m
  }

  /** A moment that is there from page `j` on, and was below the cursor of that page, is returned;
      with `j == 0` this is every moment present throughout. */
  lemma {:induction false} PresentIsReturned(dbs: seq<set<MomentKey>>, pages: seq<seq<MomentKey>>, limits: seq<nat>,
                                             j: nat, m: MomentKey)
    requires IsSession(dbs, pages, limits) && j < |pages| && Below(m, CursorAt(pages, j))
    requires forall k :: j <= k < |pages| ==> m in dbs[k]
    ensures exists k, i :: Returned(pages, m, k, i)
    decreases |pages| - j
  {
    hide Above;
    assert IsPage(dbs[j], CursorAt(pages, j), limits[j], pages[j], j < |pages| - 1);
    if m in pages[j] {
      var i :| 0 <= i < |pages[j]| && pages[j][i] == m;
      assert Returned(pages, m, j, i);
    } else {
      PresentIsReturned(dbs, pages, limits, j + 1, m);
    }
  }

  /** Exactly once: a moment is returned at one place only, it is a moment that matched when its
      page was read, and every moment present from some page on and inserted below its cursor
      is returned. */
  lemma SessionExact(dbs: seq<set<MomentKey>>, pages: seq<seq<MomentKey>>, limits: seq<nat>, m: MomentKey)
    requires IsSession(dbs, pages, limits)
    ensures forall k, i, l, j :: Returned(pages, m, k, i) && Returned(pages, m, l, j) ==> k == l && i == j
    ensures forall k, i :: Returned(pages, m, k, i) ==> m in dbs[k]
    ensures (exists j: nat :: StaysFrom(dbs, pages, m, j)) ==> exists k, i :: Returned(pages, m, k, i)
  {
    assert |dbs| == |pages|;
    hide Above, IsSession;
    forall k, i, l, j | Returned(pages, m, k, i) && Returned(pages, m, l, j)
      ensures k == l && i == j
    {
      if k < l || (k == l && i < j) { SessionDescends(dbs, pages, limits, k, i, l, j); }
      if l < k || (k == l && j < i) { SessionDescends(dbs, pages, limits, l, j, k, i); }
    }
    forall k, i | Returned(pages, m, k, i)
      ensures m in dbs[k]
    {
      SessionPage(dbs, pages, limits, k);
      assert m in pages[k];
    }
    if j: nat :| StaysFrom(dbs, pages, m, j) {
      PresentIsReturned(dbs, pages, limits, j, m);
    }
  }

  lemma SessionPage(dbs: seq<set<MomentKey>>, pages: seq<seq<MomentKey>>, limits: seq<nat>, k: nat)
    requires IsSession(dbs, pages, limits) && k < |pages|
    ensures |dbs| == |limits| == |pages| && IsPage(dbs[k], CursorAt(pages, k), limits[k], pages[k], k < |pages| - 1)
  {
  }

  ghost predicate StaysFrom(dbs: seq<set<MomentKey>>, pages: seq<seq<MomentKey>>, m: MomentKey, j: nat) {
    && j < |pages| == |dbs| && Below(m, CursorAt(pages, j))
    && forall k :: j <= k < |pages| ==> m in dbs[k]
  }

  /** Encoding undoes decoding: a cursor that is accepted is the cursor of exactly one moment. */
  lemma DecodedCursor(cursor: string)
    requires Decode(cursor).Some?
    ensures IsMoment(Decode(cursor).value) && Encode(Decode(cursor).value) == cursor
  {
    var sep := LastIndexOf(cursor, '_');
    ReadsOnlyItsText(cursor[..sep]);
    hide ToIso, FromIso, InRange;
    assert cursor == cursor[..sep] + "_" + cursor[sep + 1..];
  }
}
