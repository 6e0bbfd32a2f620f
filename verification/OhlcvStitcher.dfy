/** Paginated reads over two sources: the historical table, cut to a page by its query, and the
    realtime store, overlaid on it with realtime winning on equal timestamps. */
module OhlcvStitcher {
  import opened Series

  /** 2000-01-01T00:00:00Z, where a realtime read starts when no lower bound is given. */
  const EPOCH_2000 := 946684800

  datatype Request = Request(from: Option<int>, to: Option<int>, limit: nat, cursor: Option<int>, now: int, mixed: bool)

  datatype Source = Mixed | Dukascopy | OstiumLocal

  datatype Page = Page(candles: seq<Candle>, next: Option<int>, source: Source)

  function Take(s: seq<Candle>, n: nat): (r: seq<Candle>)
    ensures |r| <= n
  {
    if |s| <= n then s else s[..n]
  }

  function Select(s: seq<Candle>, p: Candle -> bool): (r: seq<Candle>)
    ensures forall c :: c in r <==> c in s && p(c)
  {
    if s == [] then []
    else
      assert s == [s[0]] + s[1..];
      (if p(s[0]) then [s[0]] else []) + Select(s[1..], p)
  }

  lemma {:induction false} SelectTimeline(s: seq<Candle>, p: Candle -> bool)
    requires Timeline(s)
    ensures Timeline(Select(s, p))
  {
    if s != [] {
      SelectTimeline(s[1..], p);
      var rest := Select(s[1..], p);
      forall i | 0 <= i < |rest| ensures s[0].ts < rest[i].ts {
        assert rest[i] in s[1..];
      }
    }
  }

  predicate InWindow(q: Request, t: int) {
    (q.from.Some? ==> t >= q.from.value) && (q.to.Some? ==> t < q.to.value)
  }

  predicate After(q: Request, t: int) {
    q.cursor.Some? ==> t > q.cursor.value
  }

  /** The `WHERE` clause: a cursor replaces the lower bound. */
  predicate InQuery(q: Request, t: int) {
    && (if q.cursor.Some? then t > q.cursor.value else q.from.Some? ==> t >= q.from.value)
    && (q.to.Some? ==> t < q.to.value)
  }

  function Query(parquet: seq<Candle>, q: Request): seq<Candle> {
    Select(parquet, (c: Candle) => InQuery(q, c.ts))
  }

  /** A bound of zero counts as absent here: the reader tests its truth, not its presence. */
  predicate InRead(q: Request, t: int) {
    && (if q.from.Some? && q.from.value != 0 then q.from.value else EPOCH_2000) <= t
    && t < (if q.to.Some? && q.to.value != 0 then q.to.value else q.now)
  }

  /** The realtime rows a request reads; none when mixing is not allowed. */
  function Realtime(realtime: seq<Candle>, q: Request): seq<Candle> {
    if q.mixed then Select(realtime, (c: Candle) => InRead(q, c.ts)) else []
  }

  function Window(m: map<int, Candle>, q: Request): map<int, Candle> {
    map k | k in m && InWindow(q, k) :: m[k]
  }

  /** Everything the two sources hold in the requested window, realtime over historical. */
  function Overlay(parquet: seq<Candle>, realtime: seq<Candle>, q: Request): map<int, Candle> {
    Window(Index(parquet) + Index(Realtime(realtime, q)), q)
  }

  /** The overlay's rows after the cursor, in order. */
  function Remaining(parquet: seq<Candle>, realtime: seq<Candle>, q: Request): seq<Candle> {
    var all := Overlay(parquet, realtime, q);
    Rows(map k | k in all && After(q, k) :: all[k])
  }

  function Stitch(page: seq<Candle>, read: seq<Candle>, q: Request): Page {
    if read == [] then
      Page(page, if |page| == q.limit && page != [] then Some(page[|page| - 1].ts) else None, Dukascopy)
    else
      var newer := Select(read, (c: Candle) => After(q, c.ts));
      var all := Rows(Window(Index(page) + Index(newer), q));
      var cut := Take(all, q.limit);
      Page(cut, if |cut| == q.limit && |all| > q.limit && cut != [] then Some(cut[|cut| - 1].ts) else None,
           SourceOf(cut, page, newer))
  }

  predicate Meets(a: seq<Candle>, b: seq<Candle>) {
    exists c :: c in a && c.ts in Stamps(b)
  }

  function SourceOf(cut: seq<Candle>, page: seq<Candle>, newer: seq<Candle>): Source {
    if Meets(cut, page) && Meets(cut, newer) then Mixed
    else if Meets(cut, newer) then OstiumLocal
    else Dukascopy
  }

  /** One request against both sources. */
  function Serve(parquet: seq<Candle>, realtime: seq<Candle>, q: Request): Page {
    Stitch(Take(Query(parquet, q), q.limit), Realtime(realtime, q), q)
  }

  // ---- the stitcher ----

  /** `merged[row[0]] = row` for every row of a source. */
  method Overwrite(merged: map<int, Candle>, rows: seq<Candle>) returns (result: map<int, Candle>)
    ensures result == merged + Index(rows)
  {
    result := merged;
    assert Index(rows[..0]) == map[];
    hide Index;
    for i := 0 to |rows|
      invariant result == merged + Index(rows[..i])
    {
      assert rows[..i + 1] == rows[..i] + [rows[i]];
      IndexAppend(rows[..i], rows[i]);
      result := result[rows[i].ts := rows[i]];
    }
    assert rows[..|rows|] == rows;
  }

  method RestrictToWindow(merged: map<int, Candle>, q: Request) returns (result: map<int, Candle>)
    ensures result == Window(merged, q)
  {
    result := merged;
    if q.from.Some? {
      result := map k | k in result && k >= q.from.value :: result[k];
    }
    if q.to.Some? {
      result := map k | k in result && k < q.to.value :: result[k];
    }
  }

  method StitchOhlcvMixed(page: seq<Candle>, read: seq<Candle>, q: Request) returns (result: Page)
    requires q.limit >= 1
    ensures result == Stitch(page, read, q)
  {
    hide Index, Rows, Window, Select;
    if read == [] {
      var next := None;
      if |page| == q.limit {
        next := Some(page[|page| - 1].ts);
      }
      return Page(page, next, Dukascopy);
    }
    var newer := Select(read, (c: Candle) => After(q, c.ts));
    var merged := Overwrite(map[], page);
    merged := Overwrite(merged, newer);
    assert map[] + Index(page) == Index(page);
    merged := RestrictToWindow(merged, q);
    var all := Rows(merged);
    var cut := Take(all, q.limit);
    var hasParquet := Meets(cut, page);
    var hasRealtime := Meets(cut, newer);
    var source := Dukascopy;
    if hasParquet && hasRealtime {
      source := Mixed;
    } else if hasRealtime {
      source := OstiumLocal;
    }
    var next := None;
    if |cut| == q.limit && |all| > q.limit {
      next := Some(cut[|cut| - 1].ts);
    }
    return Page(cut, next, source);
  }

  // ---- cutting before merging loses nothing from the page ----

  lemma SubsetSize(a: set<int>, b: set<int>)
    requires a <= b
    ensures |a| <= |b|
    ensures |a| == |b| ==> a == b
  {
    assert b == a + (b - a);
    assert |b| == |a| + |b - a|;
  }

  /** Two overlays that agree up to `t` and hold at least `n` rows there have the same first `n` rows. */
  lemma SameHead(a: map<int, Candle>, b: map<int, Candle>, t: int, n: nat)
    requires Keyed(a) && Keyed(b) && Upto(a, t) == Upto(b, t) && n <= |Upto(a, t)|
    ensures Take(Rows(a), n) == Take(Rows(b), n)
  {
    RowsSplit(a, t);
    RowsSplit(b, t);
    RowsOf(Upto(a, t));
    hide *;
    TakePrefix(Rows(Upto(a, t)), Rows(Beyond(a, t)), n);
    TakePrefix(Rows(Upto(a, t)), Rows(Beyond(b, t)), n);
  }

  lemma TakePrefix(p: seq<Candle>, rest: seq<Candle>, n: nat)
    requires n <= |p|
    ensures Take(p + rest, n) == p[..n]
  {}

  lemma IndexSize(s: seq<Candle>)
    requires Timeline(s)
    ensures |Index(s)| == |s|
  {
    RowsOfIndex(s);
    IndexOf(s);
    hide Index, Rows;
    RowsOf(Index(s));
  }

  /** The cut historical page and the whole historical selection give overlays with the same first
      `limit` rows. */
  lemma CutThenMerge(rows: seq<Candle>, newer: map<int, Candle>, limit: nat)
    requires Timeline(rows) && Keyed(newer)
    ensures Take(Rows(Index(Take(rows, limit)) + newer), limit) == Take(Rows(Index(rows) + newer), limit)
  {
    hide Index, Rows, Keyed;
    if 0 < limit < |rows| {
      var page := rows[..limit];
      var t := rows[limit - 1].ts;
      AgreeUpto(rows, newer, limit);
      EnoughUpto(rows, newer, limit);
      SameHead(Index(page) + newer, Index(rows) + newer, t, limit);
    }
  }

  lemma AgreeUpto(rows: seq<Candle>, newer: map<int, Candle>, limit: nat)
    requires Timeline(rows) && Keyed(newer) && 0 < limit < |rows|
    ensures Keyed(Index(rows[..limit]) + newer) && Keyed(Index(rows) + newer)
    ensures Upto(Index(rows[..limit]) + newer, rows[limit - 1].ts) == Upto(Index(rows) + newer, rows[limit - 1].ts)
  {
    IndexOf(rows[..limit]);
    IndexOf(rows);
    hide Index;
    var t := rows[limit - 1].ts;
    forall k | k <= t
      ensures k in Index(rows[..limit]) <==> k in Index(rows)
      ensures k in Index(rows) ==> Index(rows[..limit])[k] == Index(rows)[k]
    {
      LowPart(rows, limit, k);
    }
    SameUpto(Index(rows[..limit]) + newer, Index(rows) + newer, t);
  }

  /** The rows of the page alone fill it. */
  lemma EnoughUpto(rows: seq<Candle>, newer: map<int, Candle>, limit: nat)
    requires Timeline(rows) && 0 < limit < |rows|
    ensures limit <= |Upto(Index(rows[..limit]) + newer, rows[limit - 1].ts)|
  {
    var page := rows[..limit];
    var last := rows[limit - 1].ts;
    IndexSize(page);
    IndexOf(page);
    hide Index;
    forall k | k in Index(page) ensures k <= last {
      var i :| 0 <= i < limit && page[i] == Index(page)[k];
      assert page[i] == rows[i];
    }
    Covers(Index(page), newer, last);
  }

  lemma Covers(m: map<int, Candle>, newer: map<int, Candle>, t: int)
    requires forall k :: k in m ==> k <= t
    ensures |m| <= |Upto(m + newer, t)|
  {
    SubsetSize(m.Keys, Upto(m + newer, t).Keys);
  }

  /** Up to the last timestamp of the page, the page and the whole selection index the same rows. */
  lemma LowPart(rows: seq<Candle>, limit: nat, k: int)
    requires Timeline(rows) && 0 < limit < |rows| && k <= rows[limit - 1].ts
    ensures k in Index(rows[..limit]) <==> k in Index(rows)
    ensures k in Index(rows) ==> Index(rows[..limit])[k] == Index(rows)[k]
  {
    var page := rows[..limit];
    IndexOfTimeline(page);
    IndexOfTimeline(rows);
    hide Index;
    if k in Index(page) {
      var c := Index(page)[k];
      assert c in page;
      assert c in rows;
    }
    if k in Index(rows) {
      var c := Index(rows)[k];
      assert c in rows;
      var i :| 0 <= i < |rows| && rows[i] == c;
      assert i < limit;
      assert page[i] == c;
      assert c in page;
    }
  }

  // ---- the page is the head of what remains ----

  /** The historical query and the overlay drop the same rows: there is no historical row after the
      cursor but before the requested window. A cursor handed out by an earlier page satisfies this. */
  ghost predicate CursorInWindow(parquet: seq<Candle>, q: Request) {
    forall c :: c in parquet && InQuery(q, c.ts) ==> InWindow(q, c.ts)
  }

  /** The overlay after the cursor, as the map the stitcher would build from uncut sources. */
  function Uncut(parquet: seq<Candle>, realtime: seq<Candle>, q: Request): map<int, Candle> {
    Window(Index(Query(parquet, q)) + Index(Select(Realtime(realtime, q), (c: Candle) => After(q, c.ts))), q)
  }

  lemma {:induction false} SelectIndex(s: seq<Candle>, p: Candle -> bool, k: int)
    requires Timeline(s)
    ensures k in Index(Select(s, p)) <==> k in Index(s) && p(Index(s)[k])
    ensures k in Index(Select(s, p)) ==> Index(Select(s, p))[k] == Index(s)[k]
  {
    SelectTimeline(s, p);
    IndexOfTimeline(s);
    IndexOfTimeline(Select(s, p));
    hide Index;
    if k in Index(s) {
      var c := Index(s)[k];
      assert c in s && c.ts == k;
      assert c in Select(s, p) <==> p(c);
    }
    if k in Index(Select(s, p)) {
      var c := Index(Select(s, p))[k];
      assert c in Select(s, p) && c.ts == k;
    }
  }

  lemma UncutAt(parquet: seq<Candle>, realtime: seq<Candle>, q: Request, k: int)
    requires Timeline(parquet) && Timeline(Realtime(realtime, q))
    ensures var all := Overlay(parquet, realtime, q);
      var uncut := Uncut(parquet, realtime, q);
      && (k in uncut <==> k in all && After(q, k))
      && (k in uncut ==> uncut[k] == all[k])
  {
    var rt := Realtime(realtime, q);
    SelectIndex(parquet, (c: Candle) => InQuery(q, c.ts), k);
    SelectIndex(rt, (c: Candle) => After(q, c.ts), k);
    IndexOf(parquet);
    IndexOf(rt);
    hide Index, Realtime, Select;
    if k in Index(parquet) {
      assert Index(parquet)[k] in parquet;
    }
  }

  lemma UncutIsRemaining(parquet: seq<Candle>, realtime: seq<Candle>, q: Request)
    requires Timeline(parquet) && Timeline(realtime)
    ensures Rows(Uncut(parquet, realtime, q)) == Remaining(parquet, realtime, q)
  {
    RealtimeTimeline(realtime, q);
    hide Uncut, Overlay, Rows, Realtime;
    var all := Overlay(parquet, realtime, q);
    forall k
      ensures k in Uncut(parquet, realtime, q) <==> k in all && After(q, k)
      ensures k in Uncut(parquet, realtime, q) ==> Uncut(parquet, realtime, q)[k] == all[k]
    {
      UncutAt(parquet, realtime, q, k);
    }
    assert Uncut(parquet, realtime, q) == map k | k in all && After(q, k) :: all[k];
  }

  lemma RealtimeTimeline(realtime: seq<Candle>, q: Request)
    requires Timeline(realtime)
    ensures Timeline(Realtime(realtime, q))
  {
    SelectTimeline(realtime, (c: Candle) => InRead(q, c.ts));
  }

  /** A window applied to an overlay is the overlay of the windowed parts. */
  lemma WindowSum(a: map<int, Candle>, b: map<int, Candle>, q: Request)
    ensures Window(a + b, q) == Window(a, q) + Window(b, q)
  {}

  lemma WindowedQuery(parquet: seq<Candle>, q: Request)
    requires Timeline(parquet) && CursorInWindow(parquet, q)
    ensures Timeline(Query(parquet, q))
    ensures forall c :: c in Query(parquet, q) ==> InWindow(q, c.ts)
  {
    SelectTimeline(parquet, (c: Candle) => InQuery(q, c.ts));
  }

  lemma WindowNoop(rows: seq<Candle>, q: Request)
    requires forall c :: c in rows ==> InWindow(q, c.ts)
    ensures Window(Index(rows), q) == Index(rows)
  {
    IndexOf(rows);
    hide Index;
    forall k | k in Index(rows) ensures InWindow(q, k) {
      assert Index(rows)[k] in rows;
    }
  }

  lemma TakeSubset(s: seq<Candle>, n: nat)
    ensures forall c :: c in Take(s, n) ==> c in s
  {}

  lemma CutInWindow(rows: seq<Candle>, newer: map<int, Candle>, q: Request)
    requires Timeline(rows) && Keyed(newer) && forall c :: c in rows ==> InWindow(q, c.ts)
    ensures Take(Rows(Window(Index(Take(rows, q.limit)) + newer, q)), q.limit)
         == Take(Rows(Window(Index(rows) + newer, q)), q.limit)
  {
    TakeSubset(rows, q.limit);
    hide Index, Rows, Take;
    WindowNoop(rows, q);
    WindowNoop(Take(rows, q.limit), q);
    WindowSum(Index(rows), newer, q);
    WindowSum(Index(Take(rows, q.limit)), newer, q);
    CutThenMerge(rows, Window(newer, q), q.limit);
  }

  lemma HistoricalOnly(parquet: seq<Candle>, realtime: seq<Candle>, q: Request)
    requires Timeline(parquet) && CursorInWindow(parquet, q) && Realtime(realtime, q) == []
    ensures Rows(Uncut(parquet, realtime, q)) == Query(parquet, q)
  {
    hide Rows, Realtime, Query;
    var rows := Query(parquet, q);
    WindowedQuery(parquet, q);
    WindowNoop(rows, q);
    RowsOfIndex(rows);
    assert Index(rows) + Index([]) == Index(rows);
  }

  /** Although the historical side is cut to `limit` rows before merging, the page holds exactly the
      first `limit` rows after the cursor of the full overlay of both sources. */
  lemma PageIsHeadOfRemaining(parquet: seq<Candle>, realtime: seq<Candle>, q: Request)
    requires Timeline(parquet) && Timeline(realtime) && CursorInWindow(parquet, q)
    ensures Serve(parquet, realtime, q).candles == Take(Remaining(parquet, realtime, q), q.limit)
  {
    UncutIsRemaining(parquet, realtime, q);
    var rt := Realtime(realtime, q);
    if rt == [] {
      HistoricalOnly(parquet, realtime, q);
    } else {
      var newer := Select(rt, (c: Candle) => After(q, c.ts));
      WindowedQuery(parquet, q);
      IndexOf(newer);
      hide Rows, Window, Index, Remaining, Realtime, Query, Take;
      CutInWindow(Query(parquet, q), Index(newer), q);
    }
  }
}
