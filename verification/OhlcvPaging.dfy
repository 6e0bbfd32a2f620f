/** Following `next_ts` from page to page. */
module OhlcvPaging {
  import opened Series
  import opened OhlcvStitcher

  ghost predicate Sources(parquet: seq<Candle>, realtime: seq<Candle>, q: Request) {
    Timeline(parquet) && Timeline(realtime) && CursorInWindow(parquet, q)
  }

  // ---- when a page ends the walk too soon ----

  /** The page announces no successor although rows remain after it. */
  ghost predicate StopsEarly(parquet: seq<Candle>, realtime: seq<Candle>, q: Request) {
    var p := Serve(parquet, realtime, q);
    p.next.None? && |p.candles| < |Remaining(parquet, realtime, q)|
  }

  /** The realtime rows of the request that lie after the cursor and in the window. */
  function Newer(realtime: seq<Candle>, q: Request): map<int, Candle> {
    Window(Index(Select(Realtime(realtime, q), (c: Candle) => After(q, c.ts))), q)
  }

  lemma SizesOfSum(a: map<int, Candle>, b: map<int, Candle>)
    ensures |a| <= |a + b|
    ensures |a + b| == |a| <==> b.Keys <= a.Keys
  {
    SubsetSize(a.Keys, (a + b).Keys);
    assert (a + b).Keys == a.Keys + b.Keys;
  }

  /** How many rows the stitcher merges for a request that read some realtime rows. */
  function MergedSize(parquet: seq<Candle>, realtime: seq<Candle>, q: Request): nat {
    |Rows(Window(Index(Take(Query(parquet, q), q.limit))
                 + Index(Select(Realtime(realtime, q), (c: Candle) => After(q, c.ts))), q))|
  }

  lemma NewerKeyed(realtime: seq<Candle>, q: Request)
    ensures Keyed(Newer(realtime, q))
  {
    IndexOf(Select(Realtime(realtime, q), (c: Candle) => After(q, c.ts)));
  }

  lemma RemainingSize(parquet: seq<Candle>, realtime: seq<Candle>, q: Request)
    requires Sources(parquet, realtime, q)
    ensures |Remaining(parquet, realtime, q)| == |Index(Query(parquet, q)) + Newer(realtime, q)|
  {
    var rows := Query(parquet, q);
    UncutIsRemaining(parquet, realtime, q);
    WindowedQuery(parquet, q);
    IndexOf(rows);
    NewerKeyed(realtime, q);
    hide Index, Rows, Query, Realtime, Select, Remaining;
    WindowNoop(rows, q);
    WindowSum(Index(rows), Index(Select(Realtime(realtime, q), (c: Candle) => After(q, c.ts))), q);
    RowsOf(Index(rows) + Newer(realtime, q));
  }

  lemma MergedSizeIs(parquet: seq<Candle>, realtime: seq<Candle>, q: Request)
    requires Sources(parquet, realtime, q)
    ensures MergedSize(parquet, realtime, q) == |Index(Take(Query(parquet, q), q.limit)) + Newer(realtime, q)|
  {
    var page := Take(Query(parquet, q), q.limit);
    WindowedQuery(parquet, q);
    TakeSubset(Query(parquet, q), q.limit);
    IndexOf(page);
    NewerKeyed(realtime, q);
    hide Index, Rows, Query, Realtime, Select, Take;
    WindowNoop(page, q);
    WindowSum(Index(page), Index(Select(Realtime(realtime, q), (c: Candle) => After(q, c.ts))), q);
    RowsOf(Index(page) + Newer(realtime, q));
  }

  lemma TakeTimeline(s: seq<Candle>, n: nat)
    requires Timeline(s)
    ensures Timeline(Take(s, n)) && |Take(s, n)| == if |s| <= n then |s| else n
  {}

  /** With realtime rows the successor is announced exactly when the merge exceeds the page. */
  lemma NextIffMergeExceedsPage(parquet: seq<Candle>, realtime: seq<Candle>, q: Request)
    requires Realtime(realtime, q) != [] && q.limit >= 1
    ensures Serve(parquet, realtime, q).next.Some? <==> MergedSize(parquet, realtime, q) > q.limit
    ensures |Serve(parquet, realtime, q).candles| ==
      if MergedSize(parquet, realtime, q) <= q.limit then MergedSize(parquet, realtime, q) else q.limit
  {
    hide Rows, Window, Index, Select, Query, Realtime;
  }

  /** A page ends the walk too soon exactly when more than `limit` historical rows follow the cursor,
      some realtime row was read, and every realtime row after the cursor falls on a historical row of
      the page: the merge then adds nothing to a full page and looks like the last one. */
  lemma StopsEarlyIff(parquet: seq<Candle>, realtime: seq<Candle>, q: Request)
    requires Sources(parquet, realtime, q) && q.limit >= 1
    ensures StopsEarly(parquet, realtime, q) <==>
      && Realtime(realtime, q) != []
      && |Query(parquet, q)| > q.limit
      && Newer(realtime, q).Keys <= Index(Take(Query(parquet, q), q.limit)).Keys
  {
    var rows := Query(parquet, q);
    var page := Take(rows, q.limit);
    WindowedQuery(parquet, q);
    TakeTimeline(rows, q.limit);
    RemainingSize(parquet, realtime, q);
    IndexSize(rows);
    IndexSize(page);
    if Realtime(realtime, q) == [] {
      UncutIsRemaining(parquet, realtime, q);
      HistoricalOnly(parquet, realtime, q);
    } else {
      MergedSizeIs(parquet, realtime, q);
      NextIffMergeExceedsPage(parquet, realtime, q);
      hide Serve, Remaining, MergedSize, Query, Realtime, Index, Newer, Take;
      SizesOfSum(Index(page), Newer(realtime, q));
      SizesOfSum(Index(rows), Newer(realtime, q));
    }
  }

  // ---- from one page to the next ----

  function NextRequest(q: Request, p: Page): Request
    requires p.next.Some?
  {
    q.(cursor := p.next)
  }

  /** Dropping the first `n` rows leaves the rows after the last of them. */
  lemma RowsAfter(m: map<int, Candle>, n: nat)
    requires Keyed(m) && 0 < n <= |Rows(m)|
    ensures Rows(Beyond(m, Rows(m)[n - 1].ts)) == Rows(m)[n..]
  {
    hide *;
    var r := Rows(m);
    var b := Beyond(m, r[n - 1].ts);
    BeyondKeyed(m, r[n - 1].ts);
    RowsOf(m);
    RowsOf(b);
    TailTimeline(r, n);
    forall c ensures c in Rows(b) <==> c in r[n..] {
      TailMembers(r, n, c);
    }
    TimelinesEqual(Rows(b), r[n..]);
  }

  lemma BeyondKeyed(m: map<int, Candle>, t: int)
    requires Keyed(m)
    ensures Keyed(Beyond(m, t))
  {}

  lemma TailTimeline(r: seq<Candle>, n: nat)
    requires Timeline(r) && n <= |r|
    ensures Timeline(r[n..])
  {}

  lemma TailMembers(r: seq<Candle>, n: nat, c: Candle)
    requires Timeline(r) && 0 < n <= |r|
    ensures c in r[n..] <==> c in r && c.ts > r[n - 1].ts
  {
    if c in r && c.ts > r[n - 1].ts {
      var i :| 0 <= i < |r| && r[i] == c;
      assert r[n..][i - n] == c;
    }
  }

  lemma OverlayKeyed(parquet: seq<Candle>, realtime: seq<Candle>, q: Request)
    ensures Keyed(Overlay(parquet, realtime, q))
  {
    IndexOf(parquet);
    IndexOf(Realtime(realtime, q));
  }

  lemma RemainingRows(parquet: seq<Candle>, realtime: seq<Candle>, q: Request)
    ensures Timeline(Remaining(parquet, realtime, q))
    ensures forall c :: c in Remaining(parquet, realtime, q) ==> InWindow(q, c.ts) && After(q, c.ts)
  {
    OverlayKeyed(parquet, realtime, q);
    var all := Overlay(parquet, realtime, q);
    assert forall k :: k in all ==> InWindow(q, k);
    hide Overlay, Rows;
    RowsOf(map k | k in all && After(q, k) :: all[k]);
  }

  lemma LastOfPage(parquet: seq<Candle>, realtime: seq<Candle>, q: Request)
    requires Serve(parquet, realtime, q).next.Some?
    ensures var p := Serve(parquet, realtime, q);
      p.candles != [] && p.next == Some(p.candles[|p.candles| - 1].ts)
  {}

  lemma PageIsPrefix(parquet: seq<Candle>, realtime: seq<Candle>, q: Request)
    requires Sources(parquet, realtime, q)
    ensures Serve(parquet, realtime, q).candles <= Remaining(parquet, realtime, q)
  {
    PageIsHeadOfRemaining(parquet, realtime, q);
    TakeIsPrefix(Remaining(parquet, realtime, q), q.limit);
    hide *;
  }

  lemma NextSources(parquet: seq<Candle>, realtime: seq<Candle>, q: Request)
    requires Sources(parquet, realtime, q) && Serve(parquet, realtime, q).next.Some?
    ensures Sources(parquet, realtime, NextRequest(q, Serve(parquet, realtime, q)))
  {
    PageIsPrefix(parquet, realtime, q);
    LastOfPage(parquet, realtime, q);
    AfterLast(parquet, realtime, q, |Serve(parquet, realtime, q).candles|);
    CursorAdvances(parquet, q, Serve(parquet, realtime, q).next.value);
    hide Serve, Remaining, CursorInWindow, InWindow, After;
  }

  /** Moving the cursor to the end of the page leaves exactly the rows after the page. */
  lemma NextRemaining(parquet: seq<Candle>, realtime: seq<Candle>, q: Request)
    requires Sources(parquet, realtime, q) && Serve(parquet, realtime, q).next.Some?
    ensures var page := Serve(parquet, realtime, q).candles;
      && 0 < |page| <= |Remaining(parquet, realtime, q)|
      && page == Remaining(parquet, realtime, q)[..|page|]
      && Remaining(parquet, realtime, NextRequest(q, Serve(parquet, realtime, q))) == Remaining(parquet, realtime, q)[|page|..]
  {
    hide *;
    PageIsPrefix(parquet, realtime, q);
    LastOfPage(parquet, realtime, q);
    SameLimit(q, Serve(parquet, realtime, q));
    AfterLast(parquet, realtime, q, |Serve(parquet, realtime, q).candles|);
  }

  /** A cursor taken from a page lies in the window, so the next query selects nothing before it. */
  lemma CursorAdvances(parquet: seq<Candle>, q: Request, t: int)
    requires InWindow(q, t)
    ensures CursorInWindow(parquet, q.(cursor := Some(t)))
  {}

  lemma AfterLast(parquet: seq<Candle>, realtime: seq<Candle>, q: Request, n: nat)
    requires 0 < n <= |Remaining(parquet, realtime, q)|
    ensures var r := Remaining(parquet, realtime, q);
      && After(q, r[n - 1].ts) && InWindow(q, r[n - 1].ts)
      && Remaining(parquet, realtime, q.(cursor := Some(r[n - 1].ts))) == r[n..]
  {
    hide Overlay, Rows, Realtime, Index, Beyond, Timeline, Keyed;
    var r := Remaining(parquet, realtime, q);
    var q' := q.(cursor := Some(r[n - 1].ts));
    RemainingRows(parquet, realtime, q);
    OverlayKeyed(parquet, realtime, q);
    OverlayIgnoresCursor(parquet, realtime, q, q'.cursor);
    var all := Overlay(parquet, realtime, q);
    var m := map k | k in all && After(q, k) :: all[k];
    assert Keyed(m) by { PartKeyed(all, m); }
    assert r == Rows(m);
    assert r[n - 1] in r;
    assert Beyond(m, r[n - 1].ts) == map k | k in all && After(q', k) :: all[k];
    RowsAfter(m, n);
  }

  lemma OverlayIgnoresCursor(parquet: seq<Candle>, realtime: seq<Candle>, q: Request, cursor: Option<int>)
    ensures Overlay(parquet, realtime, q.(cursor := cursor)) == Overlay(parquet, realtime, q)
  {
    SameReads(realtime, q, cursor);
    WindowIgnoresCursor(Index(parquet) + Index(Realtime(realtime, q)), q, cursor);
    hide Index, Realtime, Window;
  }

  lemma PartKeyed(all: map<int, Candle>, m: map<int, Candle>)
    requires Keyed(all) && forall k :: k in m ==> k in all && m[k] == all[k]
    ensures Keyed(m)
  {}

  lemma WindowIgnoresCursor(m: map<int, Candle>, q: Request, cursor: Option<int>)
    ensures Window(m, q.(cursor := cursor)) == Window(m, q)
  {}

  /** The client's walk: request pages until none announces a successor. */
  ghost function Follow(parquet: seq<Candle>, realtime: seq<Candle>, q: Request): seq<Candle>
    requires Sources(parquet, realtime, q)
    decreases |Remaining(parquet, realtime, q)|
  {
    var p := Serve(parquet, realtime, q);
    if p.next.None? then p.candles
    else
      NextSources(parquet, realtime, q);
      NextRemaining(parquet, realtime, q);
      p.candles + Follow(parquet, realtime, NextRequest(q, p))
  }

  /** The walk terminates and its pages, put together, are a prefix of the overlay after the cursor:
      strictly increasing, without repeats or gaps. */
  lemma {:induction false} FollowIsPrefix(parquet: seq<Candle>, realtime: seq<Candle>, q: Request)
    requires Sources(parquet, realtime, q)
    ensures Follow(parquet, realtime, q) <= Remaining(parquet, realtime, q)
    ensures Timeline(Follow(parquet, realtime, q))
    decreases |Remaining(parquet, realtime, q)|
  {
    PageIsHeadOfRemaining(parquet, realtime, q);
    RemainingRows(parquet, realtime, q);
    FollowStep(parquet, realtime, q);
    hide *;
    var p := Serve(parquet, realtime, q);
    if p.next.Some? {
      NextRemaining(parquet, realtime, q);
      FollowIsPrefix(parquet, realtime, NextRequest(q, p));
      PrefixStep(p.candles, Follow(parquet, realtime, NextRequest(q, p)), Remaining(parquet, realtime, q));
    } else {
      TakeIsPrefix(Remaining(parquet, realtime, q), q.limit);
    }
    PrefixTimeline(Follow(parquet, realtime, q), Remaining(parquet, realtime, q));
  }

  /** One step of the walk. */
  lemma FollowStep(parquet: seq<Candle>, realtime: seq<Candle>, q: Request)
    requires Sources(parquet, realtime, q)
    ensures var p := Serve(parquet, realtime, q);
      && (p.next.None? ==> Follow(parquet, realtime, q) == p.candles)
      && (p.next.Some? ==> Sources(parquet, realtime, NextRequest(q, p)))
      && (p.next.Some? ==> Follow(parquet, realtime, q) == p.candles + Follow(parquet, realtime, NextRequest(q, p)))
  {
    if Serve(parquet, realtime, q).next.Some? {
      NextSources(parquet, realtime, q);
      NextRemaining(parquet, realtime, q);
    }
    hide Serve, Remaining;
  }

  lemma PrefixStep(p: seq<Candle>, f: seq<Candle>, all: seq<Candle>)
    requires |p| <= |all| && p == all[..|p|] && f <= all[|p|..]
    ensures p + f <= all
    ensures f == all[|p|..] ==> p + f == all
  {}

  lemma TakeIsPrefix(s: seq<Candle>, n: nat)
    ensures Take(s, n) <= s
    ensures |Take(s, n)| == |s| ==> Take(s, n) == s
  {}

  lemma PrefixTimeline(p: seq<Candle>, s: seq<Candle>)
    requires Timeline(s) && p <= s
    ensures Timeline(p)
  {}

  /** Realtime is empty, or its last row is later than every historical row of the window. */
  ghost predicate RealtimeLeads(parquet: seq<Candle>, realtime: seq<Candle>, q: Request) {
    Realtime(realtime, q) == [] ||
    exists r :: r in Realtime(realtime, q) && InWindow(q, r.ts)
      && forall c :: c in parquet && InWindow(q, c.ts) ==> c.ts < r.ts
  }

  lemma LeaderIsNewer(parquet: seq<Candle>, realtime: seq<Candle>, q: Request, r: Candle)
    requires Sources(parquet, realtime, q) && |Query(parquet, q)| > q.limit >= 1
    requires r in Realtime(realtime, q) && InWindow(q, r.ts)
    requires forall c :: c in parquet && InWindow(q, c.ts) ==> c.ts < r.ts
    ensures r.ts in Newer(realtime, q) && r.ts !in Index(Take(Query(parquet, q), q.limit))
  {
    var rows := Query(parquet, q);
    var page := Take(rows, q.limit);
    WindowedQuery(parquet, q);
    TakeSubset(rows, q.limit);
    assert rows[0] in rows;
    assert After(q, rows[0].ts) && rows[0].ts < r.ts;
    IndexOf(Select(Realtime(realtime, q), (c: Candle) => After(q, c.ts)));
    IndexOf(page);
    assert r in Select(Realtime(realtime, q), (c: Candle) => After(q, c.ts));
    hide Index, Realtime, Select, Take;
    forall k | k in Index(page) ensures k < r.ts {
      assert Index(page)[k] in page && Index(page)[k] in parquet;
    }
  }

  lemma LeadsNeverStopsEarly(parquet: seq<Candle>, realtime: seq<Candle>, q: Request)
    requires Sources(parquet, realtime, q) && q.limit >= 1 && RealtimeLeads(parquet, realtime, q)
    ensures !StopsEarly(parquet, realtime, q)
  {
    StopsEarlyIff(parquet, realtime, q);
    if Realtime(realtime, q) != [] && |Query(parquet, q)| > q.limit {
      var r :| r in Realtime(realtime, q) && InWindow(q, r.ts)
        && forall c :: c in parquet && InWindow(q, c.ts) ==> c.ts < r.ts;
      LeaderIsNewer(parquet, realtime, q, r);
    }
  }

  /** Following `next_ts` to its end yields the whole overlay after the cursor, whenever realtime is
      empty or its last row is later than every historical row of the window. */
  lemma {:induction false} FollowIsWhole(parquet: seq<Candle>, realtime: seq<Candle>, q: Request)
    requires Sources(parquet, realtime, q) && q.limit >= 1 && RealtimeLeads(parquet, realtime, q)
    ensures Follow(parquet, realtime, q) == Remaining(parquet, realtime, q)
    decreases |Remaining(parquet, realtime, q)|
  {
    LeadsNeverStopsEarly(parquet, realtime, q);
    PageIsHeadOfRemaining(parquet, realtime, q);
    FollowStep(parquet, realtime, q);
    var p := Serve(parquet, realtime, q);
    TakeIsPrefix(Remaining(parquet, realtime, q), q.limit);
    if p.next.Some? { LeadsNext(parquet, realtime, q, p.next); }
    assert p.next.None? ==> |p.candles| >= |Remaining(parquet, realtime, q)|;
    hide *;
    if p.next.Some? {
      NextRemaining(parquet, realtime, q);
      SameLimit(q, p);
      FollowIsWhole(parquet, realtime, NextRequest(q, p));
      PrefixStep(p.candles, Follow(parquet, realtime, NextRequest(q, p)), Remaining(parquet, realtime, q));
    }
  }

  lemma SameLimit(q: Request, p: Page)
    requires p.next.Some?
    ensures NextRequest(q, p) == q.(cursor := p.next)
  {}

  lemma LeadsNext(parquet: seq<Candle>, realtime: seq<Candle>, q: Request, cursor: Option<int>)
    requires RealtimeLeads(parquet, realtime, q)
    ensures RealtimeLeads(parquet, realtime, q.(cursor := cursor))
  {
    SameReads(realtime, q, cursor);
    assert forall t :: InWindow(q.(cursor := cursor), t) == InWindow(q, t);
    hide Realtime;
  }

  lemma {:induction false} SameSelection(s: seq<Candle>, p: Candle -> bool, p': Candle -> bool)
    requires forall c :: p(c) == p'(c)
    ensures Select(s, p) == Select(s, p')
  {
    if s != [] { SameSelection(s[1..], p, p'); }
  }

  /** The realtime read does not depend on the cursor. */
  lemma SameReads(realtime: seq<Candle>, q: Request, cursor: Option<int>)
    ensures Realtime(realtime, q.(cursor := cursor)) == Realtime(realtime, q)
  {
    var q' := q.(cursor := cursor);
    assert forall t :: InRead(q', t) == InRead(q, t);
    SameSelection(realtime, (c: Candle) => InRead(q', c.ts), (c: Candle) => InRead(q, c.ts));
  }

  // ---- cursors before the window ----

  /** What the stitcher merges when some realtime row was read: the cut page and the newer rows, in the window. */
  function Merge(parquet: seq<Candle>, realtime: seq<Candle>, q: Request): map<int, Candle> {
    Window(Index(Take(Query(parquet, q), q.limit)), q) + Newer(realtime, q)
  }

  /** The same without the cut. */
  function FullMerge(parquet: seq<Candle>, realtime: seq<Candle>, q: Request): map<int, Candle> {
    Window(Index(Query(parquet, q)), q) + Newer(realtime, q)
  }

  /** The window's rows of the historical query that were cut off before the merge and that no realtime
      row replaces. */
  function Lost(parquet: seq<Candle>, realtime: seq<Candle>, q: Request): set<int> {
    FullMerge(parquet, realtime, q).Keys - Merge(parquet, realtime, q).Keys
  }

  /** A map and a part of it have the same first `n` rows exactly when nothing is missing from the part,
      or the part has `n` rows before the first that is. */
  lemma SameHeadIff(part: map<int, Candle>, whole: map<int, Candle>, n: nat)
    requires Keyed(part) && Keyed(whole) && part.Keys <= whole.Keys && forall k :: k in part ==> part[k] == whole[k]
    ensures Take(Rows(part), n) == Take(Rows(whole), n) <==>
      var lost := whole.Keys - part.Keys;
      lost == {} || |Upto(part, Least(lost) - 1)| >= n
  {
    hide Rows, Take;
    var lost := whole.Keys - part.Keys;
    if lost == {} {
      assert forall k :: k in whole ==> k !in lost;
      SameEntries(part, whole);
    } else {
      var t := Least(lost) - 1;
      forall k | k <= t ensures k in part <==> k in whole { assert k !in lost; }
      SameUpto(part, whole, t);
      if |Upto(part, t)| >= n {
        SameHead(part, whole, t, n);
      } else {
        assert t + 1 in lost;
        FirstBeyond(whole, t, n);
        NeverTaken(part, t + 1, n);
      }
    }
  }

  /** The row right after the first `|Upto(m, t)|` rows is taken when more than those are taken. */
  lemma FirstBeyond(m: map<int, Candle>, t: int, n: nat)
    requires Keyed(m) && t + 1 in m && |Upto(m, t)| < n
    ensures m[t + 1] in Take(Rows(m), n)
  {
    hide *;
    RowsSplit(m, t);
    RowsOf(Upto(m, t));
    EarliestBeyond(m, t);
    TakeReaches(Rows(Upto(m, t)), Rows(Beyond(m, t)), n);
  }

  lemma EarliestBeyond(m: map<int, Candle>, t: int)
    requires Keyed(m) && t + 1 in m
    ensures Rows(Beyond(m, t)) != [] && Rows(Beyond(m, t))[0] == m[t + 1]
  {
    var rest := Rows(Beyond(m, t));
    RowsOf(Beyond(m, t));
    hide Rows;
    assert m[t + 1] in rest;
    var i :| 0 <= i < |rest| && rest[i] == m[t + 1];
    assert rest[0] in rest;
    assert i == 0;
  }

  lemma TakeReaches(lo: seq<Candle>, hi: seq<Candle>, n: nat)
    requires |lo| < n && hi != []
    ensures hi[0] in Take(lo + hi, n)
  {
    assert Take(lo + hi, n)[|lo|] == hi[0];
  }

  lemma NeverTaken(m: map<int, Candle>, k: int, n: nat)
    requires Keyed(m) && k !in m
    ensures forall c :: c in Take(Rows(m), n) ==> c.ts != k
  {
    RowsOf(m);
    TakeSubset(Rows(m), n);
    hide Rows, Take;
  }

  lemma MergedPage(parquet: seq<Candle>, realtime: seq<Candle>, q: Request)
    requires Realtime(realtime, q) != []
    ensures Serve(parquet, realtime, q).candles == Take(Rows(Merge(parquet, realtime, q)), q.limit)
  {
    hide Index, Rows, Window, Select, Query, Realtime, Take;
    WindowSum(Index(Take(Query(parquet, q), q.limit)), Index(Select(Realtime(realtime, q), (c: Candle) => After(q, c.ts))), q);
  }

  lemma RemainingIsFullMerge(parquet: seq<Candle>, realtime: seq<Candle>, q: Request)
    requires Timeline(parquet) && Timeline(realtime)
    ensures Remaining(parquet, realtime, q) == Rows(FullMerge(parquet, realtime, q))
  {
    UncutIsRemaining(parquet, realtime, q);
    hide Index, Rows, Window, Select, Query, Realtime, Remaining;
    WindowSum(Index(Query(parquet, q)), Index(Select(Realtime(realtime, q), (c: Candle) => After(q, c.ts))), q);
  }

  /** Cutting the historical rows takes entries out of the merge and changes none. */
  lemma MergeIsPart(parquet: seq<Candle>, realtime: seq<Candle>, q: Request)
    requires Timeline(parquet)
    ensures var part, whole := Merge(parquet, realtime, q), FullMerge(parquet, realtime, q);
      Keyed(part) && Keyed(whole) && part.Keys <= whole.Keys && forall k :: k in part ==> part[k] == whole[k]
  {
    var rows := Query(parquet, q);
    var page := Take(rows, q.limit);
    SelectTimeline(parquet, (c: Candle) => InQuery(q, c.ts));
    TakeTimeline(rows, q.limit);
    TakeSubset(rows, q.limit);
    NewerKeyed(realtime, q);
    IndexOfTimeline(rows);
    IndexOfTimeline(page);
    hide Index, Query, Newer, Take, Timeline;
    forall k | k in Index(page) ensures k in Index(rows) && Index(rows)[k] == Index(page)[k] {
      assert Index(page)[k] in page;
    }
  }

  /** When the page of a request is the head of the overlay after the cursor, cursor or no cursor. On
      historical rows alone: exactly when the query selects no row before the requested window. With
      realtime rows: exactly when no window row is lost to the cut, or `limit` rows of the merge lie
      before the first one lost. */
  lemma PageIsHeadIff(parquet: seq<Candle>, realtime: seq<Candle>, q: Request)
    requires Timeline(parquet) && Timeline(realtime) && q.limit >= 1
    ensures Serve(parquet, realtime, q).candles == Take(Remaining(parquet, realtime, q), q.limit) <==>
      if Realtime(realtime, q) == [] then CursorInWindow(parquet, q)
      else
        var lost := Lost(parquet, realtime, q);
        lost == {} || |Upto(Merge(parquet, realtime, q), Least(lost) - 1)| >= q.limit
  {
    hide Serve, Remaining, Take, Timeline, Realtime, Merge, CursorInWindow, Lost, Upto;
    if Realtime(realtime, q) == [] {
      HistoricalPageIff(parquet, realtime, q);
    } else {
      MixedPageIff(parquet, realtime, q);
    }
  }

  lemma MixedPageIff(parquet: seq<Candle>, realtime: seq<Candle>, q: Request)
    requires Timeline(parquet) && Timeline(realtime) && Realtime(realtime, q) != []
    ensures Serve(parquet, realtime, q).candles == Take(Remaining(parquet, realtime, q), q.limit) <==>
      var lost := Lost(parquet, realtime, q);
      lost == {} || |Upto(Merge(parquet, realtime, q), Least(lost) - 1)| >= q.limit
  {
    hide *;
    MergedPage(parquet, realtime, q);
    RemainingIsFullMerge(parquet, realtime, q);
    MergeIsPart(parquet, realtime, q);
    LostIs(parquet, realtime, q);
    SameHeadIff(Merge(parquet, realtime, q), FullMerge(parquet, realtime, q), q.limit);
  }

  lemma LostIs(parquet: seq<Candle>, realtime: seq<Candle>, q: Request)
    ensures Lost(parquet, realtime, q) == FullMerge(parquet, realtime, q).Keys - Merge(parquet, realtime, q).Keys
  {}

  lemma HistoricalPageIff(parquet: seq<Candle>, realtime: seq<Candle>, q: Request)
    requires Timeline(parquet) && Timeline(realtime) && Realtime(realtime, q) == [] && q.limit >= 1
    ensures Serve(parquet, realtime, q).candles == Take(Remaining(parquet, realtime, q), q.limit)
      <==> CursorInWindow(parquet, q)
  {
    hide Serve, Remaining, Take, Timeline, Realtime;
    if CursorInWindow(parquet, q) {
      PageIsHeadOfRemaining(parquet, realtime, q);
    } else {
      ServesRowBeforeWindow(parquet, realtime, q);
      RemainingInWindow(parquet, realtime, q);
    }
  }

  /** Without realtime rows the page starts with the first queried row, in the window or not. */
  lemma ServesRowBeforeWindow(parquet: seq<Candle>, realtime: seq<Candle>, q: Request)
    requires Timeline(parquet) && Realtime(realtime, q) == [] && q.limit >= 1 && !CursorInWindow(parquet, q)
    ensures exists c :: c in Serve(parquet, realtime, q).candles && !InWindow(q, c.ts)
  {
    var rows := Query(parquet, q);
    SelectTimeline(parquet, (c: Candle) => InQuery(q, c.ts));
    var c :| c in parquet && InQuery(q, c.ts) && !InWindow(q, c.ts);
    assert c in rows;
    var i :| 0 <= i < |rows| && rows[i] == c;
    assert rows[0] in rows && rows[0].ts <= c.ts;
    assert Serve(parquet, realtime, q).candles[0] == rows[0];
  }

  lemma RemainingInWindow(parquet: seq<Candle>, realtime: seq<Candle>, q: Request)
    ensures forall c :: c in Take(Remaining(parquet, realtime, q), q.limit) ==> InWindow(q, c.ts)
  {
    RemainingRows(parquet, realtime, q);
    TakeSubset(Remaining(parquet, realtime, q), q.limit);
    hide Remaining;
  }

  function Flat(ts: int, price: real): Candle { Candle(ts, price, price, price, price, 0.0) }

  lemma {:induction false} SelectAll(s: seq<Candle>, p: Candle -> bool)
    requires forall c :: c in s ==> p(c)
    ensures Select(s, p) == s
  {
    if s != [] {
      assert s == [s[0]] + s[1..];
      SelectAll(s[1..], p);
    }
  }

  // ---- a walk that ends too soon ----

  /** One realtime row on the first of two historical rows and pages of one row: the walk returns one
      row of two. */
  lemma WalkCanStopEarly()
    ensures var parquet, realtime := [Flat(1000000020, 1.0), Flat(1000000080, 2.0)], [Flat(1000000020, 3.0)];
      var q := Request(None, Some(2000000000), 1, None, 2000000000, true);
      Sources(parquet, realtime, q) && StopsEarly(parquet, realtime, q)
  {
    var a, b, r := Flat(1000000020, 1.0), Flat(1000000080, 2.0), Flat(1000000020, 3.0);
    var parquet, realtime := [a, b], [r];
    var q := Request(None, Some(2000000000), 1, None, 2000000000, true);
    SelectAll(parquet, (c: Candle) => InQuery(q, c.ts));
    SelectAll(realtime, (c: Candle) => InRead(q, c.ts));
    SelectAll(realtime, (c: Candle) => After(q, c.ts));
    assert [r][..0] == [] && [a][..0] == [];
    assert Index([r]) == map[1000000020 := r];
    assert Index([a]) == map[1000000020 := a];
    assert Take([a, b], 1) == [a];
    StopsEarlyIff(parquet, realtime, q);
  }

  const FAR := Flat(60, 1.0)
  const NEAR := Flat(1020, 2.0)
  const LIVE := Flat(2000, 3.0)
  const EARLY_CURSOR := Request(Some(1000), None, 1, Some(0), 5000, true)

  lemma EarlyCursorReads()
    ensures Query([FAR, NEAR], EARLY_CURSOR) == [FAR, NEAR] && Realtime([LIVE], EARLY_CURSOR) == [LIVE]
    ensures Select([LIVE], (c: Candle) => After(EARLY_CURSOR, c.ts)) == [LIVE]
  {
    SelectAll([FAR, NEAR], (c: Candle) => InQuery(EARLY_CURSOR, c.ts));
    SelectAll([LIVE], (c: Candle) => InRead(EARLY_CURSOR, c.ts));
    SelectAll([LIVE], (c: Candle) => After(EARLY_CURSOR, c.ts));
  }

  lemma EarlyCursorMerges()
    ensures Merge([FAR, NEAR], [LIVE], EARLY_CURSOR) == map[2000 := LIVE]
    ensures FullMerge([FAR, NEAR], [LIVE], EARLY_CURSOR) == map[1020 := NEAR, 2000 := LIVE]
  {
    hide Select, Index, Realtime, Query;
    EarlyCursorReads();
    Indexes(FAR, NEAR, LIVE);
    assert Take([FAR, NEAR], 1) == [FAR];
    assert Window(Index([LIVE]), EARLY_CURSOR) == map[2000 := LIVE];
    assert Window(Index([FAR]), EARLY_CURSOR) == map[];
    assert Window(Index([FAR, NEAR]), EARLY_CURSOR) == map[1020 := NEAR];
  }

  /** A cursor before the window: the one queried row lies before the window and is dropped, the page is
      the realtime row at 2000, and the historical row at 1020 is skipped for good. */
  lemma CursorBeforeWindowSkipsARow()
    ensures Timeline([FAR, NEAR]) && Timeline([LIVE])
    ensures Serve([FAR, NEAR], [LIVE], EARLY_CURSOR).candles == [LIVE]
    ensures Take(Remaining([FAR, NEAR], [LIVE], EARLY_CURSOR), 1) == [NEAR]
  {
    hide Select, Index, Realtime, Query, Serve, Remaining, Rows, Merge, FullMerge;
    EarlyCursorReads();
    EarlyCursorMerges();
    MergedPage([FAR, NEAR], [LIVE], EARLY_CURSOR);
    RemainingIsFullMerge([FAR, NEAR], [LIVE], EARLY_CURSOR);
    OneRow(LIVE);
    TwoRows(NEAR, LIVE);
  }

  lemma Indexes(a: Candle, b: Candle, r: Candle)
    requires a.ts < b.ts
    ensures Index([a]) == map[a.ts := a] && Index([r]) == map[r.ts := r]
    ensures Index([a, b]) == map[a.ts := a, b.ts := b]
  {
    assert [a][..0] == [] && [r][..0] == [] && [a, b][..1] == [a];
  }

  lemma OneRow(r: Candle)
    ensures Rows(map[r.ts := r]) == [r]
  {
    RowsOf(map[r.ts := r]);
    hide Rows;
    TimelinesEqual(Rows(map[r.ts := r]), [r]);
  }

  lemma TwoRows(b: Candle, r: Candle)
    requires b.ts < r.ts
    ensures Rows(map[b.ts := b, r.ts := r]) == [b, r]
  {
    RowsOf(map[b.ts := b, r.ts := r]);
    hide Rows;
    TimelinesEqual(Rows(map[b.ts := b, r.ts := r]), [b, r]);
  }
}
