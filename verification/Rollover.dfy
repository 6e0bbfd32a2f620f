/** Moving live candles from the CSV store into monthly partitions, with whole days quarantined when they
    contain an implausible jump. */
module Rollover {
  import opened Series

  // ---- sorting ----

  /** After every candle that is not later: equal timestamps keep their order. */
  function Insert(s: seq<Candle>, c: Candle): seq<Candle> {
    if s == [] || s[|s| - 1].ts <= c.ts then s + [c]
    else Insert(s[..|s| - 1], c) + [s[|s| - 1]]
  }

  /** Python's `sorted` by timestamp. */
  function StableSort(s: seq<Candle>): seq<Candle> {
    if s == [] then [] else Insert(StableSort(s[..|s| - 1]), s[|s| - 1])
  }

  lemma {:induction false} InsertAdds(s: seq<Candle>, c: Candle)
    ensures multiset(Insert(s, c)) == multiset(s) + multiset{c}
  {
    if s != [] && s[|s| - 1].ts > c.ts {
      var n := |s| - 1;
      InsertAdds(s[..n], c);
      assert s == s[..n] + [s[n]];
    }
  }

  ghost predicate Bounded(s: seq<Candle>, limit: int) {
    forall x :: x in s ==> x.ts <= limit
  }

  lemma PushSorted(s: seq<Candle>, c: Candle, limit: int)
    requires SortedByTime(s) && Bounded(s, c.ts) && c.ts <= limit
    ensures SortedByTime(s + [c]) && Bounded(s + [c], limit)
  {
    assert forall i :: 0 <= i < |s| ==> s[i] in s;
  }

  lemma PopSorted(s: seq<Candle>)
    requires s != [] && SortedByTime(s)
    ensures var n := |s| - 1;
      SortedByTime(s[..n]) && Bounded(s[..n], s[n].ts) && Bounded(s, s[n].ts) && s == s[..n] + [s[n]]
  {}

  lemma Loosen(s: seq<Candle>, a: int, b: int)
    requires Bounded(s, a) && a <= b
    ensures Bounded(s, b)
  {}

  lemma {:induction false} InsertSorts(s: seq<Candle>, c: Candle, limit: int)
    requires SortedByTime(s) && c.ts <= limit && Bounded(s, limit)
    ensures SortedByTime(Insert(s, c)) && Bounded(Insert(s, c), limit)
  {
    hide SortedByTime, Bounded;
    if s == [] {
      NothingSorted(c.ts);
      PushSorted(s, c, limit);
    } else {
      var n := |s| - 1;
      PopSorted(s);
      if s[n].ts <= c.ts {
        Loosen(s, s[n].ts, c.ts);
        PushSorted(s, c, limit);
      } else {
        InsertSorts(s[..n], c, s[n].ts);
        LastBounded(s, limit);
        PushSorted(Insert(s[..n], c), s[n], limit);
      }
    }
  }

  lemma NothingSorted(limit: int)
    ensures SortedByTime([]) && Bounded([], limit)
  {}

  lemma LastBounded(s: seq<Candle>, limit: int)
    requires s != [] && Bounded(s, limit)
    ensures s[|s| - 1].ts <= limit
  {}

  lemma {:induction false} StableSortSorts(s: seq<Candle>)
    ensures SortedByTime(StableSort(s)) && multiset(StableSort(s)) == multiset(s)
  {
    hide Insert, SortedByTime;
    if s == [] {
      NothingSorted(0);
    } else {
      var n := |s| - 1;
      StableSortSorts(s[..n]);
      var front := StableSort(s[..n]);
      InsertAdds(front, s[n]);
      assert s == s[..n] + [s[n]];
      InsertSorts(front, s[n], Latest(front, s[n].ts));
    }
  }

  /** A bound on the timestamps. */
  function Latest(s: seq<Candle>, least: int): (r: int)
    ensures least <= r && Bounded(s, r)
  {
    if s == [] then least
    else
      var n := |s| - 1;
      assert s == s[..n] + [s[n]];
      var r := Latest(s[..n], least);
      if s[n].ts > r then s[n].ts else r
  }

  lemma {:induction false} SortedStays(s: seq<Candle>)
    requires SortedByTime(s)
    ensures StableSort(s) == s
  {
    if s != [] {
      var n := |s| - 1;
      SortedStays(s[..n]);
      assert s == s[..n] + [s[n]];
    }
  }

  // ---- quarantine ----

  function Day(ts: int): int {
    ts / 86400
  }

  function Abs(x: real): real { if x < 0.0 then -x else x }

  predicate Jumps(previous: Candle, current: Candle, limit: real) {
    current.ts - previous.ts == 60 && previous.close > 0.0 && Abs(current.close / previous.close - 1.0) * 100.0 > limit
  }

  datatype Anomaly = Anomaly(at: int, previousClose: real, close: real)

  function AnomalyOf(previous: Candle, current: Candle): Anomaly {
    Anomaly(current.ts, previous.close, current.close)
  }

  function BadDays(s: seq<Candle>, limit: real): set<int> {
    set i | 0 < i < |s| && Jumps(s[i - 1], s[i], limit) :: Day(s[i].ts)
  }

  predicate JumpsAt(s: seq<Candle>, i: int, day: int, limit: real) {
    0 < i < |s| && Jumps(s[i - 1], s[i], limit) && Day(s[i].ts) == day
  }

  lemma BadDaysAre(s: seq<Candle>, limit: real)
    ensures forall d :: d in BadDays(s, limit) <==> exists i :: 0 < i < |s| && JumpsAt(s, i, d, limit)
  {
    hide Jumps, Day;
    forall d ensures d in BadDays(s, limit) <==> exists i :: 0 < i < |s| && JumpsAt(s, i, d, limit) {
      if d in BadDays(s, limit) {
        var i :| 0 < i < |s| && Jumps(s[i - 1], s[i], limit) && Day(s[i].ts) == d;
        assert JumpsAt(s, i, d, limit);
      }
    }
  }

  function Anomalies(s: seq<Candle>, limit: real): seq<Anomaly> {
    if |s| < 2 then []
    else
      var n := |s| - 1;
      Anomalies(s[..n], limit) + if Jumps(s[n - 1], s[n], limit) then [AnomalyOf(s[n - 1], s[n])] else []
  }

  /** The candles whose day is not excluded, in order. */
  function Keep(s: seq<Candle>, excluded: set<int>): seq<Candle> {
    if s == [] then []
    else
      var n := |s| - 1;
      Keep(s[..n], excluded) + if Day(s[n].ts) !in excluded then [s[n]] else []
  }

  method QuarantineAnomalousDays(candles: seq<Candle>, limit: real)
    returns (filtered: seq<Candle>, badDays: set<int>, anomalies: seq<Anomaly>)
    ensures badDays == BadDays(StableSort(candles), limit)
    ensures filtered == Keep(StableSort(candles), badDays)
    ensures anomalies == Anomalies(StableSort(candles), limit)
  {
    var ordered := StableSort(candles);
    badDays := {};
    anomalies := [];
    hide Jumps, StableSort, Day;
    if ordered != [] {
      for i := 1 to |ordered|
        invariant badDays == BadDays(ordered[..i], limit)
        invariant anomalies == Anomalies(ordered[..i], limit)
      {
        var previous, current := ordered[i - 1], ordered[i];
        assert ordered[..i + 1][..i] == ordered[..i];
        BadDaysGrow(ordered[..i + 1], limit);
        if Jumps(previous, current, limit) {
          badDays := badDays + {Day(current.ts)};
          anomalies := anomalies + [AnomalyOf(previous, current)];
        }
      }
      assert ordered[..|ordered|] == ordered;
    }
    filtered := [];
    for i := 0 to |ordered|
      invariant filtered == Keep(ordered[..i], badDays)
    {
      assert ordered[..i + 1][..i] == ordered[..i];
      if Day(ordered[i].ts) !in badDays {
        filtered := filtered + [ordered[i]];
      }
    }
    assert ordered[..|ordered|] == ordered;
  }

  lemma BadDaysGrow(s: seq<Candle>, limit: real)
    requires |s| > 1
    ensures var n := |s| - 1;
      BadDays(s, limit) == BadDays(s[..n], limit) + if Jumps(s[n - 1], s[n], limit) then {Day(s[n].ts)} else {}
  {
    var n := |s| - 1;
    BadDaysAre(s, limit);
    BadDaysAre(s[..n], limit);
    hide Jumps, Day, BadDays;
    forall d ensures d in BadDays(s, limit) <==> d in BadDays(s[..n], limit) || JumpsAt(s, n, d, limit) {
      if i :| 0 < i < |s| && JumpsAt(s, i, d, limit) { assert i < n ==> JumpsAt(s[..n], i, d, limit); }
      if i :| 0 < i < n && JumpsAt(s[..n], i, d, limit) { assert JumpsAt(s, i, d, limit); }
    }
  }

  lemma {:induction false} KeepCounts(s: seq<Candle>, excluded: set<int>, c: Candle)
    ensures multiset(Keep(s, excluded))[c] == if Day(c.ts) in excluded then 0 else multiset(s)[c]
  {
    if s != [] {
      var n := |s| - 1;
      KeepCounts(s[..n], excluded, c);
      assert s == s[..n] + [s[n]];
    }
  }

  lemma {:induction false} KeepSorted(s: seq<Candle>, excluded: set<int>)
    requires SortedByTime(s)
    ensures SortedByTime(Keep(s, excluded))
    ensures forall c :: c in Keep(s, excluded) ==> c in s
  {
    if s != [] {
      var n := |s| - 1;
      KeepSorted(s[..n], excluded);
      assert s == s[..n] + [s[n]];
      assert s[n] in s;
      var r := Keep(s[..n], excluded);
      hide Day;
      forall i | 0 <= i < |r| ensures r[i].ts <= s[n].ts {
        assert r[i] in s[..n];
      }
    }
  }

  /** Whole days are kept or dropped: every kept day keeps all its candles, however often they occur. */
  lemma WholeDays(candles: seq<Candle>, limit: real)
    ensures var ordered := StableSort(candles);
      var bad := BadDays(ordered, limit);
      var kept := Keep(ordered, bad);
      && SortedByTime(kept)
      && forall c :: multiset(kept)[c] == if Day(c.ts) in bad then 0 else multiset(candles)[c]
  {
    StableSortSorts(candles);
    var ordered := StableSort(candles);
    var bad := BadDays(ordered, limit);
    KeepSorted(ordered, bad);
    hide Day, Keep, StableSort, BadDays;
    forall c: Candle ensures multiset(Keep(ordered, bad))[c] == if Day(c.ts) in bad then 0 else multiset(candles)[c] {
      KeepCounts(ordered, bad, c);
    }
  }

  /** Two neighbours after filtering were neighbours before, or a whole excluded day lies between them. */
  lemma {:induction false} Neighbours(s: seq<Candle>, excluded: set<int>, k: nat)
    requires SortedByTime(s) && 0 < k < |Keep(s, excluded)|
    ensures var r := Keep(s, excluded);
      (exists i :: 0 < i < |s| && s[i - 1] == r[k - 1] && s[i] == r[k]) || Day(r[k - 1].ts) + 1 < Day(r[k].ts)
  {
    var n := |s| - 1;
    var front := Keep(s[..n], excluded);
    var r := Keep(s, excluded);
    if k < |front| {
      Neighbours(s[..n], excluded, k);
      if i :| 0 < i < n && s[..n][i - 1] == r[k - 1] && s[..n][i] == r[k] { assert s[i - 1] == r[k - 1] && s[i] == r[k]; }
    } else {
      assert r[k] == s[n];
      LastKept(s[..n], excluded);
      var i :| 0 <= i < n && s[..n][i] == front[k - 1] && forall j :: i < j < n ==> Day(s[..n][j].ts) in excluded;
      assert s[i] == r[k - 1];
      if i == n - 1 {
        assert s[n - 1] == r[k - 1] && s[n] == r[k];
      } else {
        assert Day(s[..n][i + 1].ts) in excluded;
        KeptDays(s, excluded);
        assert r[k - 1] in r && r[k] in r;
        assert s[i].ts <= s[i + 1].ts <= s[n].ts;
        DayMonotone(s[i].ts, s[i + 1].ts);
        DayMonotone(s[i + 1].ts, s[n].ts);
      }
    }
  }

  lemma DayMonotone(a: int, b: int)
    requires a <= b
    ensures Day(a) <= Day(b)
  {}

  lemma {:induction false} KeptDays(s: seq<Candle>, excluded: set<int>)
    ensures forall c :: c in Keep(s, excluded) ==> Day(c.ts) !in excluded
  {
    if s != [] { KeptDays(s[..|s| - 1], excluded); }
  }

  lemma {:induction false} LastKept(s: seq<Candle>, excluded: set<int>)
    requires Keep(s, excluded) != []
    ensures var r := Keep(s, excluded);
      exists i :: 0 <= i < |s| && s[i] == r[|r| - 1] && forall j :: i < j < |s| ==> Day(s[j].ts) in excluded
  {
    var n := |s| - 1;
    if Day(s[n].ts) in excluded {
      LastKept(s[..n], excluded);
      var r := Keep(s[..n], excluded);
      assert Keep(s, excluded) == r;
      var i :| 0 <= i < n && s[..n][i] == r[|r| - 1] && forall j :: i < j < n ==> Day(s[..n][j].ts) in excluded;
      forall j | i < j < |s| ensures Day(s[j].ts) in excluded {
        if j < n { assert s[j] == s[..n][j]; }
      }
      assert s[i] == r[|r| - 1];
    } else {
      assert s[n] == Keep(s, excluded)[|Keep(s, excluded)| - 1];
    }
  }

  /** What is kept holds no jump above the limit between consecutive minutes. */
  lemma NoJumpsRemain(candles: seq<Candle>, limit: real)
    ensures var ordered := StableSort(candles);
      var kept := Keep(ordered, BadDays(ordered, limit));
      forall k :: 0 < k < |kept| ==> !Jumps(kept[k - 1], kept[k], limit)
  {
    var ordered := StableSort(candles);
    var bad := BadDays(ordered, limit);
    var kept := Keep(ordered, bad);
    StableSortSorts(candles);
    KeptDays(ordered, bad);
    BadDaysAre(ordered, limit);
    forall k | 0 < k < |kept| ensures !Jumps(kept[k - 1], kept[k], limit) {
      Neighbours(ordered, bad, k);
      assert kept[k] in kept;
      if i :| 0 < i < |ordered| && ordered[i - 1] == kept[k - 1] && ordered[i] == kept[k] {
        assert Jumps(kept[k - 1], kept[k], limit) == JumpsAt(ordered, i, Day(kept[k].ts), limit);
      }
      hide StableSort, Keep, BadDays;
    }
  }

  lemma {:induction false} KeepAll(s: seq<Candle>)
    ensures Keep(s, {}) == s
  {
    if s != [] {
      KeepAll(s[..|s| - 1]);
      assert s == s[..|s| - 1] + [s[|s| - 1]];
    }
  }

  lemma {:induction false} NoAnomalies(s: seq<Candle>, limit: real)
    requires forall k :: 0 < k < |s| ==> !Jumps(s[k - 1], s[k], limit)
    ensures BadDays(s, limit) == {} && Anomalies(s, limit) == []
  {
    if |s| > 1 {
      var n := |s| - 1;
      NoAnomalies(s[..n], limit);
    }
  }

  /** A second quarantine finds nothing and keeps everything. */
  lemma QuarantineIsIdempotent(candles: seq<Candle>, limit: real)
    ensures var ordered := StableSort(candles);
      var kept := Keep(ordered, BadDays(ordered, limit));
      StableSort(kept) == kept && BadDays(kept, limit) == {} && Anomalies(kept, limit) == [] && Keep(kept, {}) == kept
  {
    var ordered := StableSort(candles);
    var kept := Keep(ordered, BadDays(ordered, limit));
    WholeDays(candles, limit);
    NoJumpsRemain(candles, limit);
    hide StableSort, Keep, BadDays, Jumps;
    SortedStays(kept);
    NoAnomalies(kept, limit);
    KeepAll(kept);
  }

  // ---- partitions ----

  type Disk = map<int, seq<Candle>>

  /** What a partition reads as: empty when it is missing or cannot be read. */
  function Existing(disk: Disk, month: int, unreadable: set<int>): seq<Candle> {
    if month in disk && month !in unreadable then disk[month] else []
  }

  /** Existing rows outside the excluded days, overwritten by the new ones. */
  function Merged(existing: seq<Candle>, candles: seq<Candle>, excluded: set<int>): seq<Candle> {
    Rows(Index(Keep(existing, excluded) + candles))
  }

  method WriteMonth(existing: seq<Candle>, candles: seq<Candle>, excluded: set<int>) returns (merged: seq<Candle>)
    requires candles != []
    ensures merged == Merged(existing, candles, excluded)
  {
    var kept := Keep(existing, excluded);
    var byTs: map<int, Candle> := map[];
    for i := 0 to |kept|
      invariant byTs == Index(kept[..i])
    {
      assert kept[..i + 1] == kept[..i] + [kept[i]];
      IndexAppend(kept[..i], kept[i]);
      hide Index, Keep;
      byTs := byTs[kept[i].ts := kept[i]];
    }
    assert kept[..|kept|] == kept && kept + candles[..0] == kept;
    hide Index, Keep;
    for i := 0 to |candles|
      invariant byTs == Index(kept + candles[..i])
    {
      assert kept + candles[..i + 1] == kept + candles[..i] + [candles[i]];
      IndexAppend(kept + candles[..i], candles[i]);
      byTs := byTs[candles[i].ts := candles[i]];
    }
    assert candles[..|candles|] == candles;
    merged := Rows(byTs);
  }

  lemma {:induction false} IndexConcat(a: seq<Candle>, b: seq<Candle>)
    ensures Index(a + b) == Index(a) + Index(b)
  {
    if b == [] {
      assert a + b == a;
    } else {
      var n := |b| - 1;
      IndexConcat(a, b[..n]);
      assert (a + b)[..|a + b| - 1] == a + b[..n];
    }
  }

  lemma {:induction false} KeepClean(s: seq<Candle>, excluded: set<int>)
    requires forall c :: c in s ==> Day(c.ts) !in excluded
    ensures Keep(s, excluded) == s
  {
    if s != [] {
      var n := |s| - 1;
      assert s[n] in s;
      KeepClean(s[..n], excluded);
      assert s == s[..n] + [s[n]];
    }
  }

  /** No row of an excluded day is left, new rows win, and every other existing row survives. */
  lemma MergedIs(existing: seq<Candle>, candles: seq<Candle>, excluded: set<int>)
    requires forall c :: c in candles ==> Day(c.ts) !in excluded
    ensures Timeline(Merged(existing, candles, excluded))
    ensures forall c :: c in Merged(existing, candles, excluded) ==> Day(c.ts) !in excluded
    ensures forall c :: c in Merged(existing, candles, excluded) <==>
      if c.ts in Index(candles) then Index(candles)[c.ts] == c
      else c.ts in Index(Keep(existing, excluded)) && Index(Keep(existing, excluded))[c.ts] == c
  {
    var kept := Keep(existing, excluded);
    IndexConcat(kept, candles);
    IndexOf(kept + candles);
    IndexOf(kept);
    IndexOf(candles);
    RowsOf(Index(kept + candles));
    KeptDays(existing, excluded);
    hide Rows, Index, Keep, Day;
    var r := Merged(existing, candles, excluded);
    forall c | c in r ensures Day(c.ts) !in excluded {
      assert Index(kept + candles)[c.ts] in kept + candles;
    }
  }

  /** Merging the same candles into the result of a merge gives that result again. */
  lemma MergedIndex(existing: seq<Candle>, candles: seq<Candle>, excluded: set<int>)
    ensures Index(Merged(existing, candles, excluded)) == Index(Keep(existing, excluded)) + Index(candles)
  {
    IndexOf(Keep(existing, excluded) + candles);
    IndexOfRows(Index(Keep(existing, excluded) + candles));
    IndexConcat(Keep(existing, excluded), candles);
    hide Index, Keep, Rows;
  }

  lemma OverlayTwice(a: map<int, Candle>, b: map<int, Candle>)
    ensures a + b + b == a + b
  {}

  /** Merging the same candles into the result of a merge gives that result again. */
  lemma MergeTwice(existing: seq<Candle>, candles: seq<Candle>, excluded: set<int>)
    requires forall c :: c in candles ==> Day(c.ts) !in excluded
    ensures Merged(Merged(existing, candles, excluded), candles, excluded) == Merged(existing, candles, excluded)
  {
    hide Rows, Index, Keep, Day, Timeline;
    var once := Merged(existing, candles, excluded);
    MergedIs(existing, candles, excluded);
    KeepClean(once, excluded);
    MergedIndex(existing, candles, excluded);
    IndexConcat(Keep(existing, excluded), candles);
    IndexConcat(once, candles);
    OverlayTwice(Index(Keep(existing, excluded)), Index(candles));
  }

  // ---- the whole rollover ----

  /** The candles of a month, in order. */
  function OfMonth(s: seq<Candle>, month: int, monthOf: int -> int): seq<Candle> {
    if s == [] then []
    else
      var n := |s| - 1;
      OfMonth(s[..n], month, monthOf) + if monthOf(s[n].ts) == month then [s[n]] else []
  }

  function MonthsOf(s: seq<Candle>, monthOf: int -> int): set<int> {
    set c | c in s :: monthOf(c.ts)
  }

  function Between(s: seq<Candle>, from: int, to: int): seq<Candle> {
    if s == [] then []
    else
      var n := |s| - 1;
      Between(s[..n], from, to) + if from <= s[n].ts < to then [s[n]] else []
  }

  function Kept(csv: seq<Candle>, from: int, to: int, limit: real): seq<Candle> {
    var ordered := StableSort(Between(csv, from, to));
    Keep(ordered, BadDays(ordered, limit))
  }

  function Quarantined(csv: seq<Candle>, from: int, to: int, limit: real): set<int> {
    BadDays(StableSort(Between(csv, from, to)), limit)
  }

  /** Every month with a kept candle is rewritten; every other partition stays as it is. */
  function Rolled(disk: Disk, kept: seq<Candle>, bad: set<int>, monthOf: int -> int, unreadable: set<int>): (r: Disk)
    ensures r.Keys == disk.Keys + MonthsOf(kept, monthOf)
  {
    map month | month in disk.Keys + MonthsOf(kept, monthOf) ::
      if month in MonthsOf(kept, monthOf) then Merged(Existing(disk, month, unreadable), OfMonth(kept, month, monthOf), bad)
      else disk[month]
  }

  lemma RolledAt(disk: Disk, kept: seq<Candle>, bad: set<int>, monthOf: int -> int, unreadable: set<int>, month: int)
    requires month in disk.Keys + MonthsOf(kept, monthOf)
    ensures Rolled(disk, kept, bad, monthOf, unreadable)[month] ==
      if month in MonthsOf(kept, monthOf) then Merged(Existing(disk, month, unreadable), OfMonth(kept, month, monthOf), bad)
      else disk[month]
  {}

  lemma {:induction false} OfMonthIs(s: seq<Candle>, month: int, monthOf: int -> int)
    ensures forall c :: c in OfMonth(s, month, monthOf) <==> c in s && monthOf(c.ts) == month
  {
    if s != [] {
      var n := |s| - 1;
      OfMonthIs(s[..n], month, monthOf);
      assert s == s[..n] + [s[n]];
    }
  }

  lemma MonthsAppend(s: seq<Candle>, c: Candle, monthOf: int -> int)
    ensures MonthsOf(s + [c], monthOf) == MonthsOf(s, monthOf) + {monthOf(c.ts)}
  {
    assert forall x :: x in s + [c] <==> x in s || x == c;
  }

  lemma OfMonthAppend(s: seq<Candle>, c: Candle, month: int, monthOf: int -> int)
    ensures OfMonth(s + [c], month, monthOf) == OfMonth(s, month, monthOf) + if monthOf(c.ts) == month then [c] else []
  {
    assert (s + [c])[..|s|] == s;
  }

  method GroupByMonth(s: seq<Candle>, monthOf: int -> int) returns (byMonth: map<int, seq<Candle>>)
    ensures byMonth.Keys == MonthsOf(s, monthOf)
    ensures forall m :: m in byMonth ==> byMonth[m] == OfMonth(s, m, monthOf) && byMonth[m] != []
  {
    hide *;
    byMonth := map[];
    NoMonths(monthOf);
    for i := 0 to |s|
      invariant byMonth.Keys == MonthsOf(s[..i], monthOf)
      invariant forall m :: m in byMonth ==> byMonth[m] == OfMonth(s[..i], m, monthOf) && byMonth[m] != []
    {
      var key := monthOf(s[i].ts);
      assert s[..i + 1] == s[..i] + [s[i]];
      MonthsAppend(s[..i], s[i], monthOf);
      forall m ensures OfMonth(s[..i + 1], m, monthOf) == OfMonth(s[..i], m, monthOf) + if key == m then [s[i]] else [] {
        OfMonthAppend(s[..i], s[i], m, monthOf);
      }
      if key !in byMonth {
        NoneOfMonth(s[..i], key, monthOf);
        byMonth := byMonth[key := []];
      }
      byMonth := byMonth[key := byMonth[key] + [s[i]]];
    }
    assert s[..|s|] == s;
  }

  lemma NoMonths(monthOf: int -> int)
    ensures MonthsOf([], monthOf) == {}
  {}

  lemma {:induction false} NoneOfMonth(s: seq<Candle>, month: int, monthOf: int -> int)
    requires month !in MonthsOf(s, monthOf)
    ensures OfMonth(s, month, monthOf) == []
  {
    if s != [] {
      var n := |s| - 1;
      assert forall c :: c in s[..n] ==> c in s;
      assert s[n] in s;
      NoneOfMonth(s[..n], month, monthOf);
    }
  }

  method RunRollover(disk: Disk, csv: seq<Candle>, from: int, to: int, limit: real, monthOf: int -> int, unreadable: set<int>, dryRun: bool)
    returns (after: Disk, monthsWritten: nat, quarantined: seq<int>)
    ensures after == if dryRun || from >= to then disk
                     else Rolled(disk, Kept(csv, from, to, limit), Quarantined(csv, from, to, limit), monthOf, unreadable)
    ensures monthsWritten == if from >= to then 0 else |MonthsOf(Kept(csv, from, to, limit), monthOf)|
    ensures quarantined == if from >= to then [] else Sorted(Quarantined(csv, from, to, limit))
  {
    after := disk;
    if from >= to {
      return after, 0, [];
    }
    var candles := Between(csv, from, to);
    if candles == [] {
      NothingToRoll(disk, limit, monthOf, unreadable);
      return after, 0, [];
    }
    var kept, bad, anomalies := QuarantineAnomalousDays(candles, limit);
    assert kept == Kept(csv, from, to, limit) && bad == Quarantined(csv, from, to, limit);
    hide *;
    var byMonth := GroupByMonth(kept, monthOf);
    if !dryRun {
      after := WriteMonths(disk, kept, bad, byMonth, monthOf, unreadable);
    }
    monthsWritten := |byMonth.Keys|;
    quarantined := Sorted(bad);
  }

  lemma NothingToRoll(disk: Disk, limit: real, monthOf: int -> int, unreadable: set<int>)
    ensures StableSort([]) == [] && BadDays([], limit) == {} && Sorted({}) == [] && Keep([], {}) == []
    ensures MonthsOf([], monthOf) == {} && Rolled(disk, [], {}, monthOf, unreadable) == disk
  {}

  function WriteAll(disk: Disk, months: seq<int>, kept: seq<Candle>, bad: set<int>, monthOf: int -> int, unreadable: set<int>): Disk {
    if months == [] then disk
    else
      var n := |months| - 1;
      var d := WriteAll(disk, months[..n], kept, bad, monthOf, unreadable);
      d[months[n] := Merged(Existing(d, months[n], unreadable), OfMonth(kept, months[n], monthOf), bad)]
  }

  lemma LastOfAscending(months: seq<int>, m: int)
    requires months != [] && Ascending(months)
    ensures var n := |months| - 1;
      Ascending(months[..n]) && months[n] !in months[..n] && (m in months <==> m in months[..n] || m == months[n])
  {
    assert months == months[..|months| - 1] + [months[|months| - 1]];
  }

  lemma {:induction false} WriteAllAt(disk: Disk, months: seq<int>, kept: seq<Candle>, bad: set<int>, monthOf: int -> int, unreadable: set<int>, m: int)
    requires Ascending(months)
    ensures var d := WriteAll(disk, months, kept, bad, monthOf, unreadable);
      && (m in d <==> m in disk || m in months)
      && (m in d ==> d[m] == if m in months then Merged(Existing(disk, m, unreadable), OfMonth(kept, m, monthOf), bad) else disk[m])
  {
    if months != [] {
      var n := |months| - 1;
      hide Merged, OfMonth;
      LastOfAscending(months, m);
      hide Ascending;
      WriteAllAt(disk, months[..n], kept, bad, monthOf, unreadable, m);
      WriteAllAt(disk, months[..n], kept, bad, monthOf, unreadable, months[n]);
    }
  }

  lemma WriteAllIsRolled(disk: Disk, kept: seq<Candle>, bad: set<int>, monthOf: int -> int, unreadable: set<int>)
    ensures WriteAll(disk, Sorted(MonthsOf(kept, monthOf)), kept, bad, monthOf, unreadable) == Rolled(disk, kept, bad, monthOf, unreadable)
  {
    hide *;
    var months := Sorted(MonthsOf(kept, monthOf));
    var a := WriteAll(disk, months, kept, bad, monthOf, unreadable);
    var b := Rolled(disk, kept, bad, monthOf, unreadable);
    forall m ensures m in a <==> m in b { WriteAllAt(disk, months, kept, bad, monthOf, unreadable, m); }
    forall m | m in a ensures a[m] == b[m] {
      WriteAllAt(disk, months, kept, bad, monthOf, unreadable, m);
      RolledAt(disk, kept, bad, monthOf, unreadable, m);
    }
  }

  /** The loop over months, in order. */
  method WriteMonths(disk: Disk, kept: seq<Candle>, bad: set<int>, byMonth: map<int, seq<Candle>>, monthOf: int -> int, unreadable: set<int>)
    returns (after: Disk)
    requires byMonth.Keys == MonthsOf(kept, monthOf)
    requires forall m :: m in byMonth ==> byMonth[m] == OfMonth(kept, m, monthOf) && byMonth[m] != []
    ensures after == Rolled(disk, kept, bad, monthOf, unreadable)
  {
    hide Merged, OfMonth, MonthsOf, Rolled, Sorted, Ascending, Existing;
    after := disk;
    var months := Sorted(byMonth.Keys);
    for i := 0 to |months|
      invariant after == WriteAll(disk, months[..i], kept, bad, monthOf, unreadable)
    {
      var m := months[i];
      assert m in months;
      assert months[..i + 1][..i] == months[..i];
      var merged := WriteMonth(Existing(after, m, unreadable), byMonth[m], bad);
      after := after[m := merged];
    }
    assert months[..|months|] == months;
    WriteAllIsRolled(disk, kept, bad, monthOf, unreadable);
  }

  lemma KeptClean(csv: seq<Candle>, from: int, to: int, limit: real, c: Candle)
    requires c in Kept(csv, from, to, limit)
    ensures Day(c.ts) !in Quarantined(csv, from, to, limit)
  {
    var ordered := StableSort(Between(csv, from, to));
    KeptDays(ordered, BadDays(ordered, limit));
  }

  /** Running the same rollover again on the same CSV leaves every partition as it is, even when some could
      not be read the first time. */
  lemma RepeatChangesNothing(disk: Disk, csv: seq<Candle>, from: int, to: int, limit: real, monthOf: int -> int, unreadable: set<int>)
    ensures var kept, bad := Kept(csv, from, to, limit), Quarantined(csv, from, to, limit);
      var once := Rolled(disk, kept, bad, monthOf, unreadable);
      Rolled(once, kept, bad, monthOf, {}) == once
  {
    var kept, bad := Kept(csv, from, to, limit), Quarantined(csv, from, to, limit);
    forall c | c in kept ensures Day(c.ts) !in bad { KeptClean(csv, from, to, limit, c); }
    hide *;
    RolledTwice(disk, kept, bad, monthOf, unreadable);
  }

  lemma RolledTwice(disk: Disk, kept: seq<Candle>, bad: set<int>, monthOf: int -> int, unreadable: set<int>)
    requires forall c :: c in kept ==> Day(c.ts) !in bad
    ensures var once := Rolled(disk, kept, bad, monthOf, unreadable);
      Rolled(once, kept, bad, monthOf, {}) == once
  {
    hide OfMonth, Merged, MonthsOf, Rolled, Day;
    var once := Rolled(disk, kept, bad, monthOf, unreadable);
    forall month | month in once ensures Rolled(once, kept, bad, monthOf, {})[month] == once[month] {
      RolledAt(disk, kept, bad, monthOf, unreadable, month);
      RolledAt(once, kept, bad, monthOf, {}, month);
      if month in MonthsOf(kept, monthOf) {
        OfMonthIs(kept, month, monthOf);
        MergeTwice(Existing(disk, month, unreadable), OfMonth(kept, month, monthOf), bad);
      }
    }
  }

  predicate SomewhereOn(disk: Disk, month: int, c: Candle) {
    month in disk && c in disk[month]
  }

  /** Nothing live is lost: every kept candle with a timestamp of its own is in its month's partition. */
  lemma KeptCandlesAreWritten(disk: Disk, csv: seq<Candle>, from: int, to: int, limit: real, monthOf: int -> int, unreadable: set<int>, c: Candle)
    requires c in Kept(csv, from, to, limit)
    requires forall x :: x in Kept(csv, from, to, limit) && x.ts == c.ts ==> x == c
    ensures SomewhereOn(Rolled(disk, Kept(csv, from, to, limit), Quarantined(csv, from, to, limit), monthOf, unreadable), monthOf(c.ts), c)
  {
    var kept, bad := Kept(csv, from, to, limit), Quarantined(csv, from, to, limit);
    var month := monthOf(c.ts);
    var mine := OfMonth(kept, month, monthOf);
    OfMonthIs(kept, month, monthOf);
    forall x | x in mine ensures Day(x.ts) !in bad { KeptClean(csv, from, to, limit, x); }
    hide Kept, Quarantined, OfMonth, Merged, Day, Index;
    MergedIs(Existing(disk, month, unreadable), mine, bad);
    IndexOf(mine);
    assert Index(mine)[c.ts] in mine;
  }

  /** A row of a quarantined day disappears from its partition exactly when that partition is rewritten:
      a month whose candles are all quarantined keeps what it already had. */
  lemma QuarantinedRowSurvivesIff(disk: Disk, csv: seq<Candle>, from: int, to: int, limit: real, monthOf: int -> int,
                                  unreadable: set<int>, month: int, c: Candle)
    requires SomewhereOn(disk, month, c) && Day(c.ts) in Quarantined(csv, from, to, limit)
    ensures SomewhereOn(Rolled(disk, Kept(csv, from, to, limit), Quarantined(csv, from, to, limit), monthOf, unreadable), month, c)
      <==> month !in MonthsOf(Kept(csv, from, to, limit), monthOf)
  {
    var kept, bad := Kept(csv, from, to, limit), Quarantined(csv, from, to, limit);
    var mine := OfMonth(kept, month, monthOf);
    OfMonthIs(kept, month, monthOf);
    forall x | x in mine ensures Day(x.ts) !in bad { KeptClean(csv, from, to, limit, x); }
    hide Kept, Quarantined, OfMonth, Merged, Day, Index, MonthsOf;
    MergedIs(Existing(disk, month, unreadable), mine, bad);
  }

  function Flat(ts: int, price: real): Candle { Candle(ts, price, price, price, price, 0.0) }

  const CALM := Flat(0, 1.0)
  const JUMP := Flat(60, 2.0)

  function OneMonth(ts: int): int { 1 }

  lemma JumpDay()
    ensures Quarantined([CALM, JUMP], 0, 86400, 50.0) == {0} && Kept([CALM, JUMP], 0, 86400, 50.0) == []
  {
    var csv := [CALM, JUMP];
    assert csv[..1] == [CALM] && csv[..1][..0] == [] && [CALM][..0] == [];
    assert Between([CALM], 0, 86400) == [CALM];
    assert Between(csv, 0, 86400) == [CALM] + [JUMP] == csv;
    SortedStays(csv);
    hide Between, StableSort;
    BadDaysAre(csv, 50.0);
    assert JumpsAt(csv, 1, 0, 50.0);
    assert BadDays(csv, 50.0) == {0};
    KeepNone(csv);
  }

  lemma KeepNone(csv: seq<Candle>)
    requires csv == [CALM, JUMP]
    ensures Keep(csv, {0}) == []
  {
    assert csv[..1] == [CALM] && [CALM][..0] == [];
    assert Keep([CALM], {0}) == Keep([], {0});
    assert Day(JUMP.ts) == 0;
  }

  /** The jump doubles the price, its day is quarantined and no candle of the month is kept: the month is
      not rewritten, and the suspicious row already in its partition stays. */
  lemma QuarantinedRowStays()
    ensures Day(JUMP.ts) in Quarantined([CALM, JUMP], 0, 86400, 50.0)
    ensures SomewhereOn(Rolled(map[1 := [JUMP]], Kept([CALM, JUMP], 0, 86400, 50.0),
                               Quarantined([CALM, JUMP], 0, 86400, 50.0), OneMonth, {}), 1, JUMP)
  {
    JumpDay();
    hide Kept, Quarantined, Rolled;
    QuarantinedRowSurvivesIff(map[1 := [JUMP]], [CALM, JUMP], 0, 86400, 50.0, OneMonth, {}, 1, JUMP);
  }
}
