/** Filling the gaps of a range in the response only, from a provider that may fail. */
module ReadThrough {
  import opened Series
  import opened GapValidator

  datatype CandleRange = CandleRange(start: int, end: int, candles: seq<Candle>, complete: bool, missing: int)

  datatype Failure = NoProvider | Timeout | FetchError

  datatype Repair = NoRepair | Repaired | RepairFailed

  datatype Stats = Stats(requested: int, filled: int, failure: Option<Failure>, repair: Repair)

  /** What the provider does when asked for one gap. */
  datatype Fetch = TimedOut | Raised | Fetched(candles: seq<Candle>)

  ghost predicate Distinct(s: seq<Candle>) {
    forall i, j :: 0 <= i < j < |s| ==> s[i].ts != s[j].ts
  }

  // ---- filtering what was fetched ----

  predicate Valid(c: Candle, start: int, end: int) {
    c.ts % 60 == 0 && start <= c.ts < end
  }

  method FilterValidCandles(candles: seq<Candle>, start: int, end: int) returns (r: seq<Candle>)
    ensures Timeline(r)
    ensures forall c :: c in r ==> c in candles && Valid(c, start, end)
    ensures forall c :: c in candles && Valid(c, start, end) ==> HasCandle(r, c.ts)
  {
    var out: seq<Candle> := [];
    var seen: set<int> := {};
    for i := 0 to |candles|
      invariant forall c :: c in out ==> c in candles && Valid(c, start, end) && c.ts in seen
      invariant forall t :: t in seen ==> HasCandle(out, t)
      invariant forall k :: 0 <= k < i && Valid(candles[k], start, end) ==> candles[k].ts in seen
    {
      var c := candles[i];
      if c.ts % 60 != 0 || c.ts < start || c.ts >= end || c.ts in seen {
        continue;
      }
      seen := seen + {c.ts};
      ghost var before := out;
      out := out + [c];
      assert c in out;
      forall t | t in seen ensures HasCandle(out, t) {
        if t != c.ts {
          var x :| x in before && x.ts == t;
          assert x in out;
        }
      }
    }
    r := Rows(Index(out));
    IndexOf(out);
    RowsOf(Index(out));
    hide Rows, Index;
    forall c | c in candles && Valid(c, start, end) ensures HasCandle(r, c.ts) {
      var x :| x in out && x.ts == c.ts;
      assert Index(out)[x.ts] in r;
    }
  }

  // ---- merging ----

  method MergeCandlesByTs(primary: seq<Candle>, filled: seq<Candle>) returns (r: seq<Candle>)
    ensures r == Rows(Appended(Index(primary), filled))
  {
    var byTs: map<int, Candle> := map[];
    for i := 0 to |primary|
      invariant byTs == Index(primary[..i])
    {
      assert primary[..i + 1][..i] == primary[..i];
      byTs := byTs[primary[i].ts := primary[i]];
    }
    assert primary[..|primary|] == primary;
    for i := 0 to |filled|
      invariant byTs == Appended(Index(primary), filled[..i])
    {
      assert filled[..i + 1][..i] == filled[..i];
      if filled[i].ts !in byTs {
        byTs := byTs[filled[i].ts := filled[i]];
      }
    }
    assert filled[..|filled|] == filled;
    r := Rows(byTs);
  }

  lemma {:induction false} AppendedKeyed(rows: map<int, Candle>, cs: seq<Candle>)
    requires Keyed(rows)
    ensures Keyed(Appended(rows, cs))
  {
    if cs != [] { AppendedKeyed(rows, cs[..|cs| - 1]); }
  }

  lemma {:induction false} AppendedKeys(rows: map<int, Candle>, cs: seq<Candle>, t: int)
    ensures t in Appended(rows, cs) <==> t in rows || HasCandle(cs, t)
  {
    if cs != [] {
      var n := |cs| - 1;
      AppendedKeys(rows, cs[..n], t);
      assert cs == cs[..n] + [cs[n]];
      assert HasCandle(cs, t) <==> HasCandle(cs[..n], t) || cs[n].ts == t;
    }
  }

  /** Rows at new, different timestamps are all added. */
  lemma {:induction false} AppendedSize(rows: map<int, Candle>, cs: seq<Candle>)
    requires Distinct(cs) && forall c :: c in cs ==> c.ts !in rows
    ensures |Appended(rows, cs)| == |rows| + |cs|
  {
    if cs != [] {
      var n := |cs| - 1;
      AppendedSize(rows, cs[..n]);
      AppendedKeys(rows, cs[..n], cs[n].ts);
      assert cs[n] in cs;
      assert cs[n].ts !in Appended(rows, cs[..n]);
      assert |Appended(rows, cs)| == |Appended(rows, cs[..n])| + 1 by {
        assert Appended(rows, cs).Keys == Appended(rows, cs[..n]).Keys + {cs[n].ts};
      }
    }
  }

  // ---- gaps hold no stored candle and do not overlap, whatever the window ----

  ghost predicate Clear(candles: seq<Candle>, gaps: seq<Gap>) {
    forall g, c :: g in gaps && c in candles ==> !Inside(g, c.ts)
  }

  ghost predicate InOrder(gaps: seq<Gap>, from: int, upTo: int) {
    && (forall g :: g in gaps ==> from <= g.start <= g.end <= upTo)
    && forall i, j :: 0 <= i < j < |gaps| ==> gaps[i].end <= gaps[j].start
  }

  lemma OneMore(candles: seq<Candle>, gaps: seq<Gap>, from: int, g: Gap)
    requires Clear(candles, gaps) && InOrder(gaps, from, g.start) && from <= g.start <= g.end
    requires forall t :: g.start <= t < g.end ==> !HasCandle(candles, t)
    ensures Clear(candles, gaps + [g]) && InOrder(gaps + [g], from, g.end)
  {
    forall x, c | x in gaps + [g] && c in candles ensures !Inside(x, c.ts) {
      if x == g { assert HasCandle(candles, c.ts); }
    }
    assert forall i :: 0 <= i < |gaps| ==> gaps[i] in gaps;
  }

  lemma Widen(gaps: seq<Gap>, from: int, a: int, b: int)
    requires InOrder(gaps, from, a) && a <= b
    ensures InOrder(gaps, from, b)
  {}

  lemma {:induction false} InnerClear(candles: seq<Candle>, start: int, n: nat)
    requires Timeline(candles) && n < |candles| && start <= candles[0].ts
    ensures Clear(candles, Head(candles, start) + Inner(candles, n))
    ensures InOrder(Head(candles, start) + Inner(candles, n), start, candles[n].ts)
  {
    hide Clear, InOrder, Head, MinutesBetween, HasCandle;
    if n == 0 {
      HeadClear(candles, start);
      assert Head(candles, start) + Inner(candles, 0) == Head(candles, start);
    } else {
      InnerClear(candles, start, n - 1);
      InnerStep(Head(candles, start), candles, n);
      assert candles[0].ts <= candles[n - 1].ts;
      InnerClearStep(candles, Head(candles, start) + Inner(candles, n - 1), start, n);
    }
  }

  lemma HeadClear(candles: seq<Candle>, start: int)
    requires Timeline(candles) && candles != [] && start <= candles[0].ts
    ensures Clear(candles, Head(candles, start)) && InOrder(Head(candles, start), start, candles[0].ts)
  {
    hide MinutesBetween, HasCandle;
    forall t | start <= t < candles[0].ts ensures !HasCandle(candles, t) { NoneOutside(candles, t); }
    if Head(candles, start) != [] {
      OneMore(candles, [], start, Head(candles, start)[0]);
      assert [] + Head(candles, start) == Head(candles, start);
    }
  }

  lemma InnerClearStep(candles: seq<Candle>, before: seq<Gap>, start: int, n: nat)
    requires Timeline(candles) && 0 < n < |candles| && start <= candles[n - 1].ts
    requires Clear(candles, before) && InOrder(before, start, candles[n - 1].ts)
    ensures var next := candles[n - 1].ts + 60;
      var after := before + (if candles[n].ts > next then [Gap(next, candles[n].ts, MinutesBetween(next, candles[n].ts))] else []);
      Clear(candles, after) && InOrder(after, start, candles[n].ts)
  {
    hide Clear, InOrder, MinutesBetween, HasCandle;
    var next := candles[n - 1].ts + 60;
    if candles[n].ts > next {
      forall t | next <= t < candles[n].ts ensures !HasCandle(candles, t) { NoneBetween(candles, n - 1, t); }
      Widen(before, start, candles[n - 1].ts, next);
      OneMore(candles, before, start, Gap(next, candles[n].ts, MinutesBetween(next, candles[n].ts)));
    } else {
      assert before + [] == before;
      Widen(before, start, candles[n - 1].ts, candles[n].ts);
    }
  }

  lemma GapsClear(candles: seq<Candle>, start: int, end: int)
    requires Timeline(candles) && start <= end && forall c :: c in candles ==> start <= c.ts < end
    ensures Clear(candles, Gaps(candles, start, end))
    ensures InOrder(Gaps(candles, start, end), start, end)
  {
    if candles != [] {
      var n := |candles| - 1;
      assert candles[0] in candles && candles[n] in candles;
      InnerClear(candles, start, n);
      var before := Head(candles, start) + Inner(candles, n);
      var last := candles[n].ts;
      Widen(before, start, last, end);
      assert before + [] == before;
      if Tail(candles, end) != [] {
        forall t | last + 60 <= t < end ensures !HasCandle(candles, t) { NoneOutside(candles, t); }
        Widen(before, start, last, last + 60);
        hide Clear, InOrder, HasCandle, Head, Inner, MinutesBetween;
        OneMore(candles, before, start, Tail(candles, end)[0]);
      }
    }
  }

  // ---- the true number of missing minutes ----

  /** The minutes that start in the window. */
  function MinutesOf(start: int, end: int): (r: set<int>)
    ensures forall t :: t in r <==> start <= t < end && t % 60 == 0
  {
    set t | start <= t < end && t % 60 == 0
  }

  function StampSet(candles: seq<Candle>): (r: set<int>)
    ensures forall t :: t in r <==> HasCandle(candles, t)
  {
    set c | c in candles :: c.ts
  }

  function TrueMissing(candles: seq<Candle>, start: int, end: int): nat {
    |MinutesOf(start, end) - StampSet(candles)|
  }

  function Ceiling(t: int): int {
    (t + 59) / 60
  }

  lemma CeilingStep(t: int)
    ensures Ceiling(t + 1) == Ceiling(t) + if t % 60 == 0 then 1 else 0
  {
    var q, r := t / 60, t % 60;
    assert t == 60 * q + r;
  }

  lemma {:induction false} CountMinutes(start: int, end: int)
    requires start <= end
    ensures |MinutesOf(start, end)| == Ceiling(end) - Ceiling(start)
    decreases end - start
  {
    hide Ceiling;
    if start == end {
      assert MinutesOf(start, end) == {};
    } else {
      CountMinutes(start, end - 1);
      CeilingStep(end - 1);
      assert MinutesOf(start, end) == MinutesOf(start, end - 1) + if (end - 1) % 60 == 0 then {end - 1} else {};
    }
  }

  /** The window holds exactly as many minutes as its length says. One that is not aligned may hold one more. */
  predicate CountsMinutes(start: int, end: int) {
    Ceiling(end) - Ceiling(start) == (end - start) / 60
  }

  lemma WindowHoldsAtMostOneMore(start: int, end: int)
    requires start <= end
    ensures (end - start) / 60 <= Ceiling(end) - Ceiling(start) <= (end - start) / 60 + 1
    ensures start % 60 == 0 && end % 60 == 0 ==> CountsMinutes(start, end)
    ensures CountsMinutes(start, end) <==> (-start) % 60 >= (-end) % 60
  {
    var a, p := Ceiling(start), (-start) % 60;
    var b, q := Ceiling(end), (-end) % 60;
    assert start == 60 * a - p && end == 60 * b - q;
  }

  lemma SubsetSize(small: set<int>, big: set<int>)
    requires small <= big
    ensures |big - small| == |big| - |small|
  {}

  /** Sorted and inside the window; a stored candle may lie off the minute. */
  ghost predicate Placed(candles: seq<Candle>, start: int, end: int) {
    Timeline(candles) && forall c :: c in candles ==> start <= c.ts < end
  }

  ghost predicate OnTheMinute(candles: seq<Candle>) {
    forall c :: c in candles ==> Aligned(c.ts)
  }

  function AlignedStamps(candles: seq<Candle>): (r: set<int>)
    ensures forall t :: t in r <==> t in StampSet(candles) && Aligned(t)
  {
    set t | t in StampSet(candles) && Aligned(t)
  }

  /** Candles off the minute take up a place without supplying a minute. */
  lemma AlignedCount(candles: seq<Candle>)
    requires Timeline(candles)
    ensures |AlignedStamps(candles)| <= |candles|
    ensures |AlignedStamps(candles)| == |candles| <==> OnTheMinute(candles)
  {
    DistinctStamps(candles);
    var all, some := StampSet(candles), AlignedStamps(candles);
    assert all == set c | c in candles :: c.ts;
    SubsetSize(some, all);
    if OnTheMinute(candles) {
      assert some == all;
    }
    if |some| == |candles| {
      assert all - some == {};
      forall c | c in candles ensures Aligned(c.ts) {
        assert c.ts in all && c.ts !in all - some;
      }
    }
  }

  lemma TrueMissingIs(candles: seq<Candle>, start: int, end: int)
    requires Placed(candles, start, end) && start <= end
    ensures TrueMissing(candles, start, end) == Ceiling(end) - Ceiling(start) - |AlignedStamps(candles)|
  {
    CountMinutes(start, end);
    assert AlignedStamps(candles) <= MinutesOf(start, end);
    assert MinutesOf(start, end) - StampSet(candles) == MinutesOf(start, end) - AlignedStamps(candles);
    SubsetSize(AlignedStamps(candles), MinutesOf(start, end));
  }

  // ---- filling ----

  /** What has been fetched for the first `n` gaps: valid minutes inside those gaps, none twice. */
  ghost predicate FilledFrom(filled: seq<Candle>, gaps: seq<Gap>, n: nat, answers: seq<Fetch>)
    requires n <= |gaps| && n <= |answers|
  {
    Distinct(filled) && forall c :: c in filled ==> c.ts % 60 == 0 && exists k :: 0 <= k < n && CameFrom(c, gaps[k], answers[k])
  }

  predicate CameFrom(c: Candle, g: Gap, answer: Fetch) {
    Inside(g, c.ts) && answer.Fetched? && c in answer.candles
  }

  lemma FillOne(filled: seq<Candle>, gaps: seq<Gap>, n: nat, answers: seq<Fetch>, from: int, upTo: int, valid: seq<Candle>)
    requires n < |gaps| && n < |answers| && FilledFrom(filled, gaps, n, answers) && InOrder(gaps, from, upTo)
    requires Timeline(valid) && answers[n].Fetched?
    requires forall c :: c in valid ==> c in answers[n].candles && Valid(c, gaps[n].start, gaps[n].end)
    ensures FilledFrom(filled + valid, gaps, n + 1, answers)
  {
    var all := filled + valid;
    forall i, j | 0 <= i < j < |all| ensures all[i].ts != all[j].ts {
      if i < |filled| <= j {
        assert all[i] in filled && all[j] in valid;
        var k :| 0 <= k < n && CameFrom(all[i], gaps[k], answers[k]);
        assert gaps[k].end <= gaps[n].start;
      }
    }
    forall c | c in all ensures c.ts % 60 == 0 && exists k :: 0 <= k < n + 1 && CameFrom(c, gaps[k], answers[k]) {
      if c in filled {
        var k :| 0 <= k < n && CameFrom(c, gaps[k], answers[k]);
      } else {
        assert CameFrom(c, gaps[n], answers[n]);
      }
    }
  }

  /** The response after a complete fill: what was stored, plus the filled minutes, in order. */
  ghost predicate Response(r: seq<Candle>, stored: seq<Candle>, filled: seq<Candle>, start: int, end: int) {
    && Placed(r, start, end) && |r| == |stored| + |filled|
    && forall c :: c in r <==> c in stored || c in filled
  }

  lemma FilledAreNew(stored: seq<Candle>, filled: seq<Candle>, gaps: seq<Gap>, answers: seq<Fetch>, start: int, end: int)
    requires Clear(stored, gaps) && InOrder(gaps, start, end) && |answers| == |gaps|
    requires FilledFrom(filled, gaps, |gaps|, answers)
    ensures forall c :: c in filled ==> !HasCandle(stored, c.ts) && start <= c.ts < end && Aligned(c.ts)
  {
    forall c | c in filled ensures !HasCandle(stored, c.ts) && start <= c.ts < end && Aligned(c.ts) {
      var k :| 0 <= k < |gaps| && CameFrom(c, gaps[k], answers[k]);
      assert gaps[k] in gaps;
    }
  }

  lemma DistinctIn(cs: seq<Candle>, a: Candle, b: Candle)
    requires Distinct(cs) && a in cs && b in cs && a.ts == b.ts
    ensures a == b
  {}

  lemma AppendedRows(rows: map<int, Candle>, filled: seq<Candle>, c: Candle)
    requires Keyed(rows) && Distinct(filled) && forall x :: x in filled ==> x.ts !in rows
    ensures c.ts in Appended(rows, filled) && Appended(rows, filled)[c.ts] == c <==> (c.ts in rows && rows[c.ts] == c) || c in filled
  {
    AppendedFrom(rows, filled);
    AppendedKeys(rows, filled, c.ts);
    var m := Appended(rows, filled);
    hide Appended;
    if c in filled {
      assert HasCandle(filled, c.ts);
      AppendedKeyed(rows, filled);
      DistinctIn(filled, m[c.ts], c);
    }
  }

  lemma IndexKeys(s: seq<Candle>, t: int)
    ensures t in Index(s) <==> HasCandle(s, t)
  {
    IndexOf(s);
    hide Index;
    if t in Index(s) { assert Index(s)[t].ts == t; }
  }

  lemma IndexSize(s: seq<Candle>)
    requires Timeline(s)
    ensures |Index(s)| == |s| && Keyed(Index(s))
  {
    IndexOf(s);
    RowsOfIndex(s);
    RowsOf(Index(s));
    hide Index;
  }

  lemma FilledNotIndexed(stored: seq<Candle>, filled: seq<Candle>)
    requires forall c :: c in filled ==> !HasCandle(stored, c.ts)
    ensures forall c :: c in filled ==> c.ts !in Index(stored)
  {
    hide Index, HasCandle;
    forall c | c in filled ensures c.ts !in Index(stored) { IndexKeys(stored, c.ts); }
  }

  lemma ResponseSize(stored: seq<Candle>, filled: seq<Candle>)
    requires Timeline(stored) && Distinct(filled) && forall c :: c in filled ==> c.ts !in Index(stored)
    ensures Timeline(Rows(Appended(Index(stored), filled)))
    ensures |Rows(Appended(Index(stored), filled))| == |stored| + |filled|
  {
    hide *;
    IndexSize(stored);
    AppendedSize(Index(stored), filled);
    AppendedKeyed(Index(stored), filled);
    RowsOf(Appended(Index(stored), filled));
  }

  lemma ResponseIs(stored: seq<Candle>, filled: seq<Candle>, start: int, end: int)
    requires Placed(stored, start, end) && Distinct(filled)
    requires forall c :: c in filled ==> !HasCandle(stored, c.ts) && start <= c.ts < end && Aligned(c.ts)
    ensures Response(Rows(Appended(Index(stored), filled)), stored, filled, start, end)
  {
    hide Rows, Index, Appended, HasCandle, Aligned, Distinct, Timeline;
    FilledNotIndexed(stored, filled);
    ResponseSize(stored, filled);
    ResponseHolds(stored, filled);
  }

  lemma ResponseHolds(stored: seq<Candle>, filled: seq<Candle>)
    requires Timeline(stored) && Distinct(filled) && forall c :: c in filled ==> c.ts !in Index(stored)
    ensures forall c :: c in Rows(Appended(Index(stored), filled)) <==> c in stored || c in filled
  {
    var rows := Index(stored);
    IndexOfTimeline(stored);
    AppendedKeyed(rows, filled);
    RowsOf(Appended(rows, filled));
    hide Rows, Index, Appended;
    forall c ensures c in Rows(Appended(rows, filled)) <==> c in stored || c in filled { AppendedRows(rows, filled, c); }
  }

  /** What `read_range` returns: sorted, inside the window, with the missing count of its length. */
  ghost predicate Read(range: CandleRange) {
    && range.start <= range.end && Placed(range.candles, range.start, range.end)
    && range.missing == Missing(range.candles, range.start, range.end)
    && range.complete == (range.missing == 0)
  }

  /** The response keeps every stored candle, adds only whole minutes that the provider answered, and is
      strictly increasing inside the window. */
  ghost predicate Faithful(range: CandleRange, r: CandleRange, answers: seq<Fetch>) {
    && r.start == range.start && r.end == range.end
    && Placed(r.candles, r.start, r.end)
    && (forall c :: c in range.candles ==> c in r.candles)
    && forall c :: c in r.candles ==> c in range.candles || (Aligned(c.ts) && exists k :: 0 <= k < |answers| && Answered(answers[k], c))
  }

  predicate Answered(answer: Fetch, c: Candle) {
    answer.Fetched? && c in answer.candles
  }

  /** The reported count is the true one exactly when the window holds as many minutes as its length says
      and no candle lies off the minute, or nothing is missing. */
  ghost predicate Honest(r: CandleRange) {
    var lacking := TrueMissing(r.candles, r.start, r.end);
    r.missing == lacking <==> (CountsMinutes(r.start, r.end) && OnTheMinute(r.candles)) || lacking == 0
  }

  lemma CountIsHonest(r: CandleRange)
    requires r.start <= r.end && Placed(r.candles, r.start, r.end)
    requires r.missing == Missing(r.candles, r.start, r.end)
    ensures Honest(r)
  {
    TrueMissingIs(r.candles, r.start, r.end);
    AlignedCount(r.candles);
    WindowHoldsAtMostOneMore(r.start, r.end);
    hide TrueMissing, Ceiling, AlignedStamps, OnTheMinute;
  }

  lemma UnchangedIsHonest(range: CandleRange, answers: seq<Fetch>)
    requires Read(range)
    ensures Faithful(range, range, answers) && Honest(range)
  {
    CountIsHonest(range);
    hide Honest;
  }

  lemma FilledIsHonest(range: CandleRange, filled: seq<Candle>, r: CandleRange)
    requires Read(range) && r.start == range.start && r.end == range.end
    requires Response(r.candles, range.candles, filled, r.start, r.end)
    requires Missing(range.candles, range.start, range.end) > 0
    requires r.missing == if range.missing > |filled| then range.missing - |filled| else 0
    requires forall c :: c in filled ==> Aligned(c.ts)
    ensures Honest(r)
    ensures CountsMinutes(r.start, r.end) && OnTheMinute(range.candles) ==> |filled| <= range.missing
  {
    CountIsHonest(r);
    if CountsMinutes(r.start, r.end) && OnTheMinute(range.candles) {
      TrueMissingIs(r.candles, r.start, r.end);
      AlignedCount(r.candles);
      assert OnTheMinute(r.candles);
    }
    hide Honest, TrueMissing, Ceiling, AlignedStamps;
  }

  method MaybeFillGapsResponseOnly(range: CandleRange, hasProvider: bool, answers: seq<Fetch>, enabled: bool, maxMissing: int)
    returns (r: CandleRange, stats: Stats)
    requires Read(range) && |answers| == |Gaps(range.candles, range.start, range.end)|
    ensures Faithful(range, r, answers)
    ensures Honest(r)
    ensures CountsMinutes(range.start, range.end) && OnTheMinute(range.candles) ==> stats.filled <= stats.requested
    ensures stats.repair != Repaired ==> r.candles == range.candles && stats.filled == 0
    ensures stats.repair == RepairFailed <==> stats.failure.Some?
  {
    hide *;
    UnchangedIsHonest(range, answers);
    ReadIs(range);
    stats := Stats(0, 0, None, NoRepair);
    r := range;
    if !enabled {
      return;
    }
    var report := Validate(range.candles, range.start, range.end);
    if report.missing == 0 || report.missing > maxMissing {
      return;
    }
    stats := stats.(requested := report.missing);
    if !hasProvider {
      stats := stats.(failure := Some(NoProvider), repair := RepairFailed);
      return;
    }
    var gaps := report.gaps;
    GapsClear(range.candles, range.start, range.end);
    var filled: seq<Candle> := [];
    assert FilledFrom(filled, gaps, 0, answers) by { NothingFilled(gaps, answers); }
    for n := 0 to |gaps|
      invariant FilledFrom(filled, gaps, n, answers)
    {
      match answers[n] {
        case TimedOut =>
          stats := stats.(failure := Some(Timeout), repair := RepairFailed);
          return;
        case Raised =>
          stats := stats.(failure := Some(FetchError), repair := RepairFailed);
          return;
        case Fetched(candles) =>
          var valid := FilterValidCandles(candles, gaps[n].start, gaps[n].end);
          FillOne(filled, gaps, n, answers, range.start, range.end, valid);
          filled := filled + valid;
      }
    }
    var merged := MergeCandlesByTs(range.candles, filled);
    stats := stats.(filled := |filled|, repair := if |filled| > 0 then Repaired else NoRepair);
    var left := stats.requested - stats.filled;
    r := CandleRange(range.start, range.end, merged, left == 0, if left > 0 then left else 0);
    FilledAreNew(range.candles, filled, gaps, answers, range.start, range.end);
    FilledDistinct(filled, gaps, answers);
    ResponseIs(range.candles, filled, range.start, range.end);
    FilledIsHonest(range, filled, r);
    FilledIsFaithful(range, filled, gaps, answers, r);
  }

  lemma ReadIs(range: CandleRange)
    requires Read(range)
    ensures range.start <= range.end && Placed(range.candles, range.start, range.end) && Timeline(range.candles)
    ensures range.missing == Missing(range.candles, range.start, range.end)
    ensures forall c :: c in range.candles ==> range.start <= c.ts < range.end
    ensures 0 <= range.missing
  {}

  lemma NothingFilled(gaps: seq<Gap>, answers: seq<Fetch>)
    ensures FilledFrom([], gaps, 0, answers)
  {}

  lemma FilledDistinct(filled: seq<Candle>, gaps: seq<Gap>, answers: seq<Fetch>)
    requires |answers| == |gaps| && FilledFrom(filled, gaps, |gaps|, answers)
    ensures Distinct(filled)
  {}

  lemma FilledIsFaithful(range: CandleRange, filled: seq<Candle>, gaps: seq<Gap>, answers: seq<Fetch>, r: CandleRange)
    requires |answers| == |gaps| && FilledFrom(filled, gaps, |gaps|, answers) && forall c :: c in filled ==> Aligned(c.ts)
    requires r.start == range.start && r.end == range.end && Response(r.candles, range.candles, filled, r.start, r.end)
    ensures Faithful(range, r, answers)
    ensures filled == [] ==> r.candles == range.candles || !Timeline(range.candles)
  {
    forall c | c in r.candles
      ensures c in range.candles || (Aligned(c.ts) && exists k :: 0 <= k < |answers| && Answered(answers[k], c))
    {
      if c in filled {
        var k :| 0 <= k < |gaps| && CameFrom(c, gaps[k], answers[k]);
        assert Answered(answers[k], c);
      }
    }
    if filled == [] && Timeline(range.candles) { TimelinesEqual(r.candles, range.candles); }
  }

  /** An aligned window of whole minutes is always reported honestly. */
  lemma AlignedWindowsAreHonest(r: CandleRange)
    requires Honest(r) && r.start <= r.end && r.start % 60 == 0 && r.end % 60 == 0 && OnTheMinute(r.candles)
    ensures r.missing == TrueMissing(r.candles, r.start, r.end)
  {
    WindowHoldsAtMostOneMore(r.start, r.end);
    hide TrueMissing;
  }

  /** Ninety seconds from midnight hold two minutes, but count as one. */
  lemma UnalignedWindowMiscounts()
    ensures Missing([], 0, 90) == 1 && TrueMissing([], 0, 90) == 2
  {
    TrueMissingIs([], 0, 90);
  }

  const OFF_MINUTE := [Candle(70, 1.0, 1.0, 1.0, 1.0, 0.0), Candle(80, 1.0, 1.0, 1.0, 1.0, 0.0)]

  /** Two stored candles off the minute in a window of four: two minutes count as missing, all four are,
      and the gaps hold three of them, so the filled count can exceed the requested one. */
  lemma OffMinuteMiscounts()
    ensures Missing(OFF_MINUTE, 0, 240) == 2 && TrueMissing(OFF_MINUTE, 0, 240) == 4
    ensures Gaps(OFF_MINUTE, 0, 240) == [Gap(0, 70, 1), Gap(140, 240, 1)]
  {
    hide TrueMissing, AlignedStamps, Gaps;
    TrueMissingIs(OFF_MINUTE, 0, 240);
    NoneAligned();
    OffMinuteGaps();
  }

  lemma NoneAligned()
    ensures AlignedStamps(OFF_MINUTE) == {}
  {
    hide AlignedStamps;
    assert forall c :: c in OFF_MINUTE ==> c.ts == 70 || c.ts == 80;
    assert forall t :: t in AlignedStamps(OFF_MINUTE) ==> t == 70 || t == 80;
  }

  lemma OffMinuteGaps()
    ensures Gaps(OFF_MINUTE, 0, 240) == [Gap(0, 70, 1), Gap(140, 240, 1)]
  {
    assert Inner(OFF_MINUTE, 0) == [];
    assert Inner(OFF_MINUTE, 1) == [];
    assert Head(OFF_MINUTE, 0) == [Gap(0, 70, 1)];
    assert Tail(OFF_MINUTE, 240) == [Gap(140, 240, 1)];
  }
}
