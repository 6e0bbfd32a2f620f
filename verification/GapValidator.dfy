/** The candle validator: duplicates, step errors and gaps of a series in `[start, end)`. */
module GapValidator {
  import opened Series

  datatype Gap = Gap(start: int, end: int, count: int)

  datatype Report = Report(expected: int, missing: int, duplicates: nat, stepErrors: nat, gaps: seq<Gap>)

  /** `len(timestamps) - len(set(timestamps))`. */
  function Duplicates(candles: seq<Candle>): (n: nat)
    ensures Timeline(candles) ==> n == 0
  {
    DistinctStamps(candles);
    |candles| - |set c | c in candles :: c.ts|
  }

  lemma {:induction false} DistinctStamps(candles: seq<Candle>)
    ensures |set c | c in candles :: c.ts| <= |candles|
    ensures Timeline(candles) ==> |set c | c in candles :: c.ts| == |candles|
  {
    if candles != [] {
      var n := |candles| - 1;
      var rest := candles[..n];
      DistinctStamps(rest);
      var all := set c | c in candles :: c.ts;
      var some := set c | c in rest :: c.ts;
      assert candles == rest + [candles[n]];
      assert all == some + {candles[n].ts};
      if Timeline(candles) {
        assert candles[n].ts !in some;
      }
    }
  }

  /** Consecutive pairs that are not exactly sixty seconds apart. */
  function StepErrors(candles: seq<Candle>): nat {
    if |candles| < 2 then 0
    else
      var n := |candles| - 1;
      StepErrors(candles[..n]) + if candles[n].ts - candles[n - 1].ts != 60 then 1 else 0
  }

  /** A batch without step errors is a run of consecutive minutes; it has no duplicates either. */
  lemma {:induction false} CleanBatch(candles: seq<Candle>)
    requires StepErrors(candles) == 0
    ensures forall i :: 0 <= i < |candles| ==> candles[i].ts == candles[0].ts + 60 * i
    ensures Timeline(candles) && Duplicates(candles) == 0
  {
    if |candles| >= 2 {
      var n := |candles| - 1;
      CleanBatch(candles[..n]);
      assert candles[..n][n - 1] == candles[n - 1];
      forall i | 0 <= i < |candles| ensures candles[i].ts == candles[0].ts + 60 * i {
        if i < n { assert candles[..n][i] == candles[i]; }
      }
    }
  }

  /** `int((b - a).total_seconds() / 60)` for `a <= b`. */
  function MinutesBetween(a: int, b: int): int {
    (b - a) / 60
  }

  function Head(candles: seq<Candle>, start: int): seq<Gap>
    requires candles != []
  {
    var first := candles[0].ts;
    if first > start && MinutesBetween(start, first) > 0 then [Gap(start, first, MinutesBetween(start, first))] else []
  }

  /** The gaps between the first `n + 1` candles. */
  function Inner(candles: seq<Candle>, n: nat): seq<Gap>
    requires n < |candles|
  {
    if n == 0 then []
    else
      var next := candles[n - 1].ts + 60;
      Inner(candles, n - 1)
      + if candles[n].ts > next then [Gap(next, candles[n].ts, MinutesBetween(next, candles[n].ts))] else []
  }

  function Tail(candles: seq<Candle>, end: int): seq<Gap>
    requires candles != []
  {
    var last := candles[|candles| - 1].ts;
    if last < end - 60 && MinutesBetween(last + 60, end) > 0
    then [Gap(last + 60, end, MinutesBetween(last + 60, end))] else []
  }

  function Gaps(candles: seq<Candle>, start: int, end: int): seq<Gap> {
    if candles == [] then [Gap(start, end, MinutesBetween(start, end))]
    else Head(candles, start) + Inner(candles, |candles| - 1) + Tail(candles, end)
  }

  function Missing(candles: seq<Candle>, start: int, end: int): int {
    var expected := MinutesBetween(start, end);
    if candles == [] then expected else if expected > |candles| then expected - |candles| else 0
  }

  method FindGaps(candles: seq<Candle>, start: int, end: int) returns (gaps: seq<Gap>)
    ensures gaps == Gaps(candles, start, end)
  {
    if candles == [] {
      return [Gap(start, end, MinutesBetween(start, end))];
    }
    gaps := [];
    var first := candles[0].ts;
    if first > start {
      var minutes := MinutesBetween(start, first);
      if minutes > 0 {
        gaps := gaps + [Gap(start, first, minutes)];
      }
    }
    for i := 0 to |candles| - 1
      invariant gaps == Head(candles, start) + Inner(candles, i)
    {
      var expectedNext := candles[i].ts + 60;
      if candles[i + 1].ts > expectedNext {
        gaps := gaps + [Gap(expectedNext, candles[i + 1].ts, MinutesBetween(expectedNext, candles[i + 1].ts))];
      }
    }
    var last := candles[|candles| - 1].ts;
    if last < end - 60 {
      var minutes := MinutesBetween(last + 60, end);
      if minutes > 0 {
        gaps := gaps + [Gap(last + 60, end, minutes)];
      }
    }
  }

  method Validate(candles: seq<Candle>, start: int, end: int) returns (report: Report)
    ensures report == Report(MinutesBetween(start, end), Missing(candles, start, end), Duplicates(candles),
                             StepErrors(candles), Gaps(candles, start, end))
  {
    var expected := MinutesBetween(start, end);
    var gaps := FindGaps(candles, start, end);
    if candles == [] {
      return Report(expected, expected, 0, 0, gaps);
    }
    var unique := set c | c in candles :: c.ts;
    DistinctStamps(candles);
    var duplicates := |candles| - |unique|;
    var stepErrors := 0;
    for i := 1 to |candles|
      invariant stepErrors == StepErrors(candles[..i])
    {
      assert candles[..i + 1][..i] == candles[..i];
      if candles[i].ts - candles[i - 1].ts != 60 {
        stepErrors := stepErrors + 1;
      }
    }
    assert candles[..|candles|] == candles;
    return Report(expected, if expected > |candles| then expected - |candles| else 0, duplicates, stepErrors, gaps);
  }

  // ---- the gaps are exactly the missing minutes ----

  predicate Aligned(t: int) { t % 60 == 0 }

  ghost predicate WellPlaced(candles: seq<Candle>, start: int, end: int) {
    Timeline(candles) && forall c :: c in candles ==> Aligned(c.ts) && start <= c.ts < end
  }

  predicate Inside(g: Gap, t: int) { g.start <= t < g.end }

  ghost predicate CoveredBy(gaps: seq<Gap>, t: int) {
    exists g :: g in gaps && Inside(g, t)
  }

  /** Gaps follow one another without touching the one before. */
  ghost predicate Apart(gaps: seq<Gap>) {
    && (forall g :: g in gaps ==> g.start < g.end && Aligned(g.start) && Aligned(g.end) && g.count == (g.end - g.start) / 60)
    && forall i, j :: 0 <= i < j < |gaps| ==> gaps[i].end < gaps[j].start
  }

  ghost predicate HasCandle(candles: seq<Candle>, t: int) {
    exists c :: c in candles && c.ts == t
  }

  /** What the gaps found so far say about the minutes before `upTo`. */
  ghost predicate Exact(candles: seq<Candle>, gaps: seq<Gap>, start: int, upTo: int) {
    && Apart(gaps)
    && (forall g :: g in gaps ==> start <= g.start && g.end <= upTo)
    && forall t :: Aligned(t) && start <= t < upTo ==> (CoveredBy(gaps, t) <==> !HasCandle(candles, t))
  }

  lemma AppendGap(candles: seq<Candle>, gaps: seq<Gap>, start: int, a: int, b: int)
    requires Exact(candles, gaps, start, a) && a < b && Aligned(a) && Aligned(b) && start <= a
    requires forall g :: g in gaps ==> g.end < a
    requires forall t :: Aligned(t) && a <= t < b ==> !HasCandle(candles, t)
    ensures Exact(candles, gaps + [Gap(a, b, MinutesBetween(a, b))], start, b)
  {
    var g := Gap(a, b, MinutesBetween(a, b));
    var all := gaps + [g];
    forall t | Aligned(t) && start <= t < b ensures CoveredBy(all, t) <==> !HasCandle(candles, t) {
      assert g in all;
      if CoveredBy(gaps, t) {
        var x :| x in gaps && Inside(x, t);
        assert x in all;
      }
    }
  }

  /** One candle at `a` extends the examined range without adding a gap. */
  lemma StepOverCandle(candles: seq<Candle>, gaps: seq<Gap>, start: int, a: int)
    requires Exact(candles, gaps, start, a) && Aligned(a) && HasCandle(candles, a)
    ensures Exact(candles, gaps, start, a + 60)
    ensures forall g :: g in gaps ==> g.end < a + 60
  {
    forall t | Aligned(t) && start <= t < a + 60 ensures CoveredBy(gaps, t) <==> !HasCandle(candles, t) {
      assert t < a || t == a;
    }
  }

  lemma AlignedStep(a: int, b: int)
    requires Aligned(a) && Aligned(b) && a < b
    ensures Aligned(a + 60) && a + 60 <= b
    ensures MinutesBetween(a, b) > 0
  {}

  lemma NoneBetween(candles: seq<Candle>, i: nat, t: int)
    requires Timeline(candles) && i + 1 < |candles| && candles[i].ts < t < candles[i + 1].ts
    ensures !HasCandle(candles, t)
  {
    forall c | c in candles ensures c.ts != t {
      var j :| 0 <= j < |candles| && candles[j] == c;
      assert j <= i ==> candles[j].ts <= candles[i].ts;
      assert j > i ==> candles[i + 1].ts <= candles[j].ts;
    }
  }

  lemma NoneOutside(candles: seq<Candle>, t: int)
    requires Timeline(candles) && candles != [] && (t < candles[0].ts || candles[|candles| - 1].ts < t)
    ensures !HasCandle(candles, t)
  {
    forall c | c in candles ensures c.ts != t {
      var j :| 0 <= j < |candles| && candles[j] == c;
      assert candles[0].ts <= candles[j].ts <= candles[|candles| - 1].ts;
    }
  }

  lemma HeadExact(candles: seq<Candle>, start: int, end: int)
    requires WellPlaced(candles, start, end) && Aligned(start) && candles != []
    ensures Exact(candles, Head(candles, start), start, candles[0].ts)
  {
    assert candles[0] in candles;
    forall t | Aligned(t) && start <= t < candles[0].ts ensures !HasCandle(candles, t) { NoneOutside(candles, t); }
    if candles[0].ts > start {
      AppendGap(candles, [], start, start, candles[0].ts);
      assert [] + [Gap(start, candles[0].ts, MinutesBetween(start, candles[0].ts))] == Head(candles, start);
    }
  }

  /** From just after one candle to the next: one gap, or none when they are adjacent. */
  lemma BetweenExact(candles: seq<Candle>, gaps: seq<Gap>, start: int, end: int, n: nat)
    requires WellPlaced(candles, start, end) && Aligned(start) && 0 < n < |candles|
    requires Exact(candles, gaps, start, candles[n - 1].ts + 60)
    requires forall g :: g in gaps ==> g.end < candles[n - 1].ts + 60
    ensures var next := candles[n - 1].ts + 60;
      Exact(candles, gaps + (if candles[n].ts > next
        then [Gap(next, candles[n].ts, MinutesBetween(next, candles[n].ts))] else []), start, candles[n].ts)
  {
    hide Exact, HasCandle, MinutesBetween;
    assert candles[n] in candles && candles[n - 1] in candles;
    AlignedStep(candles[n - 1].ts, candles[n].ts);
    var next := candles[n - 1].ts + 60;
    if candles[n].ts > next {
      forall t | Aligned(t) && next <= t < candles[n].ts ensures !HasCandle(candles, t) { NoneBetween(candles, n - 1, t); }
      AppendGap(candles, gaps, start, next, candles[n].ts);
    } else {
      assert gaps + [] == gaps;
    }
  }

  lemma InnerStep(head: seq<Gap>, candles: seq<Candle>, n: nat)
    requires 0 < n < |candles|
    ensures var next := candles[n - 1].ts + 60;
      head + Inner(candles, n) == (head + Inner(candles, n - 1)) + (if candles[n].ts > next
        then [Gap(next, candles[n].ts, MinutesBetween(next, candles[n].ts))] else [])
  {}

  /** The gaps up to and including candle `n`: exact, and none touches what comes next. */
  ghost predicate ExactThrough(candles: seq<Candle>, gaps: seq<Gap>, start: int, n: nat)
    requires n < |candles|
  {
    Exact(candles, gaps, start, candles[n].ts + 60) && forall g :: g in gaps ==> g.end < candles[n].ts + 60
  }

  lemma ThroughCandle(candles: seq<Candle>, gaps: seq<Gap>, start: int, end: int, n: nat)
    requires WellPlaced(candles, start, end) && n < |candles| && Exact(candles, gaps, start, candles[n].ts)
    ensures ExactThrough(candles, gaps, start, n)
  {
    assert candles[n] in candles && HasCandle(candles, candles[n].ts);
    hide Exact;
    StepOverCandle(candles, gaps, start, candles[n].ts);
  }

  lemma {:induction false} InnerExact(candles: seq<Candle>, start: int, end: int, n: nat)
    requires WellPlaced(candles, start, end) && Aligned(start) && n < |candles|
    ensures ExactThrough(candles, Head(candles, start) + Inner(candles, n), start, n)
  {
    hide Exact, WellPlaced, Head, Aligned;
    var gaps := Head(candles, start) + Inner(candles, n);
    if n == 0 {
      HeadExact(candles, start, end);
      assert gaps == Head(candles, start);
    } else {
      InnerExact(candles, start, end, n - 1);
      BetweenExact(candles, Head(candles, start) + Inner(candles, n - 1), start, end, n);
      InnerStep(Head(candles, start), candles, n);
    }
    ThroughCandle(candles, gaps, start, end, n);
  }

  lemma TailExact(candles: seq<Candle>, gaps: seq<Gap>, start: int, end: int)
    requires WellPlaced(candles, start, end) && Aligned(start) && Aligned(end) && candles != []
    requires Exact(candles, gaps, start, candles[|candles| - 1].ts + 60)
    requires forall g :: g in gaps ==> g.end < candles[|candles| - 1].ts + 60
    ensures Exact(candles, gaps + Tail(candles, end), start, end)
  {
    hide Exact, HasCandle, MinutesBetween;
    var last := candles[|candles| - 1].ts;
    assert candles[|candles| - 1] in candles;
    AlignedStep(last, end);
    if last + 60 < end { AlignedStep(last + 60, end); }
    if last < end - 60 {
      forall t | Aligned(t) && last + 60 <= t < end ensures !HasCandle(candles, t) { NoneOutside(candles, t); }
      AppendGap(candles, gaps, start, last + 60, end);
    } else {
      assert gaps + [] == gaps;
    }
  }

  /** For aligned candles in an aligned window the gaps are disjoint, do not touch, and cover exactly
      the minutes without a candle. */
  lemma GapsAreTheMissingMinutes(candles: seq<Candle>, start: int, end: int)
    requires WellPlaced(candles, start, end) && Aligned(start) && Aligned(end) && start < end
    ensures Exact(candles, Gaps(candles, start, end), start, end)
  {
    hide Exact, WellPlaced, Head, Inner, Tail, Aligned, MinutesBetween;
    if candles == [] {
      EmptyWindow(start, end);
    } else {
      InnerExact(candles, start, end, |candles| - 1);
      TailExact(candles, Head(candles, start) + Inner(candles, |candles| - 1), start, end);
    }
  }

  lemma EmptyWindow(start: int, end: int)
    requires Aligned(start) && Aligned(end) && start < end
    ensures Exact([], [Gap(start, end, MinutesBetween(start, end))], start, end)
  {
    AppendGap([], [], start, start, end);
    assert [] + [Gap(start, end, MinutesBetween(start, end))] == [Gap(start, end, MinutesBetween(start, end))];
  }
}
