/** The offline tool that rebuilds one-minute candles from recorded ticks in one pass. */
module TickRebuild {
  import opened Series
  import opened Ticks

  // ---- the spike filter ----

  function Insert(x: real, s: seq<real>): (r: seq<real>)
    ensures multiset(r) == multiset(s) + multiset{x}
  {
    if s == [] then [x]
    else
      assert s == [s[0]] + s[1..];
      if x <= s[0] then [x] + s else [s[0]] + Insert(x, s[1..])
  }

  function SortReals(s: seq<real>): (r: seq<real>)
    ensures multiset(r) == multiset(s)
    ensures |r| == |s|
  {
    if s == [] then []
    else
      var r := Insert(s[0], SortReals(s[1..]));
      assert s == [s[0]] + s[1..];
      assert |multiset(r)| == |r| && |multiset(s)| == |s|;
      r
  }

  ghost predicate NonDecreasing(s: seq<real>) {
    forall i, j :: 0 <= i < j < |s| ==> s[i] <= s[j]
  }

  lemma {:induction false} InsertSorted(x: real, s: seq<real>)
    requires NonDecreasing(s)
    ensures NonDecreasing(Insert(x, s))
  {
    if s != [] && x > s[0] {
      InsertSorted(x, s[1..]);
      var r := Insert(x, s[1..]);
      forall i | 0 <= i < |r| ensures s[0] <= r[i] {
        assert r[i] in multiset(r);
        assert r[i] in multiset(s[1..]) + multiset{x};
      }
    }
  }

  lemma {:induction false} SortRealsSorts(s: seq<real>)
    ensures NonDecreasing(SortReals(s))
  {
    if s != [] {
      SortRealsSorts(s[1..]);
      InsertSorted(s[0], SortReals(s[1..]));
    }
  }

  /** `statistics.median`. */
  function Median(prices: seq<real>): real
    requires prices != []
  {
    var s := SortReals(prices);
    var n := |s|;
    if n % 2 == 1 then s[n / 2] else (s[n / 2 - 1] + s[n / 2]) / 2.0
  }

  lemma MedianWithinRange(prices: seq<real>)
    requires prices != []
    ensures Min(prices) <= Median(prices) <= Max(prices)
  {
    var s := SortReals(prices);
    forall i | 0 <= i < |s| ensures Min(prices) <= s[i] <= Max(prices) {
      assert s[i] in multiset(s);
      assert s[i] in multiset(prices) && s[i] in prices;
    }
  }

  function AtLeast(prices: seq<real>, threshold: real): (r: seq<real>)
    ensures forall p :: p in r <==> p in prices && p >= threshold
    ensures |r| <= |prices|
  {
    if prices == [] then []
    else
      assert prices == [prices[0]] + prices[1..];
      (if prices[0] >= threshold then [prices[0]] else []) + AtLeast(prices[1..], threshold)
  }

  lemma {:induction false} AtLeastKeepsAll(prices: seq<real>, threshold: real)
    ensures AtLeast(prices, threshold) == prices <==> forall p :: p in prices ==> p >= threshold
  {
    if prices != [] {
      AtLeastKeepsAll(prices[1..], threshold);
      assert prices == [prices[0]] + prices[1..];
      var rest := AtLeast(prices[1..], threshold);
      if prices[0] >= threshold {
        assert ([prices[0]] + rest)[1..] == rest;
        forall p ensures p in prices <==> p == prices[0] || p in prices[1..] {
          assert p in prices <==> p in [prices[0]] + prices[1..];
        }
      } else {
        assert prices[0] in prices;
      }
    }
  }

  function Threshold(prices: seq<real>, pct: real): real
    requires prices != []
  {
    Median(prices) * pct
  }

  /** The prices that reach the threshold, or all of them when none does. */
  function Keep(prices: seq<real>, threshold: real): seq<real> {
    var clean := AtLeast(prices, threshold);
    if clean == [] then prices else clean
  }

  function FilterSpikes(prices: seq<real>, pct: real): (r: seq<real>)
    ensures prices != [] ==> r != []
    ensures |r| <= |prices| && forall p :: p in r ==> p in prices
  {
    if |prices| < 2 then prices else Keep(prices, Threshold(prices, pct))
  }

  lemma NoneLeft(prices: seq<real>, threshold: real)
    ensures AtLeast(prices, threshold) == [] <==> forall p :: p in prices ==> p < threshold
  {
    var clean := AtLeast(prices, threshold);
    if clean != [] {
      assert clean[0] in clean;
    } else {
      forall p | p in prices ensures p < threshold { assert p !in clean; }
    }
  }

  /** The filter changes a bucket exactly when some price is below the threshold and some is not. */
  lemma FilterInactive(prices: seq<real>, pct: real)
    requires |prices| >= 2
    ensures FilterSpikes(prices, pct) == prices <==>
      ((forall p :: p in prices ==> p >= Threshold(prices, pct)) || (forall p :: p in prices ==> p < Threshold(prices, pct)))
  {
    var t := Threshold(prices, pct);
    AtLeastKeepsAll(prices, t);
    NoneLeft(prices, t);
    assert prices[0] in prices;
  }

  /** With a factor of at most one and non-negative prices the filter never falls back: some price
      always reaches the threshold, so every price kept does. */
  lemma FallbackNeverNeeded(prices: seq<real>, pct: real)
    requires |prices| >= 2 && pct <= 1.0 && forall p :: p in prices ==> p >= 0.0
    ensures forall p :: p in FilterSpikes(prices, pct) <==> p in prices && p >= Threshold(prices, pct)
  {
    ThresholdReached(prices, pct);
    hide Threshold;
    SomeKept(prices, Threshold(prices, pct));
  }

  lemma MedianIsNotNegative(prices: seq<real>)
    requires prices != [] && forall p :: p in prices ==> p >= 0.0
    ensures Median(prices) >= 0.0
  {
    hide Median, Min, Max;
    MedianWithinRange(prices);
    assert Min(prices) in prices;
  }

  lemma ThresholdBelowMedian(prices: seq<real>, pct: real)
    requires prices != [] && pct <= 1.0 && forall p :: p in prices ==> p >= 0.0
    ensures Threshold(prices, pct) <= Median(prices)
  {
    MedianIsNotNegative(prices);
    hide Median;
    ScaleDown(Median(prices), pct);
  }

  lemma ThresholdReached(prices: seq<real>, pct: real)
    requires prices != [] && pct <= 1.0 && forall p :: p in prices ==> p >= 0.0
    ensures Threshold(prices, pct) <= Max(prices)
  {
    hide Median, Threshold, Min, Max;
    MedianWithinRange(prices);
    ThresholdBelowMedian(prices, pct);
  }

  lemma SomeKept(prices: seq<real>, threshold: real)
    requires prices != [] && threshold <= Max(prices)
    ensures forall p :: p in Keep(prices, threshold) <==> p in prices && p >= threshold
  {
    assert Max(prices) in AtLeast(prices, threshold);
  }

  lemma ScaleDown(m: real, pct: real)
    requires m >= 0.0 && pct <= 1.0
    ensures m * pct <= m
  {
    assert m * (1.0 - pct) >= 0.0;
  }

  // ---- the median splits the prices ----

  /** How many prices are at least, or at most, `x`. */
  function Beside(prices: seq<real>, x: real, above: bool): nat {
    if prices == [] then 0
    else (if OnSide(prices[0], x, above) then 1 else 0) + Beside(prices[1..], x, above)
  }

  predicate OnSide(p: real, x: real, above: bool) {
    if above then p >= x else p <= x
  }

  lemma {:induction false} BesideInsert(y: real, s: seq<real>, x: real, above: bool)
    ensures Beside(Insert(y, s), x, above) == Beside(s, x, above) + if OnSide(y, x, above) then 1 else 0
  {
    if s == [] || y <= s[0] {
      assert ([y] + s)[1..] == s;
    } else {
      BesideInsert(y, s[1..], x, above);
      assert ([s[0]] + Insert(y, s[1..]))[1..] == Insert(y, s[1..]);
    }
  }

  lemma {:induction false} BesideSorted(s: seq<real>, x: real, above: bool)
    ensures Beside(SortReals(s), x, above) == Beside(s, x, above)
  {
    if s != [] {
      BesideSorted(s[1..], x, above);
      BesideInsert(s[0], SortReals(s[1..]), x, above);
    }
  }

  /** A stretch of prices on one side counts in full. */
  lemma {:induction false} BesideStretch(s: seq<real>, lo: nat, hi: nat, x: real, above: bool)
    requires lo <= hi <= |s| && forall i :: lo <= i < hi ==> OnSide(s[i], x, above)
    ensures Beside(s, x, above) >= hi - lo
  {
    if s != [] {
      assert forall i :: 0 <= i < |s| - 1 ==> s[1..][i] == s[i + 1];
      if lo > 0 {
        BesideStretch(s[1..], lo - 1, hi - 1, x, above);
      } else if hi > 0 {
        BesideStretch(s[1..], 0, hi - 1, x, above);
      }
    }
  }

  /** At least half of the prices reach the median, and at least half do not exceed it. */
  lemma MedianSplits(prices: seq<real>)
    requires prices != []
    ensures 2 * Beside(prices, Median(prices), true) >= |prices|
    ensures 2 * Beside(prices, Median(prices), false) >= |prices|
  {
    var s, m := SortReals(prices), Median(prices);
    var n := |s|;
    SortRealsSorts(prices);
    BesideSorted(prices, m, true);
    BesideSorted(prices, m, false);
    MedianBetween(prices);
    BesideStretch(s, n / 2, n, m, true);
    BesideStretch(s, 0, (n + 1) / 2, m, false);
  }

  lemma MedianBetween(prices: seq<real>)
    requires prices != []
    ensures var s := SortReals(prices);
      var n := |s|;
      && (forall i :: n / 2 <= i < n ==> s[i] >= Median(prices))
      && (forall i :: 0 <= i < (n + 1) / 2 ==> s[i] <= Median(prices))
  {
    SortRealsSorts(prices);
    var s := SortReals(prices);
    var n := |s|;
    hide SortReals;
    if n % 2 == 0 {
      assert s[n / 2 - 1] <= s[n / 2];
    }
  }

  lemma {:induction false} AtLeastCounts(prices: seq<real>, x: real, threshold: real)
    requires threshold <= x
    ensures |AtLeast(prices, threshold)| >= Beside(prices, x, true)
  {
    if prices != [] {
      AtLeastCounts(prices[1..], x, threshold);
    }
  }

  /** With a factor of at most one and non-negative prices the filter keeps at least half of the prices. */
  lemma FilterKeepsHalf(prices: seq<real>, pct: real)
    requires pct <= 1.0 && forall p :: p in prices ==> p >= 0.0
    ensures 2 * |FilterSpikes(prices, pct)| >= |prices|
  {
    hide Median, Threshold, Beside, AtLeast;
    if |prices| >= 2 {
      MedianSplits(prices);
      ThresholdBelowMedian(prices, pct);
      AtLeastCounts(prices, Median(prices), Threshold(prices, pct));
    }
  }

  // ---- the rebuild ----

  /** The prices of one minute, in arrival order. */
  function BucketPrices(ticks: seq<Tick>, m: int): seq<real> {
    Prices(InMinute(ticks, m))
  }

  /** The candle of minute `m`, if it holds ticks, lies in the range and the market is open. */
  function CandleOf(ticks: seq<Tick>, m: int, open: int -> bool, from: int, to: int, pct: real): seq<Candle> {
    var prices := BucketPrices(ticks, m);
    if from <= m < to && prices != [] && open(m) then [Bar(m, FilterSpikes(prices, pct))] else []
  }

  function Build(ticks: seq<Tick>, minutes: seq<int>, open: int -> bool, from: int, to: int, pct: real): seq<Candle> {
    if minutes == [] then []
    else
      var n := |minutes| - 1;
      Build(ticks, minutes[..n], open, from, to, pct) + CandleOf(ticks, minutes[n], open, from, to, pct)
  }

  function Rebuild(ticks: seq<Tick>, open: int -> bool, from: int, to: int, pct: real): seq<Candle> {
    Build(ticks, Sorted(MinutesOf(ticks)), open, from, to, pct)
  }

  lemma {:induction false} BuildIs(ticks: seq<Tick>, minutes: seq<int>, open: int -> bool, from: int, to: int, pct: real)
    requires Ascending(minutes)
    ensures Timeline(Build(ticks, minutes, open, from, to, pct))
    ensures forall c :: c in Build(ticks, minutes, open, from, to, pct) <==>
      c.ts in minutes && CandleOf(ticks, c.ts, open, from, to, pct) == [c]
  {
    hide CandleOf;
    if minutes != [] {
      var n := |minutes| - 1;
      assert minutes == minutes[..n] + [minutes[n]];
      BuildIs(ticks, minutes[..n], open, from, to, pct);
      var rest := Build(ticks, minutes[..n], open, from, to, pct);
      var last := CandleOf(ticks, minutes[n], open, from, to, pct);
      OneCandle(ticks, minutes[n], open, from, to, pct);
      forall i | 0 <= i < |rest| ensures rest[i].ts < minutes[n] {
        assert rest[i] in rest;
      }
      forall c ensures c in rest + last <==> c.ts in minutes && CandleOf(ticks, c.ts, open, from, to, pct) == [c] {
        assert c in rest + last <==> c in rest || c in last;
      }
    }
  }

  lemma OneCandle(ticks: seq<Tick>, m: int, open: int -> bool, from: int, to: int, pct: real)
    ensures var r := CandleOf(ticks, m, open, from, to, pct); |r| <= 1 && forall c :: c in r <==> r == [c] && c.ts == m
  {}

  /** The rebuild yields exactly one candle per open minute of the range that holds a tick, in order. */
  lemma RebuildIs(ticks: seq<Tick>, open: int -> bool, from: int, to: int, pct: real)
    ensures var r := Rebuild(ticks, open, from, to, pct);
      && Timeline(r)
      && (forall c :: c in r <==> c.ts in MinutesOf(ticks) && CandleOf(ticks, c.ts, open, from, to, pct) == [c])
  {
    BuildIs(ticks, Sorted(MinutesOf(ticks)), open, from, to, pct);
  }

  // ---- the tool's loops ----

  method BucketTicks(ticks: seq<Tick>) returns (buckets: map<int, seq<real>>)
    ensures buckets.Keys == MinutesOf(ticks)
    ensures forall m :: m in buckets ==> buckets[m] == BucketPrices(ticks, m) && buckets[m] != []
  {
    hide BucketPrices, MinutesOf, Minute;
    buckets := map[];
    NoTicks();
    for i := 0 to |ticks|
      invariant buckets.Keys == MinutesOf(ticks[..i])
      invariant forall m :: m in buckets ==> buckets[m] == BucketPrices(ticks[..i], m) && buckets[m] != []
    {
      var bucket := Minute(ticks[i].ts);
      BucketStep(ticks, i, buckets);
      if bucket !in buckets {
        buckets := buckets[bucket := []];
      }
      buckets := buckets[bucket := buckets[bucket] + [ticks[i].price]];
    }
    assert ticks[..|ticks|] == ticks;
  }

  lemma NoTicks()
    ensures MinutesOf([]) == {}
  {}

  lemma BucketAppend(ticks: seq<Tick>, t: Tick, m: int)
    ensures BucketPrices(ticks + [t], m) == BucketPrices(ticks, m) + if Minute(t.ts) == m then [t.price] else []
  {
    InMinuteAppend(ticks, t, m);
    hide InMinute, Minute;
  }

  lemma BucketEmpty(ticks: seq<Tick>, m: int)
    ensures m in MinutesOf(ticks) <==> BucketPrices(ticks, m) != []
  {
    MinuteOfTicks(ticks, m);
    hide MinutesOf, InMinute;
  }

  /** What one more tick does to the buckets. */
  lemma BucketStep(ticks: seq<Tick>, i: nat, buckets: map<int, seq<real>>)
    requires i < |ticks| && buckets.Keys == MinutesOf(ticks[..i])
    requires forall m :: m in buckets ==> buckets[m] == BucketPrices(ticks[..i], m)
    ensures var b := Minute(ticks[i].ts);
      && MinutesOf(ticks[..i + 1]) == buckets.Keys + {b}
      && (forall m :: m in buckets && m != b ==> buckets[m] == BucketPrices(ticks[..i + 1], m))
      && BucketPrices(ticks[..i + 1], b) == (if b in buckets then buckets[b] else []) + [ticks[i].price]
  {
    hide *;
    assert ticks[..i + 1] == ticks[..i] + [ticks[i]];
    MinutesAppend(ticks[..i], ticks[i]);
    var b := Minute(ticks[i].ts);
    BucketAppend(ticks[..i], ticks[i], b);
    BucketEmpty(ticks[..i], b);
    forall m | m in buckets && m != b ensures buckets[m] == BucketPrices(ticks[..i + 1], m) {
      BucketAppend(ticks[..i], ticks[i], m);
    }
  }

  datatype Stats = Stats(ticksRead: nat, bucketsTotal: nat, bucketsOpen: nat, bucketsClosed: nat,
                         candlesBuilt: nat, spikeFiltered: nat)

  /** How many of the minutes are in range and closed. */
  function ClosedIn(minutes: seq<int>, open: int -> bool, from: int, to: int): nat {
    if minutes == [] then 0
    else
      var n := |minutes| - 1;
      ClosedIn(minutes[..n], open, from, to) + if from <= minutes[n] < to && !open(minutes[n]) then 1 else 0
  }

  function SpikesOf(ticks: seq<Tick>, m: int, pct: real): nat {
    |BucketPrices(ticks, m)| - |FilterSpikes(BucketPrices(ticks, m), pct)|
  }

  /** How many ticks of the minutes in range and open are filtered out. */
  function SpikesIn(ticks: seq<Tick>, minutes: seq<int>, open: int -> bool, from: int, to: int, pct: real): nat {
    if minutes == [] then 0
    else
      var n := |minutes| - 1;
      SpikesIn(ticks, minutes[..n], open, from, to, pct) + if from <= minutes[n] < to && open(minutes[n]) then SpikesOf(ticks, minutes[n], pct) else 0
  }

  /** The result and the counters after some of the minutes. */
  predicate Built(ticks: seq<Tick>, minutes: seq<int>, open: int -> bool, from: int, to: int, pct: real,
                  candles: seq<Candle>, nClosed: nat, filtered: int)
  {
    && candles == Build(ticks, minutes, open, from, to, pct)
    && nClosed == ClosedIn(minutes, open, from, to)
    && filtered == SpikesIn(ticks, minutes, open, from, to, pct)
  }

  lemma BuiltStep(ticks: seq<Tick>, minutes: seq<int>, i: nat, open: int -> bool, from: int, to: int, pct: real,
                  candles: seq<Candle>, nClosed: nat, filtered: int)
    requires i < |minutes| && Built(ticks, minutes[..i], open, from, to, pct, candles, nClosed, filtered)
    requires BucketPrices(ticks, minutes[i]) != []
    ensures var m := minutes[i];
      Built(ticks, minutes[..i + 1], open, from, to, pct, candles + CandleOf(ticks, m, open, from, to, pct),
            nClosed + (if from <= m < to && !open(m) then 1 else 0),
            filtered + (if from <= m < to && open(m) then SpikesOf(ticks, m, pct) else 0))
  {
    hide CandleOf, SpikesOf, BucketPrices;
    assert minutes[..i + 1][..i] == minutes[..i];
  }

  method RebuildCandles(ticks: seq<Tick>, open: int -> bool, from: int, to: int, pct: real)
    returns (candles: seq<Candle>, stats: Stats)
    ensures candles == Rebuild(ticks, open, from, to, pct)
    ensures stats.ticksRead == |ticks| && stats.bucketsTotal == |MinutesOf(ticks)|
    ensures stats.bucketsOpen == stats.candlesBuilt == |candles|
    ensures stats.bucketsClosed == ClosedIn(Sorted(MinutesOf(ticks)), open, from, to)
    ensures stats.spikeFiltered == SpikesIn(ticks, Sorted(MinutesOf(ticks)), open, from, to, pct)
  {
    hide *;
    var buckets := BucketTicks(ticks);
    candles := [];
    var nOpen, nClosed, filtered: nat := 0, 0, 0;
    var minutes := Sorted(buckets.Keys);
    assert minutes[..0] == [];
    BuiltNone(ticks, open, from, to, pct);
    for i := 0 to |minutes|
      invariant Built(ticks, minutes[..i], open, from, to, pct, candles, nClosed, filtered)
      invariant nOpen == |candles|
    {
      var m := minutes[i];
      assert m in minutes;
      BuiltStep(ticks, minutes, i, open, from, to, pct, candles, nClosed, filtered);
      var bar, closed, dropped := RebuildMinute(ticks, m, buckets[m], open, from, to, pct);
      nOpen := nOpen + |bar|;
      nClosed := nClosed + closed;
      filtered := filtered + dropped;
      candles := candles + bar;
    }
    assert minutes[..|minutes|] == minutes;
    BuiltIs(ticks, minutes, open, from, to, pct, candles, nClosed, filtered);
    stats := Stats(|ticks|, |buckets.Keys|, nOpen, nClosed, |candles|, filtered);
  }

  /** One turn of the loop: the candle of the minute if it gets one, and what it adds to the counters. */
  method RebuildMinute(ghost ticks: seq<Tick>, m: int, prices: seq<real>, open: int -> bool, from: int, to: int, pct: real)
    returns (bar: seq<Candle>, closed: nat, dropped: nat)
    requires prices == BucketPrices(ticks, m) && prices != []
    ensures bar == CandleOf(ticks, m, open, from, to, pct)
    ensures closed == if from <= m < to && !open(m) then 1 else 0
    ensures dropped == if from <= m < to && open(m) then SpikesOf(ticks, m, pct) else 0
  {
    hide BucketPrices, Bar, FilterSpikes;
    if !(from <= m < to) {
      return [], 0, 0;
    }
    if !open(m) {
      return [], 1, 0;
    }
    var clean := FilterSpikes(prices, pct);
    return [Bar(m, clean)], 0, |prices| - |clean|;
  }

  lemma BuiltNone(ticks: seq<Tick>, open: int -> bool, from: int, to: int, pct: real)
    ensures Built(ticks, [], open, from, to, pct, [], 0, 0)
  {}

  lemma BuiltIs(ticks: seq<Tick>, minutes: seq<int>, open: int -> bool, from: int, to: int, pct: real,
                candles: seq<Candle>, nClosed: nat, filtered: int)
    requires Built(ticks, minutes, open, from, to, pct, candles, nClosed, filtered) && minutes == Sorted(MinutesOf(ticks))
    ensures candles == Rebuild(ticks, open, from, to, pct)
    ensures nClosed == ClosedIn(minutes, open, from, to) && filtered == SpikesIn(ticks, minutes, open, from, to, pct)
  {}
}
