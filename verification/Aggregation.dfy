/** Aggregation of one-minute candles to a higher timeframe, and the report's invariant check. */
module Aggregation {
  import opened Series

  function MaxReal(a: real, b: real): real { if a >= b then a else b }
  function MinReal(a: real, b: real): real { if a <= b then a else b }

  /** `((ts - offset) // bar) * bar + offset`, floor division. */
  function BucketOf(ts: int, bar: int, offset: int): int
    requires bar > 0
  {
    ((ts - offset) / bar) * bar + offset
  }

  /** The first candle of a bucket. */
  function Open(c: Candle, bucket: int): Candle {
    c.(ts := bucket)
  }

  /** A later candle of the same bucket. */
  function Merge(e: Candle, c: Candle): Candle {
    e.(high := MaxReal(e.high, c.high), low := MinReal(e.low, c.low), close := c.close, volume := e.volume + c.volume)
  }

  /** The dictionary of buckets after all candles. */
  function Fill(cs: seq<Candle>, bar: int, offset: int): map<int, Candle>
    requires bar > 0
  {
    if cs == [] then map[]
    else
      var n := |cs| - 1;
      var m := Fill(cs[..n], bar, offset);
      var b := BucketOf(cs[n].ts, bar, offset);
      m[b := if b in m then Merge(m[b], cs[n]) else Open(cs[n], b)]
  }

  /** One-minute input is returned as it is; anything else goes through the buckets. */
  function Aggregate(cs: seq<Candle>, minutes: int, offset: int): seq<Candle>
    requires minutes >= 1
  {
    if minutes == 1 then cs else Rows(Fill(cs, minutes * 60, offset))
  }

  method AggregateToTf(cs: seq<Candle>, minutes: int, offset: int) returns (bars: seq<Candle>)
    requires minutes >= 1
    ensures bars == Aggregate(cs, minutes, offset)
  {
    if minutes == 1 {
      return cs;
    }
    var bar := minutes * 60;
    var buckets: map<int, Candle> := map[];
    for i := 0 to |cs|
      invariant buckets == Fill(cs[..i], bar, offset)
    {
      var c := cs[i];
      assert cs[..i + 1][..i] == cs[..i];
      var b := BucketOf(c.ts, bar, offset);
      if b !in buckets {
        buckets := buckets[b := Candle(b, c.open, c.high, c.low, c.close, c.volume)];
      } else {
        var existing := buckets[b];
        existing := existing.(high := MaxReal(existing.high, c.high));
        existing := existing.(low := MinReal(existing.low, c.low));
        existing := existing.(close := c.close);
        existing := existing.(volume := existing.volume + c.volume);
        buckets := buckets[b := existing];
      }
    }
    assert cs[..|cs|] == cs;
    return Rows(buckets);
  }

  predicate HasBucket(cs: seq<Candle>, bar: int, offset: int, b: int)
    requires bar > 0
  {
    exists c :: c in cs && BucketOf(c.ts, bar, offset) == b
  }

  predicate HasBar(bars: seq<Candle>, b: int) {
    exists r :: r in bars && r.ts == b
  }

  lemma {:induction false} FillKeyed(cs: seq<Candle>, bar: int, offset: int)
    requires bar > 0
    ensures Keyed(Fill(cs, bar, offset))
    ensures forall b :: b in Fill(cs, bar, offset) <==> HasBucket(cs, bar, offset, b)
  {
    if cs != [] {
      var n := |cs| - 1;
      FillKeyed(cs[..n], bar, offset);
      assert cs == cs[..n] + [cs[n]];
      hide BucketOf;
      forall b ensures HasBucket(cs, bar, offset, b) <==>
        HasBucket(cs[..n], bar, offset, b) || BucketOf(cs[n].ts, bar, offset) == b
      {
        assert cs[n] in cs;
        assert forall c :: c in cs <==> c in cs[..n] || c == cs[n];
      }
    }
  }

  /** The bars of a real aggregation carry strictly increasing bucket times, one bar for each bucket that
      holds a candle. */
  lemma AggregateOrdered(cs: seq<Candle>, minutes: int, offset: int)
    requires minutes > 1
    ensures Timeline(Aggregate(cs, minutes, offset))
    ensures forall b :: HasBar(Aggregate(cs, minutes, offset), b) <==> HasBucket(cs, minutes * 60, offset, b)
  {
    var m := Fill(cs, minutes * 60, offset);
    FillKeyed(cs, minutes * 60, offset);
    RowsOf(m);
    hide Rows, Fill, HasBucket;
    forall b ensures HasBar(Rows(m), b) <==> b in m {
      if b in m { assert m[b] in Rows(m); }
    }
  }

  // ---- volume ----

  function Volume(s: seq<Candle>): real {
    if s == [] then 0.0 else s[0].volume + Volume(s[1..])
  }

  lemma {:induction false} VolumeConcat(a: seq<Candle>, b: seq<Candle>)
    ensures Volume(a + b) == Volume(a) + Volume(b)
  {
    if a == [] {
      assert a + b == b;
    } else {
      VolumeConcat(a[1..], b);
      assert (a + b)[1..] == a[1..] + b;
    }
  }

  function At(m: map<int, Candle>, k: int): map<int, Candle> {
    if k in m then map[k := m[k]] else map[]
  }

  lemma RowsAt(m: map<int, Candle>, k: int)
    requires Keyed(m)
    ensures Volume(Rows(At(m, k))) == if k in m then m[k].volume else 0.0
  {
    RowsOf(At(m, k));
    var r := Rows(At(m, k));
    if k in m {
      assert |r| == 1 && r[0] in r;
      assert r[1..] == [];
    }
  }

  lemma Middle(m: map<int, Candle>, k: int)
    ensures Upto(Beyond(m, k - 1), k) == At(m, k)
    ensures Beyond(Beyond(m, k - 1), k) == Beyond(m, k)
  {}

  lemma VolumeSplit(m: map<int, Candle>, k: int)
    requires Keyed(m)
    ensures Volume(Rows(m)) == Volume(Rows(Upto(m, k - 1))) + (if k in m then m[k].volume else 0.0) + Volume(Rows(Beyond(m, k)))
  {
    hide *;
    RowsSplit(m, k - 1);
    RowsSplit(Beyond(m, k - 1), k);
    Middle(m, k);
    RowsAt(m, k);
    VolumeConcat(Rows(Upto(m, k - 1)), Rows(Beyond(m, k - 1)));
    VolumeConcat(Rows(At(m, k)), Rows(Beyond(m, k)));
  }

  lemma Sides(m: map<int, Candle>, c: Candle)
    requires Keyed(m)
    ensures Keyed(m[c.ts := c])
    ensures Upto(m[c.ts := c], c.ts - 1) == Upto(m, c.ts - 1)
    ensures Beyond(m[c.ts := c], c.ts) == Beyond(m, c.ts)
  {}

  lemma VolumeUpdate(m: map<int, Candle>, c: Candle)
    requires Keyed(m)
    ensures Volume(Rows(m[c.ts := c])) == Volume(Rows(m)) - (if c.ts in m then m[c.ts].volume else 0.0) + c.volume
  {
    hide *;
    Sides(m, c);
    VolumeSplit(m, c.ts);
    VolumeSplit(m[c.ts := c], c.ts);
  }

  lemma FillUnfolds(cs: seq<Candle>, bar: int, offset: int)
    requires bar > 0 && cs != []
    ensures var n := |cs| - 1;
      var m := Fill(cs[..n], bar, offset);
      var b := BucketOf(cs[n].ts, bar, offset);
      Fill(cs, bar, offset) == m[b := if b in m then Merge(m[b], cs[n]) else Open(cs[n], b)]
  {}

  lemma FilledVolume(m: map<int, Candle>, b: int, c: Candle)
    requires Keyed(m)
    ensures Volume(Rows(m[b := if b in m then Merge(m[b], c) else Open(c, b)])) == Volume(Rows(m)) + c.volume
  {
    hide Rows, Volume;
    if b in m {
      VolumeUpdate(m, Merge(m[b], c));
    } else {
      VolumeUpdate(m, Open(c, b));
    }
  }

  lemma VolumeLast(cs: seq<Candle>)
    requires cs != []
    ensures Volume(cs) == Volume(cs[..|cs| - 1]) + cs[|cs| - 1].volume
  {
    var n := |cs| - 1;
    assert cs == cs[..n] + [cs[n]];
    VolumeConcat(cs[..n], [cs[n]]);
    assert [cs[n]][1..] == [];
  }

  lemma {:induction false} FillConservesVolume(cs: seq<Candle>, bar: int, offset: int)
    requires bar > 0
    ensures Volume(Rows(Fill(cs, bar, offset))) == Volume(cs)
  {
    if cs == [] {
      RowsOf(map[]);
    } else {
      var n := |cs| - 1;
      FillConservesVolume(cs[..n], bar, offset);
      FillStep(cs, bar, offset);
    }
  }

  lemma FillStep(cs: seq<Candle>, bar: int, offset: int)
    requires bar > 0 && cs != []
    ensures Volume(Rows(Fill(cs, bar, offset))) - Volume(cs)
         == Volume(Rows(Fill(cs[..|cs| - 1], bar, offset))) - Volume(cs[..|cs| - 1])
  {
    hide *;
    var n := |cs| - 1;
    FillUnfolds(cs, bar, offset);
    FillKeyed(cs[..n], bar, offset);
    FilledVolume(Fill(cs[..n], bar, offset), BucketOf(cs[n].ts, bar, offset), cs[n]);
    VolumeLast(cs);
  }

  /** Every aggregation, of any input in any order, conserves total volume. */
  lemma AggregateConservesVolume(cs: seq<Candle>, minutes: int, offset: int)
    requires minutes >= 1
    ensures Volume(Aggregate(cs, minutes, offset)) == Volume(cs)
  {
    if minutes > 1 { FillConservesVolume(cs, minutes * 60, offset); }
  }

  // ---- the OHLC invariants ----

  predicate Sound(c: Candle) {
    c.low <= MinReal(c.open, c.close) && MaxReal(c.open, c.close) <= c.high
  }

  lemma {:induction false} FillSound(cs: seq<Candle>, bar: int, offset: int)
    requires bar > 0 && forall c :: c in cs ==> Sound(c)
    ensures forall b :: b in Fill(cs, bar, offset) ==> Sound(Fill(cs, bar, offset)[b])
  {
    if cs != [] {
      var n := |cs| - 1;
      assert cs == cs[..n] + [cs[n]] && cs[n] in cs;
      FillSound(cs[..n], bar, offset);
    }
  }

  /** Sound candles aggregate to sound bars. */
  lemma AggregateSound(cs: seq<Candle>, minutes: int, offset: int)
    requires minutes >= 1 && forall c :: c in cs ==> Sound(c)
    ensures forall r :: r in Aggregate(cs, minutes, offset) ==> Sound(r)
  {
    if minutes > 1 {
      FillSound(cs, minutes * 60, offset);
      FillKeyed(cs, minutes * 60, offset);
      RowsOf(Fill(cs, minutes * 60, offset));
      hide Rows, Fill, Sound;
    }
  }

  const TOLERANCE: real := 0.0000000001

  predicate Accepted(c: Candle) {
    c.high >= MaxReal(c.open, c.close) - TOLERANCE && c.low <= MinReal(c.open, c.close) + TOLERANCE
  }

  method CheckInvariants(bars: seq<Candle>) returns (ok: bool, broken: nat, examples: seq<Candle>)
    ensures ok <==> forall c :: c in bars ==> Accepted(c)
    ensures broken == |BrokenBars(bars)| && examples == if broken <= 3 then BrokenBars(bars) else BrokenBars(bars)[..3]
  {
    broken := 0;
    examples := [];
    for i := 0 to |bars|
      invariant broken == |BrokenBars(bars[..i])|
      invariant examples == if broken <= 3 then BrokenBars(bars[..i]) else BrokenBars(bars[..i])[..3]
    {
      assert bars[..i + 1][..i] == bars[..i];
      if !Accepted(bars[i]) {
        broken := broken + 1;
        if |examples| < 3 {
          examples := examples + [bars[i]];
        }
      }
    }
    assert bars[..|bars|] == bars;
    BrokenBarsAre(bars);
    ok := broken == 0;
  }

  function BrokenBars(bars: seq<Candle>): seq<Candle> {
    if bars == [] then []
    else
      var n := |bars| - 1;
      BrokenBars(bars[..n]) + if Accepted(bars[n]) then [] else [bars[n]]
  }

  lemma {:induction false} BrokenBarsAre(bars: seq<Candle>)
    ensures forall c :: c in BrokenBars(bars) <==> c in bars && !Accepted(c)
    ensures BrokenBars(bars) == [] <==> forall c :: c in bars ==> Accepted(c)
  {
    if bars != [] {
      var n := |bars| - 1;
      BrokenBarsAre(bars[..n]);
      assert bars == bars[..n] + [bars[n]];
      hide Accepted;
      forall c ensures c in BrokenBars(bars) <==> c in bars && !Accepted(c) {
        assert c in bars <==> c in bars[..n] || c == bars[n];
      }
      assert bars[n] in bars;
      assert forall c :: c in bars[..n] ==> c in bars;
    }
  }

  /** The report's check passes on every aggregation of sound candles. */
  lemma AggregatePassesCheck(cs: seq<Candle>, minutes: int, offset: int)
    requires minutes >= 1 && forall c :: c in cs ==> Sound(c)
    ensures forall r :: r in Aggregate(cs, minutes, offset) ==> Accepted(r)
  {
    AggregateSound(cs, minutes, offset);
    hide Aggregate;
  }

  // ---- aggregation composes ----

  /** On sorted input only the last bucket can grow. */
  function Push(bars: seq<Candle>, c: Candle, bar: int, offset: int): seq<Candle>
    requires bar > 0
  {
    var b := BucketOf(c.ts, bar, offset);
    var n := |bars| - 1;
    if bars != [] && bars[n].ts == b then bars[..n] + [Merge(bars[n], c)] else bars + [Open(c, b)]
  }

  function PushAll(cs: seq<Candle>, bar: int, offset: int): seq<Candle>
    requires bar > 0
  {
    if cs == [] then [] else Push(PushAll(cs[..|cs| - 1], bar, offset), cs[|cs| - 1], bar, offset)
  }

  lemma MulCancels(a: int, b: int, d: int)
    requires d > 0
    ensures a * d < b * d ==> a < b
  {
    if a >= b { assert (a - b) * d >= 0; }
  }

  lemma DivUnique(x: int, d: int, n: int)
    requires d > 0 && n * d <= x < (n + 1) * d
    ensures x / d == n
  {
    var q := x / d;
    assert q * d <= x < (q + 1) * d;
    MulCancels(q, n + 1, d);
    MulCancels(n, q + 1, d);
  }

  lemma DivMonotone(x: int, y: int, d: int)
    requires x <= y && d > 0
    ensures x / d <= y / d
  {
    var p, q := x / d, y / d;
    assert p * d <= x && y < (q + 1) * d;
    MulCancels(p, q + 1, d);
  }

  lemma BucketMonotone(a: int, b: int, bar: int, offset: int)
    requires a <= b && bar > 0
    ensures BucketOf(a, bar, offset) <= BucketOf(b, bar, offset)
  {
    DivMonotone(a - offset, b - offset, bar);
    var p, q := (a - offset) / bar, (b - offset) / bar;
    assert (q - p) * bar >= 0;
  }

  lemma MulMonotone(a: int, b: int, d: int)
    requires a <= b && d > 0
    ensures a * d <= b * d
  {
    assert (b - a) * d >= 0;
  }

  /** With `d == k * bar`: the multiple of `bar` just below `x` lies in the same multiple of `d`. */
  lemma FloorsNest(x: int, bar: int, k: int, d: int, q: int, n: int)
    requires bar > 0 && d == k * bar && d > 0
    requires q * bar <= x < (q + 1) * bar
    requires n * d <= x < (n + 1) * d
    ensures n * d <= q * bar < (n + 1) * d
  {
    assert n * d == (n * k) * bar && (n + 1) * d == ((n + 1) * k) * bar;
    var lo, hi := n * k, (n + 1) * k;
    MulCancels(lo, q + 1, bar);
    MulCancels(q, hi, bar);
    MulMonotone(lo, q, bar);
  }

  lemma FloorOfFloor(x: int, bar: int, k: int)
    requires bar > 0 && k * bar > 0
    ensures (x / bar) * bar / (k * bar) == x / (k * bar)
  {
    var q, d := x / bar, k * bar;
    var n := x / d;
    FloorsNest(x, bar, k, d, q, n);
    DivUnique(q * bar, d, n);
  }

  /** A coarse bucket does not notice that its candles were moved to the start of their fine bucket. */
  lemma CoarseOfFine(ts: int, bar: int, k: int, offset: int)
    requires bar > 0 && k > 0 && k * bar > 0
    ensures BucketOf(BucketOf(ts, bar, offset), k * bar, offset) == BucketOf(ts, k * bar, offset)
  {
    FloorOfFloor(ts - offset, bar, k);
  }

  // the bucket walk on sorted candles

  /** A walk that has reached bucket `b`. */
  ghost predicate WalkedTo(bars: seq<Candle>, b: int) {
    Timeline(bars) && bars != [] && bars[|bars| - 1].ts == b
  }

  lemma PushOrdered(bars: seq<Candle>, c: Candle, bar: int, offset: int)
    requires bar > 0
    requires bars == [] || WalkedTo(bars, bars[|bars| - 1].ts)
    requires bars != [] ==> bars[|bars| - 1].ts <= BucketOf(c.ts, bar, offset)
    ensures WalkedTo(Push(bars, c, bar, offset), BucketOf(c.ts, bar, offset))
  {
    hide BucketOf;
  }

  lemma {:induction false} PushAllOrdered(cs: seq<Candle>, bar: int, offset: int)
    requires bar > 0 && SortedByTime(cs)
    ensures cs == [] ==> PushAll(cs, bar, offset) == []
    ensures cs != [] ==> WalkedTo(PushAll(cs, bar, offset), BucketOf(cs[|cs| - 1].ts, bar, offset))
    ensures Timeline(PushAll(cs, bar, offset))
  {
    hide BucketOf, Push, Timeline;
    if cs != [] {
      var n := |cs| - 1;
      PushAllOrdered(cs[..n], bar, offset);
      if n > 0 {
        assert cs[..n][n - 1] == cs[n - 1];
        BucketMonotone(cs[n - 1].ts, cs[n].ts, bar, offset);
      }
      PushOrdered(PushAll(cs[..n], bar, offset), cs[n], bar, offset);
    } else {
      EmptyTimeline();
    }
  }

  lemma EmptyTimeline()
    ensures Timeline([])
  {}

  lemma IndexReplace(bars: seq<Candle>, e: Candle)
    requires bars != [] && bars[|bars| - 1].ts == e.ts
    ensures Index(bars[..|bars| - 1] + [e]) == Index(bars)[e.ts := e]
  {
    hide *;
    var n := |bars| - 1;
    var front := bars[..n];
    assert bars == front + [bars[n]];
    IndexAppend(front, e);
    IndexAppend(front, bars[n]);
  }

  /** The last bar of a timeline is what its index holds, and nothing is stored past it. */
  lemma IndexLast(bars: seq<Candle>, b: int)
    requires Timeline(bars)
    requires bars != [] ==> bars[|bars| - 1].ts <= b
    ensures b in Index(bars) <==> bars != [] && bars[|bars| - 1].ts == b
    ensures b in Index(bars) ==> Index(bars)[b] == bars[|bars| - 1]
  {
    var m := Index(bars);
    IndexOfTimeline(bars);
    hide Index;
    if bars != [] { assert bars[|bars| - 1] in bars; }
    if b in m {
      assert m[b] in bars;
    }
  }

  lemma IndexPush(bars: seq<Candle>, c: Candle, bar: int, offset: int)
    requires bar > 0 && Timeline(bars)
    requires bars != [] ==> bars[|bars| - 1].ts <= BucketOf(c.ts, bar, offset)
    ensures var b := BucketOf(c.ts, bar, offset);
      var m := Index(bars);
      Index(Push(bars, c, bar, offset)) == m[b := if b in m then Merge(m[b], c) else Open(c, b)]
  {
    hide Index, BucketOf, Timeline;
    var b := BucketOf(c.ts, bar, offset);
    var n := |bars| - 1;
    IndexLast(bars, b);
    if bars != [] && bars[n].ts == b {
      IndexReplace(bars, Merge(bars[n], c));
    } else {
      IndexAppend(bars, Open(c, b));
    }
  }

  /** On sorted candles the dictionary read back in order is the bucket walk. */
  lemma {:induction false} FillIsPush(cs: seq<Candle>, bar: int, offset: int)
    requires bar > 0 && SortedByTime(cs)
    ensures Fill(cs, bar, offset) == Index(PushAll(cs, bar, offset))
    ensures Rows(Fill(cs, bar, offset)) == PushAll(cs, bar, offset)
  {
    PushAllOrdered(cs, bar, offset);
    if cs != [] {
      var n := |cs| - 1;
      FillIsPush(cs[..n], bar, offset);
      PushAllOrdered(cs[..n], bar, offset);
      if n > 0 { BucketMonotone(cs[..n][n - 1].ts, cs[n].ts, bar, offset); }
      IndexPush(PushAll(cs[..n], bar, offset), cs[n], bar, offset);
    }
    RowsOfIndex(PushAll(cs, bar, offset));
  }

  lemma MergeAssociative(x: Candle, a: Candle, c: Candle)
    ensures Merge(Merge(x, a), c) == Merge(x, Merge(a, c))
  {}

  lemma PushMerged(bars: seq<Candle>, a: Candle, c: Candle, bar: int, offset: int)
    requires bar > 0 && BucketOf(a.ts, bar, offset) == BucketOf(c.ts, bar, offset)
    ensures Push(bars, Merge(a, c), bar, offset) == Push(Push(bars, a, bar, offset), c, bar, offset)
  {
    hide BucketOf, Merge;
    var b := BucketOf(a.ts, bar, offset);
    var n := |bars| - 1;
    MergeKeepsTime(a, c, b);
    if bars != [] && bars[n].ts == b {
      MergeAssociative(bars[n], a, c);
      MergeKeepsTime(bars[n], a, b);
      assert (bars[..n] + [Merge(bars[n], a)])[..n] == bars[..n];
    } else {
      assert (bars + [Open(a, b)])[..|bars|] == bars;
    }
  }

  lemma MergeKeepsTime(a: Candle, c: Candle, b: int)
    ensures Merge(a, c).ts == a.ts && Merge(Open(a, b), c) == Open(Merge(a, c), b)
  {}

  lemma PushLast(cs: seq<Candle>, c: Candle, bar: int, offset: int)
    requires bar > 0
    ensures PushAll(cs + [c], bar, offset) == Push(PushAll(cs, bar, offset), c, bar, offset)
  {
    assert (cs + [c])[..|cs|] == cs;
  }

  /** Walking the fine bars gives the same coarse bars as walking the candles. */
  lemma {:induction false} PushComposes(cs: seq<Candle>, bar: int, k: int, offset: int)
    requires bar > 0 && k > 0 && k * bar > 0 && SortedByTime(cs)
    ensures PushAll(PushAll(cs, bar, offset), k * bar, offset) == PushAll(cs, k * bar, offset)
  {
    hide BucketOf;
    if cs != [] {
      var n := |cs| - 1;
      PushComposes(cs[..n], bar, k, offset);
      PushComposesStep(PushAll(cs[..n], bar, offset), cs[n], bar, k, offset);
    }
  }

  lemma PushComposesStep(fine: seq<Candle>, c: Candle, bar: int, k: int, offset: int)
    requires bar > 0 && k > 0 && k * bar > 0
    ensures PushAll(Push(fine, c, bar, offset), k * bar, offset) == Push(PushAll(fine, k * bar, offset), c, k * bar, offset)
  {
    CoarseOfFine(c.ts, bar, k, offset);
    var b := BucketOf(c.ts, bar, offset);
    var m := |fine| - 1;
    if fine != [] && fine[m].ts == b {
      PushMerged(PushAll(fine[..m], k * bar, offset), fine[m], c, k * bar, offset);
      PushLast(fine[..m], Merge(fine[m], c), k * bar, offset);
      PushLast(fine[..m], fine[m], k * bar, offset);
      assert fine == fine[..m] + [fine[m]];
    } else {
      PushLast(fine, Open(c, b), k * bar, offset);
      PushOpened(PushAll(fine, k * bar, offset), c, b, k * bar, offset);
    }
    hide BucketOf;
  }

  /** Moving a candle to another time of its bucket makes no difference. */
  lemma PushOpened(bars: seq<Candle>, c: Candle, ts: int, bar: int, offset: int)
    requires bar > 0 && BucketOf(ts, bar, offset) == BucketOf(c.ts, bar, offset)
    ensures Push(bars, Open(c, ts), bar, offset) == Push(bars, c, bar, offset)
  {
    hide BucketOf;
  }

  /** Aggregating to a timeframe and from there to a multiple of it equals aggregating directly. */
  lemma AggregationComposes(cs: seq<Candle>, first: int, k: int, offset: int)
    requires first >= 1 && k >= 1 && first * k >= 1 && SortedByTime(cs)
    ensures Aggregate(Aggregate(cs, first, offset), first * k, offset) == Aggregate(cs, first * k, offset)
  {
    if first > 1 {
      var bar := first * 60;
      assert first * k >= first by { assert first * (k - 1) >= 0; }
      assert k * bar == first * k * 60 && k * bar > 0;
      FillIsPush(cs, bar, offset);
      FillIsPush(cs, k * bar, offset);
      PushAllOrdered(cs, bar, offset);
      FillIsPush(PushAll(cs, bar, offset), k * bar, offset);
      PushComposes(cs, bar, k, offset);
    }
  }
}
