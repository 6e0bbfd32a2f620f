/** EMA with two seeds, Wilder RSI and Wilder ATR over exact reals; `None` is the undefined head of a
    series. */
module Indicators {
  import opened Series

  datatype SeedMode = First | Sma

  function Sum(s: seq<real>): real {
    if s == [] then 0.0 else Sum(s[..|s| - 1]) + s[|s| - 1]
  }

  function Mean(s: seq<real>): real
    requires s != []
  {
    Sum(s) / |s| as real
  }

  ghost predicate Within(s: seq<real>, lo: real, hi: real) {
    forall i :: 0 <= i < |s| ==> lo <= s[i] <= hi
  }

  lemma {:induction false} SumWithin(s: seq<real>, lo: real, hi: real)
    requires Within(s, lo, hi)
    ensures lo * |s| as real <= Sum(s) <= hi * |s| as real
  {
    if s != [] {
      var n := |s| - 1;
      SumWithin(s[..n], lo, hi);
      assert lo * |s| as real == lo * n as real + lo;
      assert hi * |s| as real == hi * n as real + hi;
    }
  }

  lemma Product(a: real, b: real)
    requires a >= 0.0 && b >= 0.0
    ensures a * b >= 0.0
  {}

  lemma Distribute(a: real, b: real, c: real)
    ensures (a - b) * c == a * c - b * c
    ensures (a + b) * c == a * c + b * c
  {}

  lemma Cancel(a: real, b: real, n: real)
    requires n > 0.0
    ensures a * n <= b * n ==> a <= b
  {
    if a > b { assert (a - b) * n > 0.0; }
  }

  lemma QuotientWithin(x: real, n: real, lo: real, hi: real)
    requires n > 0.0 && lo * n <= x <= hi * n
    ensures lo <= x / n <= hi
  {
    var q := x / n;
    assert q * n == x;
    Cancel(lo, q, n);
    Cancel(q, hi, n);
  }

  lemma MeanWithin(s: seq<real>, lo: real, hi: real)
    requires s != [] && Within(s, lo, hi)
    ensures lo <= Mean(s) <= hi
  {
    SumWithin(s, lo, hi);
    QuotientWithin(Sum(s), |s| as real, lo, hi);
  }

  method MeanOf(s: seq<real>) returns (m: real)
    requires s != []
    ensures m == Mean(s)
  {
    var total := 0.0;
    for i := 0 to |s|
      invariant total == Sum(s[..i])
    {
      assert s[..i + 1][..i] == s[..i];
      total := total + s[i];
    }
    assert s[..|s|] == s;
    m := total / |s| as real;
  }

  // ---- EMA ----

  function Multiplier(period: nat): (m: real)
    requires period >= 1
    ensures 0.0 < m <= 1.0
  {
    QuotientWithin(2.0, (period + 1) as real, 0.0, 1.0);
    assert 2.0 / (period + 1) as real * (period + 1) as real == 2.0;
    2.0 / (period + 1) as real
  }

  function Next(e: real, x: real, m: real): real {
    x * m + e * (1.0 - m)
  }

  function EmaFirst(close: seq<real>, period: nat, i: nat): real
    requires period >= 1 && i < |close|
  {
    if i == 0 then close[0]
    else Next(EmaFirst(close, period, i - 1), close[i], Multiplier(period))
  }

  function EmaSma(close: seq<real>, period: nat, i: nat): real
    requires 1 <= period <= i + 1 && i < |close|
  {
    if i == period - 1 then Mean(close[..period])
    else Next(EmaSma(close, period, i - 1), close[i], Multiplier(period))
  }

  lemma EmaUnfolds(close: seq<real>, period: nat, i: nat)
    requires period >= 1 && i < |close|
    ensures i > 0 ==> EmaFirst(close, period, i) == Next(EmaFirst(close, period, i - 1), close[i], Multiplier(period))
    ensures period <= i ==> EmaSma(close, period, i) == Next(EmaSma(close, period, i - 1), close[i], Multiplier(period))
    ensures EmaFirst(close, period, 0) == close[0]
    ensures period == i + 1 ==> EmaSma(close, period, i) == Mean(close[..period])
  {}

  method EmaSeededFirst(close: seq<real>, period: nat, mult: real) returns (r: seq<Option<real>>)
    requires period >= 1 && mult == Multiplier(period)
    ensures |r| == |close|
    ensures forall i :: 0 <= i < |r| ==> r[i] == Some(EmaFirst(close, period, i))
  {
    hide *;
    var n := |close|;
    var out := new Option<real>[n](_ => None);
    if n < 1 {
      return out[..];
    }
    EmaUnfolds(close, period, 0);
    out[0] := Some(close[0]);
    for i := 1 to n
      invariant forall k :: 0 <= k < i ==> out[k] == Some(EmaFirst(close, period, k))
    {
      EmaUnfolds(close, period, i);
      out[i] := Some(Next(out[i - 1].value, close[i], mult));
    }
    return out[..];
  }

  method EmaSeededSma(close: seq<real>, period: nat, mult: real) returns (r: seq<Option<real>>)
    requires period >= 1 && mult == Multiplier(period)
    ensures |r| == |close|
    ensures forall i :: 0 <= i < |r| ==> r[i] == if i + 1 < period then None else Some(EmaSma(close, period, i))
  {
    hide *;
    var n := |close|;
    var out := new Option<real>[n](_ => None);
    if n < period {
      return out[..];
    }
    var mean := MeanOf(close[..period]);
    EmaUnfolds(close, period, period - 1);
    out[period - 1] := Some(mean);
    for i := period to n
      invariant forall k :: 0 <= k < period - 1 ==> out[k] == None
      invariant forall k :: period - 1 <= k < i ==> out[k] == Some(EmaSma(close, period, k))
    {
      EmaUnfolds(close, period, i);
      out[i] := Some(Next(out[i - 1].value, close[i], mult));
    }
    return out[..];
  }

  /** Both seeds share the multiplier 2 / (period + 1). */
  method Ema(close: seq<real>, period: nat, seed: SeedMode) returns (r: seq<Option<real>>)
    requires period >= 1
    ensures |r| == |close|
    ensures seed == First ==> forall i :: 0 <= i < |r| ==> r[i] == Some(EmaFirst(close, period, i))
    ensures seed == Sma ==> forall i :: 0 <= i < |r| ==> r[i] == if i + 1 < period then None else Some(EmaSma(close, period, i))
  {
    if seed == First {
      r := EmaSeededFirst(close, period, Multiplier(period));
    } else {
      r := EmaSeededSma(close, period, Multiplier(period));
    }
  }

  function Power(x: real, n: nat): real {
    if n == 0 then 1.0 else x * Power(x, n - 1)
  }

  /** A product kept whole, so that the steps of a proof do not multiply it out. */
  function Times(a: real, b: real): real { a * b }

  function SeedGap(close: seq<real>, period: nat, i: nat): real
    requires 1 <= period <= i + 1 && i < |close|
  {
    EmaFirst(close, period, i) - EmaSma(close, period, i)
  }

  lemma Shrink(x: real, m: real, f: real, s: real)
    ensures Next(f, x, m) - Next(s, x, m) == Times(f - s, 1.0 - m)
  {
    Distribute(f, s, 1.0 - m);
  }

  lemma Regroup(a: real, x: real, n: nat)
    ensures Times(Times(a, Power(x, n)), x) == Times(a, Power(x, n + 1))
    ensures Times(a, Power(x, 0)) == a
  {
    assert a * Power(x, n) * x == a * (x * Power(x, n));
  }

  lemma GapShrinks(close: seq<real>, period: nat, i: nat)
    requires 1 <= period <= i && i < |close|
    ensures SeedGap(close, period, i) == Times(SeedGap(close, period, i - 1), 1.0 - Multiplier(period))
  {
    EmaUnfolds(close, period, i);
    Shrink(close[i], Multiplier(period), EmaFirst(close, period, i - 1), EmaSma(close, period, i - 1));
    hide Multiplier, EmaFirst, EmaSma, Next, Times;
  }

  lemma {:induction false} GapIsGeometric(close: seq<real>, period: nat, n: nat)
    requires 1 <= period && period - 1 + n < |close|
    ensures SeedGap(close, period, period - 1 + n) == Times(SeedGap(close, period, period - 1), Power(1.0 - Multiplier(period), n))
  {
    hide *;
    var c := 1.0 - Multiplier(period);
    var first := SeedGap(close, period, period - 1);
    if n == 0 {
      Regroup(first, c, 0);
    } else {
      GapIsGeometric(close, period, n - 1);
      GapShrinks(close, period, period - 1 + n);
      Regroup(first, c, n - 1);
    }
  }

  /** The two seeds differ at step `i` by their first difference, shrunk by the same factor at each step. */
  lemma SeedsConverge(close: seq<real>, period: nat, i: nat)
    requires 1 <= period <= i + 1 && i < |close|
    ensures EmaFirst(close, period, i) - EmaSma(close, period, i) ==
      (EmaFirst(close, period, period - 1) - EmaSma(close, period, period - 1)) * Power(1.0 - 2.0 / (period + 1) as real, i + 1 - period)
  {
    hide EmaFirst, EmaSma, Power;
    GapIsGeometric(close, period, i + 1 - period);
  }

  lemma BernoulliStep(p: real, m: real, n: real)
    requires p >= 0.0 && 0.0 <= m <= 1.0 && n >= 0.0 && p * (1.0 + n * m) <= 1.0
    ensures (1.0 - m) * p >= 0.0 && (1.0 - m) * p * (1.0 + (n + 1.0) * m) <= 1.0
  {
    Product(1.0 - m, p);
    var a := 1.0 + n * m;
    assert (1.0 - m) * (a + m) == a - m * (n + 1.0) * m;
    Product(m, m);
    Product(m * m, n + 1.0);
    var drop := m * (n + 1.0) * m;
    assert drop >= 0.0;
    assert (1.0 - m) * p * (a + m) == p * (a - drop);
    Product(p, drop);
    assert p * (a - drop) == p * a - p * drop;
  }

  /** The factor decays at least like 1 / (1 + n m). */
  lemma {:induction false} PowerDecays(m: real, n: nat)
    requires 0.0 <= m <= 1.0
    ensures Power(1.0 - m, n) >= 0.0 && Power(1.0 - m, n) * (1.0 + n as real * m) <= 1.0
  {
    if n > 0 {
      PowerDecays(m, n - 1);
      BernoulliStep(Power(1.0 - m, n - 1), m, (n - 1) as real);
    }
  }

  function Abs(x: real): real { if x < 0.0 then -x else x }

  /** Once both are defined the seeds only get closer. */
  lemma SeedsOnlyGetCloser(close: seq<real>, period: nat, i: nat)
    requires 1 <= period <= i + 1 && i + 1 < |close|
    ensures Abs(EmaFirst(close, period, i + 1) - EmaSma(close, period, i + 1)) <=
      Abs(EmaFirst(close, period, i) - EmaSma(close, period, i))
  {
    hide EmaFirst, EmaSma, Multiplier, Times;
    GapShrinks(close, period, i + 1);
    Fraction(SeedGap(close, period, i), 1.0 - Multiplier(period));
  }

  lemma Fraction(d: real, c: real)
    requires 0.0 <= c <= 1.0
    ensures Abs(Times(d, c)) <= Abs(d)
  {
    Product(Abs(d), 1.0 - c);
    Product(Abs(d), c);
  }

  lemma ScaledBound(d: real, p: real, b: real)
    requires p >= 0.0 && b >= 0.0 && p * b <= 1.0
    ensures Abs(Times(d, p)) * b <= Abs(d)
  {
    Product(Abs(d), p);
    Product(Abs(d), 1.0 - p * b);
    assert Abs(d) * (1.0 - p * b) == Abs(d) - Abs(d) * p * b;
    assert Abs(d * p) == Abs(d) * p;
  }

  /** `n` steps after both are defined, the seeds differ by at most their first difference divided by
      1 + 2 n / (period + 1): over a long enough series the choice of seed does not matter. */
  lemma SeedsMeet(close: seq<real>, period: nat, n: nat)
    requires period >= 1 && period - 1 + n < |close|
    ensures Abs(SeedGap(close, period, period - 1 + n)) * (1.0 + n as real * Multiplier(period)) <= Abs(SeedGap(close, period, period - 1))
  {
    hide *;
    var m := Multiplier(period);
    GapIsGeometric(close, period, n);
    PowerDecays(m, n);
    Product(n as real, m);
    ScaledBound(SeedGap(close, period, period - 1), Power(1.0 - m, n), 1.0 + n as real * m);
  }

  lemma Blend(x: real, e: real, m: real, lo: real, hi: real)
    requires 0.0 <= m <= 1.0 && lo <= x <= hi && lo <= e <= hi
    ensures lo <= Next(e, x, m) <= hi
  {
    Product(x - lo, m);
    Product(e - lo, 1.0 - m);
    Product(hi - x, m);
    Product(hi - e, 1.0 - m);
  }

  /** With either seed the average stays inside every interval that holds the closes so far, so between
      their minimum and maximum. */
  lemma {:induction false} EmaStaysInside(close: seq<real>, period: nat, i: nat, lo: real, hi: real)
    requires period >= 1 && i < |close| && Within(close[..i + 1], lo, hi)
    ensures lo <= EmaFirst(close, period, i) <= hi
    ensures period <= i + 1 ==> lo <= EmaSma(close, period, i) <= hi
  {
    hide Multiplier, Mean, Next;
    assert close[..i + 1][i] == close[i];
    if i > 0 {
      assert forall k :: 0 <= k < i ==> close[..i][k] == close[..i + 1][k];
      EmaStaysInside(close, period, i - 1, lo, hi);
      Blend(close[i], EmaFirst(close, period, i - 1), Multiplier(period), lo, hi);
    }
    if period == i + 1 {
      MeanWithin(close[..period], lo, hi);
    } else if period < i + 1 {
      Blend(close[i], EmaSma(close, period, i - 1), Multiplier(period), lo, hi);
    }
  }

  // ---- Wilder smoothing ----

  function WilderNext(e: real, x: real, period: nat): real
    requires period >= 1
  {
    (e * (period - 1) as real + x) / period as real
  }

  function Wilder(xs: seq<real>, period: nat, i: nat): real
    requires 1 <= period <= i + 1 && i < |xs|
  {
    if i == period - 1 then Mean(xs[..period])
    else WilderNext(Wilder(xs, period, i - 1), xs[i], period)
  }

  /** Wilder's smoothing is exponential smoothing with the factor 1 / period. */
  lemma WilderIsExponential(e: real, x: real, period: nat)
    requires period >= 1
    ensures WilderNext(e, x, period) == Next(e, x, 1.0 / period as real)
  {
    var p := period as real;
    var m := 1.0 / p;
    assert m * p == 1.0;
    assert Next(e, x, m) * p == x * (m * p) + e * (p - m * p);
    SameQuotient(Next(e, x, m), e * (p - 1.0) + x, p);
  }

  lemma WilderStep(e: real, x: real, period: nat, lo: real, hi: real)
    requires period >= 1 && lo <= e <= hi && lo <= x <= hi
    ensures lo <= WilderNext(e, x, period) <= hi
  {
    var k, p := (period - 1) as real, period as real;
    Product(e - lo, k);
    Product(hi - e, k);
    assert lo * p == lo * k + lo && hi * p == hi * k + hi;
    QuotientWithin(e * k + x, p, lo, hi);
  }

  lemma {:induction false} WilderStaysInside(xs: seq<real>, period: nat, i: nat, lo: real, hi: real)
    requires 1 <= period <= i + 1 && i < |xs| && Within(xs[..i + 1], lo, hi)
    ensures lo <= Wilder(xs, period, i) <= hi
  {
    hide Mean, WilderNext;
    assert xs[..i + 1][i] == xs[i];
    if i == period - 1 {
      MeanWithin(xs[..period], lo, hi);
    } else {
      assert forall k :: 0 <= k < i ==> xs[..i][k] == xs[..i + 1][k];
      WilderStaysInside(xs, period, i - 1, lo, hi);
      WilderStep(Wilder(xs, period, i - 1), xs[i], period, lo, hi);
    }
  }

  lemma WilderUnfolds(xs: seq<real>, period: nat, i: nat)
    requires 1 <= period <= i + 1 && i < |xs|
    ensures period == i + 1 ==> Wilder(xs, period, i) == Mean(xs[..period])
    ensures period <= i ==> Wilder(xs, period, i) == WilderNext(Wilder(xs, period, i - 1), xs[i], period)
  {}

  // ---- RSI ----

  /** The rise from each close to the next, 0 for a fall. */
  function Gains(close: seq<real>): (r: seq<real>)
    requires close != []
    ensures |r| == |close| - 1 && forall i :: 0 <= i < |r| ==> r[i] >= 0.0
  {
    seq(|close| - 1, i requires 0 <= i < |close| - 1 => if close[i + 1] > close[i] then close[i + 1] - close[i] else 0.0)
  }

  function Losses(close: seq<real>): (r: seq<real>)
    requires close != []
    ensures |r| == |close| - 1 && forall i :: 0 <= i < |r| ==> r[i] >= 0.0
  {
    seq(|close| - 1, i requires 0 <= i < |close| - 1 => if close[i + 1] < close[i] then close[i] - close[i + 1] else 0.0)
  }

  function Index100(gain: real, loss: real): real
    requires gain >= 0.0 && loss >= 0.0
  {
    if loss == 0.0 then 100.0
    else
      assert gain / loss >= 0.0 by { QuotientPositive(gain, loss); }
      100.0 - 100.0 / (1.0 + gain / loss)
  }

  lemma QuotientPositive(x: real, y: real)
    requires x >= 0.0 && y > 0.0
    ensures x / y >= 0.0
  {
    QuotientWithin(x, y, 0.0, x / y);
  }

  lemma AveragesPositive(close: seq<real>, period: nat, i: nat)
    requires 1 <= period <= i < |close|
    ensures Wilder(Gains(close), period, i - 1) >= 0.0 && Wilder(Losses(close), period, i - 1) >= 0.0
  {
    var g, l := Gains(close), Losses(close);
    hide Gains, Losses;
    WilderNonNegative(g, period, i - 1);
    WilderNonNegative(l, period, i - 1);
  }

  lemma {:induction false} WilderNonNegative(xs: seq<real>, period: nat, i: nat)
    requires 1 <= period <= i + 1 && i < |xs| && forall k :: 0 <= k < |xs| ==> xs[k] >= 0.0
    ensures Wilder(xs, period, i) >= 0.0
  {
    var top := Top(xs);
    WilderStaysInside(xs, period, i, 0.0, top);
  }

  function Top(xs: seq<real>): (m: real)
    ensures forall k :: 0 <= k < |xs| ==> xs[k] <= m
  {
    if xs == [] then 0.0
    else
      var n := |xs| - 1;
      var m := Top(xs[..n]);
      assert forall k :: 0 <= k < n ==> xs[k] == xs[..n][k];
      if xs[n] > m then xs[n] else m
  }

  function Rsi(close: seq<real>, period: nat, i: nat): real
    requires 1 <= period <= i < |close|
  {
    AveragesPositive(close, period, i);
    Index100(Wilder(Gains(close), period, i - 1), Wilder(Losses(close), period, i - 1))
  }

  lemma RsiIs(close: seq<real>, period: nat, i: nat)
    requires 1 <= period <= i < |close|
    ensures Wilder(Gains(close), period, i - 1) >= 0.0 && Wilder(Losses(close), period, i - 1) >= 0.0
    ensures Rsi(close, period, i) == Index100(Wilder(Gains(close), period, i - 1), Wilder(Losses(close), period, i - 1))
  {
    AveragesPositive(close, period, i);
    hide Wilder, Gains, Losses, Index100;
  }

  method RsiWilder(close: seq<real>, period: nat) returns (r: seq<Option<real>>)
    requires period >= 1
    ensures |r| == |close|
    ensures forall i :: 0 <= i < |r| ==> r[i] == if i < period then None else Some(Rsi(close, period, i))
  {
    hide *;
    var n := |close|;
    var out := new Option<real>[n](_ => None);
    if n < period + 1 {
      return out[..];
    }
    var gain, loss := Gains(close), Losses(close);
    WilderUnfolds(gain, period, period - 1);
    WilderUnfolds(loss, period, period - 1);
    RsiIs(close, period, period);
    var avgGain := MeanOf(gain[..period]);
    var avgLoss := MeanOf(loss[..period]);
    out[period] := Some(Index100(avgGain, avgLoss));
    for i := period + 1 to n
      invariant avgGain == Wilder(gain, period, i - 2) && avgLoss == Wilder(loss, period, i - 2)
      invariant forall k :: 0 <= k < period ==> out[k] == None
      invariant forall k :: period <= k < i ==> out[k] == Some(Rsi(close, period, k))
    {
      WilderUnfolds(gain, period, i - 1);
      WilderUnfolds(loss, period, i - 1);
      RsiIs(close, period, i);
      avgGain := WilderNext(avgGain, gain[i - 1], period);
      avgLoss := WilderNext(avgLoss, loss[i - 1], period);
      out[i] := Some(Index100(avgGain, avgLoss));
    }
    return out[..];
  }

  /** The index is the gains' share of all movement, in percent. */
  lemma IndexIsShare(gain: real, loss: real)
    requires gain >= 0.0 && loss > 0.0
    ensures Index100(gain, loss) == 100.0 * gain / (gain + loss)
  {
    QuotientPositive(gain, loss);
    var q := gain / loss;
    assert q * loss == gain;
    var d := 1.0 + q;
    var x := 100.0 / d;
    assert x * d == 100.0;
    assert d * loss == gain + loss;
    assert (100.0 - x) * (gain + loss) == 100.0 * (gain + loss) - x * d * loss;
    SameQuotient(100.0 - x, 100.0 * gain, gain + loss);
  }

  lemma SameQuotient(q: real, x: real, y: real)
    requires y > 0.0 && q * y == x
    ensures q == x / y
  {
    QuotientWithin(x, y, q, q);
  }

  lemma ShareWithin(gain: real, loss: real)
    requires gain >= 0.0 && loss > 0.0
    ensures 0.0 <= 100.0 * gain / (gain + loss) <= 100.0
  {
    QuotientWithin(100.0 * gain, gain + loss, 0.0, 100.0);
  }

  lemma RsiStaysInside(close: seq<real>, period: nat, i: nat)
    requires 1 <= period <= i < |close|
    ensures 0.0 <= Rsi(close, period, i) <= 100.0
  {
    AveragesPositive(close, period, i);
    var g, l := Wilder(Gains(close), period, i - 1), Wilder(Losses(close), period, i - 1);
    hide Wilder;
    if l > 0.0 {
      IndexIsShare(g, l);
      ShareWithin(g, l);
    }
  }

  function Mirror(close: seq<real>): (r: seq<real>)
    ensures |r| == |close| && forall i :: 0 <= i < |r| ==> r[i] == -close[i]
  {
    seq(|close|, i requires 0 <= i < |close| => -close[i])
  }

  lemma MirrorSwaps(close: seq<real>)
    requires close != []
    ensures Gains(Mirror(close)) == Losses(close) && Losses(Mirror(close)) == Gains(close)
  {}

  lemma SharesAdd(gain: real, loss: real)
    requires gain > 0.0 && loss > 0.0
    ensures 100.0 * gain / (gain + loss) + 100.0 * loss / (loss + gain) == 100.0
  {
    var t := gain + loss;
    var a, b := 100.0 * gain / t, 100.0 * loss / t;
    assert a * t == 100.0 * gain && b * t == 100.0 * loss;
    Distribute(a, b, t);
    Distribute(gain, loss, 100.0);
    SameQuotient(a + b, 100.0 * t, t);
    SameQuotient(100.0, 100.0 * t, t);
  }

  /** Turning the chart upside down turns the index upside down, except when nothing ever moved: a flat
      chart reads 100 both ways, not 50. */
  lemma RsiMirror(close: seq<real>, period: nat, i: nat)
    requires 1 <= period <= i < |close|
    ensures (Rsi(close, period, i) + Rsi(Mirror(close), period, i) == 100.0) <==>
      (Wilder(Gains(close), period, i - 1) > 0.0 || Wilder(Losses(close), period, i - 1) > 0.0)
  {
    AveragesPositive(close, period, i);
    MirrorSwaps(close);
    var g, l := Wilder(Gains(close), period, i - 1), Wilder(Losses(close), period, i - 1);
    hide Wilder, Gains, Losses;
    if l > 0.0 { IndexIsShare(g, l); }
    if g > 0.0 { IndexIsShare(l, g); }
    if l > 0.0 && g > 0.0 { SharesAdd(g, l); }
    if g == 0.0 && l > 0.0 { assert 100.0 * g / (g + l) == 0.0; }
    if l == 0.0 && g > 0.0 { assert 100.0 * l / (l + g) == 0.0; }
  }

  // ---- ATR ----

  function MaxReal(a: real, b: real): real { if a >= b then a else b }

  function TrueRanges(high: seq<real>, low: seq<real>, close: seq<real>): (r: seq<real>)
    requires |high| == |low| == |close|
    ensures |r| == |close|
  {
    seq(|close|, i requires 0 <= i < |close| =>
      if i == 0 then high[0] - low[0]
      else MaxReal(high[i] - low[i], MaxReal(Abs(high[i] - close[i - 1]), Abs(low[i] - close[i - 1]))))
  }

  method AtrWilder(high: seq<real>, low: seq<real>, close: seq<real>, period: nat) returns (r: seq<Option<real>>)
    requires period >= 1 && |high| == |low| == |close|
    ensures |r| == |close|
    ensures forall i :: 0 <= i < |r| ==> r[i] == if i + 1 < period then None else Some(Wilder(TrueRanges(high, low, close), period, i))
  {
    var n := |close|;
    var out := new Option<real>[n](_ => None);
    if n < period {
      return out[..];
    }
    var tr := TrueRanges(high, low, close);
    hide *;
    var mean := MeanOf(tr[..period]);
    WilderUnfolds(tr, period, period - 1);
    out[period - 1] := Some(mean);
    for i := period to n
      invariant forall k :: 0 <= k < period - 1 ==> out[k] == None
      invariant forall k :: period - 1 <= k < i ==> out[k] == Some(Wilder(tr, period, k))
    {
      WilderUnfolds(tr, period, i);
      out[i] := Some(WilderNext(out[i - 1].value, tr[i], period));
    }
    return out[..];
  }

  /** From the second bar on the true range is the height of the bar stretched to reach the previous close,
      and never negative even when high and low are swapped. */
  lemma TrueRangeIs(high: seq<real>, low: seq<real>, close: seq<real>, i: nat)
    requires |high| == |low| == |close| && 0 < i < |close|
    ensures TrueRanges(high, low, close)[i] >= 0.0
    ensures low[i] <= high[i] ==>
      TrueRanges(high, low, close)[i] == MaxReal(high[i], close[i - 1]) - (if low[i] <= close[i - 1] then low[i] else close[i - 1])
  {}

  /** One sane first bar is enough for an average range that is never negative. */
  lemma AtrNonNegative(high: seq<real>, low: seq<real>, close: seq<real>, period: nat, i: nat)
    requires |high| == |low| == |close| && 1 <= period <= i + 1 && i < |close|
    requires high[0] >= low[0]
    ensures Wilder(TrueRanges(high, low, close), period, i) >= 0.0
  {
    forall k | 0 <= k < |close| ensures TrueRanges(high, low, close)[k] >= 0.0 {
      if k > 0 { TrueRangeIs(high, low, close, k); }
    }
    WilderNonNegative(TrueRanges(high, low, close), period, i);
  }
}
