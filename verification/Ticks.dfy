/** Ticks, one-minute buckets and the candle of a bucket. */
module Ticks {
  import opened Series

  datatype Tick = Tick(ts: int, price: real)

  /** `(ts // 60) * 60`, floor division. */
  function Minute(ts: int): int {
    (ts / 60) * 60
  }

  lemma MinuteMonotone(a: int, b: int)
    requires a <= b
    ensures Minute(a) <= Minute(b)
  {}

  function Max(prices: seq<real>): (r: real)
    requires prices != []
    ensures r in prices && forall p :: p in prices ==> p <= r
  {
    assert prices == [prices[0]] + prices[1..];
    if |prices| == 1 then prices[0]
    else
      var rest := Max(prices[1..]);
      if prices[0] < rest then rest else prices[0]
  }

  function Min(prices: seq<real>): (r: real)
    requires prices != []
    ensures r in prices && forall p :: p in prices ==> r <= p
  {
    assert prices == [prices[0]] + prices[1..];
    if |prices| == 1 then prices[0]
    else
      var rest := Min(prices[1..]);
      if rest < prices[0] then rest else prices[0]
  }

  function Prices(ticks: seq<Tick>): (r: seq<real>)
    ensures |r| == |ticks| && forall i :: 0 <= i < |ticks| ==> r[i] == ticks[i].price
  {
    seq(|ticks|, i requires 0 <= i < |ticks| => ticks[i].price)
  }

  /** First, highest, lowest and last price; no volume. */
  function Bar(minute: int, prices: seq<real>): (c: Candle)
    requires prices != []
    ensures c.ts == minute && c.low <= c.open <= c.high && c.low <= c.close <= c.high
  {
    assert prices[|prices| - 1] in prices;
    Candle(minute, prices[0], Max(prices), Min(prices), prices[|prices| - 1], 0.0)
  }

  /** The ticks of one minute, in arrival order. */
  function InMinute(ticks: seq<Tick>, minute: int): (r: seq<Tick>)
    ensures forall t :: t in r <==> t in ticks && Minute(t.ts) == minute
  {
    if ticks == [] then []
    else
      var n := |ticks| - 1;
      assert ticks == ticks[..n] + [ticks[n]];
      InMinute(ticks[..n], minute) + if Minute(ticks[n].ts) == minute then [ticks[n]] else []
  }

  lemma InMinuteAppend(ticks: seq<Tick>, t: Tick, minute: int)
    ensures InMinute(ticks + [t], minute) == InMinute(ticks, minute) + if Minute(t.ts) == minute then [t] else []
  {
    assert (ticks + [t])[..|ticks|] == ticks;
  }

  /** The minutes that hold at least one tick. */
  function MinutesOf(ticks: seq<Tick>): set<int> {
    set t | t in ticks :: Minute(t.ts)
  }

  lemma MinuteHasTicks(ticks: seq<Tick>, minute: int)
    requires minute in MinutesOf(ticks)
    ensures InMinute(ticks, minute) != []
  {
    var t :| t in ticks && Minute(t.ts) == minute;
    assert t in InMinute(ticks, minute);
  }

  /** A minute holds a tick exactly when its bucket is not empty. */
  lemma MinuteOfTicks(ticks: seq<Tick>, minute: int)
    ensures minute in MinutesOf(ticks) <==> InMinute(ticks, minute) != []
  {
    if minute in MinutesOf(ticks) {
      MinuteHasTicks(ticks, minute);
    }
    if InMinute(ticks, minute) != [] {
      assert InMinute(ticks, minute)[0] in ticks;
    }
  }

  lemma MinutesAppend(ticks: seq<Tick>, t: Tick)
    ensures MinutesOf(ticks + [t]) == MinutesOf(ticks) + {Minute(t.ts)}
  {
    forall m ensures m in MinutesOf(ticks + [t]) <==> m in MinutesOf(ticks) || m == Minute(t.ts) {
      MinuteOfTicks(ticks, m);
      MinuteOfTicks(ticks + [t], m);
      InMinuteAppend(ticks, t, m);
    }
  }
}
