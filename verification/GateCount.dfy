/** What the missing-minutes gate of the data layer really counts, with the 24/5 calendar plugged in. */
module GateCount {
  import opened Series
  import opened GapValidator
  import opened DataLayer
  import M = MarketHours

  /** Minutes that start in `[from, to)` are those from `First(from)` to `First(to) - 1`. */
  function First(t: int): int {
    (t - 1) / 60 + 1
  }

  lemma StartsFrom(t: int, k: int)
    ensures k >= First(t) <==> 60 * k >= t
  {
    var q, r := (t - 1) / 60, (t - 1) % 60;
    assert t == 60 * q + r + 1;
  }

  function Span(m: int, n: int): (r: set<int>)
    ensures forall k :: k in r <==> m <= k < n
    decreases n - m
  {
    if m >= n then {} else Span(m, n - 1) + {n - 1}
  }

  lemma {:induction false} SpanSize(m: int, n: int)
    requires m <= n
    ensures |Span(m, n)| == n - m
    decreases n - m
  {
    if m < n { SpanSize(m, n - 1); }
  }

  function ClosedSpan(symbol: string, m: int, n: int): (r: set<int>)
    ensures forall k :: k in r <==> m <= k < n && M.MinuteClosed(symbol, k)
  {
    set k | m <= k < n && M.MinuteClosed(symbol, k)
  }

  lemma {:induction false} ClosedSize(symbol: string, m: int, n: int)
    requires m <= n
    ensures |ClosedSpan(symbol, m, n)| == M.ClosedMinutes(symbol, m, n)
    decreases n - m
  {
    hide M.MinuteClosed;
    if m == n {
      assert ClosedSpan(symbol, m, n) == {};
    } else {
      ClosedSize(symbol, m, n - 1);
      assert ClosedSpan(symbol, m, n) == ClosedSpan(symbol, m, n - 1) + if M.MinuteClosed(symbol, n - 1) then {n - 1} else {};
    }
  }

  /** The numbers of the stored minutes. */
  function StoredSpan(rows: map<int, Candle>, m: int, n: int): (r: set<int>)
    ensures forall k :: k in r <==> m <= k < n && 60 * k in rows
  {
    set k | m <= k < n && 60 * k in rows
  }

  function Scaled(ks: set<int>): (r: set<int>)
    ensures forall t :: t in r <==> t % 60 == 0 && t / 60 in ks
  {
    var r := set k | k in ks :: 60 * k;
    assert forall k :: k in ks ==> 60 * k in r;
    assert forall t :: t % 60 == 0 ==> t == 60 * (t / 60);
    r
  }

  lemma {:induction false} ScaleSize(ks: set<int>)
    ensures |Scaled(ks)| == |ks|
    decreases |ks|
  {
    if ks == {} {
      assert Scaled(ks) == {};
    } else {
      var x := Least(ks);
      ScaleSize(ks - {x});
      assert Scaled(ks) == Scaled(ks - {x}) + {60 * x} by {
        forall t ensures t in Scaled(ks) <==> t in Scaled(ks - {x}) + {60 * x} {
          assert t % 60 == 0 ==> t == 60 * (t / 60);
        }
      }
    }
  }

  /** The stored timestamps of the last day, when they are all minutes. */
  lemma DayKeys(rows: map<int, Candle>, now: int)
    requires forall t :: t in Recent(rows, now) ==> t % 60 == 0
    ensures Recent(rows, now) == Scaled(StoredSpan(rows, First(now) - 1440, First(now)))
  {
    hide First;
    DayBefore(now);
    forall t ensures t in Recent(rows, now) <==> t in Scaled(StoredSpan(rows, First(now) - 1440, First(now))) {
      if t % 60 == 0 {
        var k := t / 60;
        assert t == 60 * k;
        StartsFrom(now, k);
        StartsFrom(now - 86400, k);
      } else {
        assert t !in Recent(rows, now);
      }
    }
  }

  lemma DayBefore(now: int)
    ensures First(now - 86400) == First(now) - 1440
  {
    assert now - 86400 - 1 == (now - 1) - 60 * 1440;
  }

  lemma DaySize(rows: map<int, Candle>, now: int)
    requires forall t :: t in Recent(rows, now) ==> t % 60 == 0
    ensures |Day(rows, now)| == |StoredSpan(rows, First(now) - 1440, First(now))|
  {
    hide Day, Recent, First, Scaled;
    DayKeys(rows, now);
    ScaleSize(StoredSpan(rows, First(now) - 1440, First(now)));
  }

  /** The open minutes of the last day that have no candle. */
  function OpenMissing(symbol: string, rows: map<int, Candle>, now: int): (r: set<int>)
    ensures forall k :: k in r <==> First(now) - 1440 <= k < First(now) && !M.MinuteClosed(symbol, k) && 60 * k !in rows
  {
    set k | First(now) - 1440 <= k < First(now) && !M.MinuteClosed(symbol, k) && 60 * k !in rows
  }

  lemma SetCount(all: set<int>, closed: set<int>, stored: set<int>)
    requires closed <= all && stored <= all && closed !! stored
    ensures |all - closed - stored| == |all| - |closed| - |stored|
  {
    assert |all - closed| == |all| - |closed|;
    assert stored <= all - closed;
    assert |all - closed - stored| == |all - closed| - |stored|;
  }

  lemma StoredAreOpen(symbol: string, rows: map<int, Candle>, now: int, k: int)
    requires forall t :: t in Recent(rows, now) ==> t % 60 == 0 && M.IsOpen(symbol, t)
    requires k in StoredSpan(rows, First(now) - 1440, First(now))
    ensures !M.MinuteClosed(symbol, k)
  {
    hide First, M.IsOpen;
    DayBefore(now);
    StartsFrom(now, k);
    StartsFrom(now - 86400, k);
    assert 60 * k in Recent(rows, now);
  }

  lemma SpansNest(symbol: string, rows: map<int, Candle>, now: int)
    requires forall t :: t in Recent(rows, now) ==> t % 60 == 0 && M.IsOpen(symbol, t)
    ensures var n := First(now);
      ClosedSpan(symbol, n - 1440, n) <= Span(n - 1440, n) && StoredSpan(rows, n - 1440, n) <= Span(n - 1440, n) &&
      ClosedSpan(symbol, n - 1440, n) !! StoredSpan(rows, n - 1440, n)
  {
    hide First, Span, M.MinuteClosed, M.IsOpen, Recent;
    var n := First(now);
    var closed, stored := ClosedSpan(symbol, n - 1440, n), StoredSpan(rows, n - 1440, n);
    forall k | k in stored ensures k !in closed { StoredAreOpen(symbol, rows, now, k); }
  }

  lemma OpenMissingSplits(symbol: string, rows: map<int, Candle>, now: int)
    ensures var n := First(now);
      OpenMissing(symbol, rows, now) == Span(n - 1440, n) - ClosedSpan(symbol, n - 1440, n) - StoredSpan(rows, n - 1440, n)
  {
    hide First, M.MinuteClosed, Span;
  }

  lemma OpenMissingSize(symbol: string, rows: map<int, Candle>, now: int)
    requires forall t :: t in Recent(rows, now) ==> t % 60 == 0 && M.IsOpen(symbol, t)
    ensures |OpenMissing(symbol, rows, now)| == 1440 - M.ClosedMinutes(symbol, First(now) - 1440, First(now)) - |Day(rows, now)|
  {
    hide *;
    var n := First(now);
    var m := n - 1440;
    SpanSize(m, n);
    ClosedSize(symbol, m, n);
    assert n - m == 1440;
    DaySize(rows, now);
    OpenMissingSplits(symbol, rows, now);
    SpansNest(symbol, rows, now);
    var all, closed, stored := Span(m, n), ClosedSpan(symbol, m, n), StoredSpan(rows, m, n);
    SetCount(all, closed, stored);
  }

  /** The calendar's count of the last day: that of the window, and the minute before it when the window
      starts inside a closed one. */
  lemma WidenedDay(symbol: string, now: int)
    ensures M.ClosedMinutesBetween(symbol, now - 86400, now) ==
      M.ClosedMinutes(symbol, First(now) - 1440, First(now)) + if now % 60 != 0 && !M.IsOpen(symbol, now - 86400) then 1 else 0
  {
    M.MinuteOf(symbol, now - 86400);
    hide M.IsOpen, M.MinuteClosed;
    var from := (now - 86400) / 60;
    if now % 60 == 0 {
      assert from == First(now) - 1440;
    } else {
      assert from == First(now) - 1441;
      M.MinutesAdd(symbol, from, from + 1, First(now));
      OneMinute(symbol, from);
    }
  }

  lemma OneMinute(symbol: string, m: int)
    ensures M.ClosedMinutes(symbol, m, m + 1) == if M.MinuteClosed(symbol, m) then 1 else 0
  {
    assert M.ClosedMinutes(symbol, m, m) == 0;
    hide M.MinuteClosed;
  }

  lemma MissingOpenIs(rows: map<int, Candle>, r: Reading)
    requires r.readable
    ensures MissingOpen(rows, r) == MaxInt(0, MaxInt(0, 1440 - |Day(rows, r.now)|) - r.closedMinutes)
  {
    hide Day;
  }

  /** The stored candles that start on an open minute. */
  function Proper(symbol: string, rows: map<int, Candle>): (r: map<int, Candle>)
    ensures forall t :: t in r <==> t in rows && t % 60 == 0 && M.IsOpen(symbol, t)
  {
    map t | t in rows && t % 60 == 0 && M.IsOpen(symbol, t) :: rows[t]
  }

  /** The stored timestamps of the last day that are no open minute. */
  function Strays(symbol: string, rows: map<int, Candle>, now: int): (r: set<int>)
    ensures forall t :: t in r <==> t in Recent(rows, now) && !(t % 60 == 0 && M.IsOpen(symbol, t))
  {
    set t | t in Recent(rows, now) && !(t % 60 == 0 && M.IsOpen(symbol, t))
  }

  lemma ProperDay(symbol: string, rows: map<int, Candle>, now: int)
    ensures |Day(rows, now)| == |Day(Proper(symbol, rows), now)| + |Strays(symbol, rows, now)|
  {
    hide M.IsOpen, Day, Recent, Proper, Strays;
    var all, good, strays := Recent(rows, now), Recent(Proper(symbol, rows), now), Strays(symbol, rows, now);
    forall t ensures t in all <==> t in good || t in strays {}
    assert all == good + strays && good !! strays;
    assert |good + strays| == |good| + |strays|;
  }

  lemma ProperMissing(symbol: string, rows: map<int, Candle>, now: int)
    ensures OpenMissing(symbol, Proper(symbol, rows), now) == OpenMissing(symbol, rows, now)
  {
    hide M.IsOpen, First, Proper, OpenMissing;
    var a, b := OpenMissing(symbol, Proper(symbol, rows), now), OpenMissing(symbol, rows, now);
    forall k ensures k in a <==> k in b {
      assert (60 * k) % 60 == 0;
    }
  }

  /** The gate's figure is the number of open minutes of the last 24 hours without a candle, less the
      stored candles of that day that start on no open minute; and less one more when the gate runs inside
      a minute and the market was closed at the same moment of the day before: the calendar then counts
      one closed minute more than the window holds. */
  lemma GateCountsMissingOpenMinutes(symbol: string, rows: map<int, Candle>, r: Reading)
    requires r.readable && r.closedMinutes == M.ClosedMinutesBetween(symbol, r.now - 86400, r.now)
    ensures MissingOpen(rows, r) ==
      MaxInt(0, |OpenMissing(symbol, rows, r.now)| - |Strays(symbol, rows, r.now)|
                - if r.now % 60 != 0 && !M.IsOpen(symbol, r.now - 86400) then 1 else 0)
  {
    hide *;
    ProperRecent(symbol, rows, r.now);
    OpenMissingSize(symbol, Proper(symbol, rows), r.now);
    ProperMissing(symbol, rows, r.now);
    ProperDay(symbol, rows, r.now);
    WidenedDay(symbol, r.now);
    MissingOpenIs(rows, r);
    LessClosed(1440 - |Day(rows, r.now)|, r.closedMinutes);
  }

  lemma ProperRecent(symbol: string, rows: map<int, Candle>, now: int)
    ensures forall t :: t in Recent(Proper(symbol, rows), now) ==> t % 60 == 0 && M.IsOpen(symbol, t)
  {
    hide M.IsOpen, Proper;
  }

  lemma LessClosed(x: int, closed: nat)
    ensures MaxInt(0, MaxInt(0, x) - closed) == MaxInt(0, x - closed)
  {}
}
