/** The 24/5 market calendar: open from Sunday 22:00 UTC to Friday 22:00 UTC. */
module MarketHours {

  datatype Reason = Open | Closed | Unknown

  const FX_24_5_SYMBOLS: set<string> := {"EURUSD", "GBPUSD", "XAUUSD", "XAU", "USDJPY", "AUDUSD"}
  const MARKET_HOURS_UNKNOWN_SYMBOLS: set<string> := {"GOOGUSD", "NVDAUSD", "DAXEUR", "SPXUSD", "NDXUSD", "MSFT", "NVDA"}

  /** The alias step of the normalisation; the symbol is already upper case and stripped. */
  function Normalize(symbol: string): string {
    if symbol == "XAU" then "XAUUSD" else symbol
  }

  /** Monday is 0. The epoch was a Thursday. */
  function Weekday(ts: int): int {
    (ts / 86400 + 3) % 7
  }

  function MinuteOfDay(ts: int): int {
    var second := ts % 86400;
    var hour := second / 3600;
    var minute := second % 3600 / 60;
    hour * 60 + minute
  }

  function MarketState(symbol: string, ts: int): (bool, Reason) {
    var s := Normalize(symbol);
    if s in MARKET_HOURS_UNKNOWN_SYMBOLS then (true, Unknown)
    else if s !in FX_24_5_SYMBOLS then (true, Open)
    else
      var day, mins := Weekday(ts), MinuteOfDay(ts);
      if day == 5 then (false, Closed)
      else if day == 6 then (mins >= 22 * 60, if mins >= 22 * 60 then Open else Closed)
      else if day == 4 then (mins < 22 * 60, if mins < 22 * 60 then Open else Closed)
      else (true, Open)
  }

  predicate IsOpen(symbol: string, ts: int) {
    MarketState(symbol, ts).0
  }

  predicate TradesAroundTheClock(symbol: string) {
    Normalize(symbol) in FX_24_5_SYMBOLS
  }

  // ---- the weekly rule ----

  const WEEK := 604800

  /** Seconds since Monday 00:00 UTC. */
  function WeekSecond(ts: int): int {
    (ts + 259200) % WEEK
  }

  const FRIDAY_CLOSE := 424800
  const SUNDAY_OPEN := 597600

  lemma DayOfWeekSecond(ts: int)
    ensures WeekSecond(ts) == Weekday(ts) * 86400 + ts % 86400
  {
    var d, r := ts / 86400, ts % 86400;
    assert ts == d * 86400 + r;
    var q, w := (d + 3) / 7, (d + 3) % 7;
    assert ts + 259200 == q * WEEK + w * 86400 + r;
    assert 0 <= w * 86400 + r < WEEK;
  }

  /** The day-by-day rules amount to one closed stretch of every week. */
  lemma ClosedIff(symbol: string, ts: int)
    ensures !IsOpen(symbol, ts) <==> TradesAroundTheClock(symbol) && FRIDAY_CLOSE <= WeekSecond(ts) < SUNDAY_OPEN
  {
    DayOfWeekSecond(ts);
    var second := ts % 86400;
    assert MinuteOfDay(ts) == second / 60;
    hide Weekday, MinuteOfDay, WeekSecond;
  }

  /** The answer and its reason for every symbol and second: "unknown" and open for the symbols without a
      calendar, "closed" from Friday to Sunday 22:00 for the 24/5 symbols, "open" otherwise. */
  lemma MarketStateIs(symbol: string, ts: int)
    ensures MarketState(symbol, ts) ==
      if Normalize(symbol) in MARKET_HOURS_UNKNOWN_SYMBOLS then (true, Unknown)
      else if TradesAroundTheClock(symbol) && FRIDAY_CLOSE <= WeekSecond(ts) < SUNDAY_OPEN then (false, Closed)
      else (true, Open)
  {
    ClosedIff(symbol, ts);
    hide Weekday, MinuteOfDay, Normalize, WeekSecond;
  }

  /** Seconds of one minute have the same minute of the week. */
  lemma MinuteOfWeek(ts: int)
    ensures WeekSecond(ts / 60 * 60) == WeekSecond(ts) - ts % 60
    ensures WeekSecond(ts / 60 * 60) % 60 == 0
  {
    var m, r := ts / 60, ts % 60;
    assert ts == 60 * m + r;
    var q := (m + 4320) / 10080;
    var k := (m + 4320) % 10080;
    assert ts + 259200 == q * WEEK + (60 * k + r);
    assert m * 60 + 259200 == q * WEEK + 60 * k;
    RemainderIs(ts + 259200, q, 60 * k + r);
    RemainderIs(m * 60 + 259200, q, 60 * k);
  }

  lemma RemainderIs(x: int, q: int, r: int)
    requires x == q * WEEK + r && 0 <= r < WEEK
    ensures x % WEEK == r
  {}

  lemma OneMinuteOneState(symbol: string, ts: int)
    ensures IsOpen(symbol, ts) == IsOpen(symbol, ts / 60 * 60)
  {
    hide *;
    ClosedIff(symbol, ts);
    ClosedIff(symbol, ts / 60 * 60);
    MinuteOfWeek(ts);
    SameSide(WeekSecond(ts / 60 * 60), ts % 60);
  }

  /** Both ends of the closed stretch are on a minute. */
  lemma SameSide(w: int, r: int)
    requires w % 60 == 0 && 0 <= r < 60
    ensures FRIDAY_CLOSE <= w < SUNDAY_OPEN <==> FRIDAY_CLOSE <= w + r < SUNDAY_OPEN
  {
    var k := w / 60;
    assert w == 60 * k;
  }

  lemma SameWeekSecond(ts: int)
    ensures WeekSecond(ts + WEEK) == WeekSecond(ts)
  {
    var q, r := (ts + 259200) / WEEK, WeekSecond(ts);
    assert ts + WEEK + 259200 == (q + 1) * WEEK + r;
  }

  lemma WeeklyPeriod(symbol: string, ts: int)
    ensures IsOpen(symbol, ts + WEEK) == IsOpen(symbol, ts)
  {
    hide *;
    SameWeekSecond(ts);
    ClosedIff(symbol, ts);
    ClosedIff(symbol, ts + WEEK);
  }

  // ---- the scan ----

  /** Minute number `m` starts at second `60 * m`. */
  predicate MinuteClosed(symbol: string, m: int) {
    !IsOpen(symbol, 60 * m)
  }

  ghost predicate AllOpen(symbol: string, m: int, n: int) {
    forall k :: m <= k < n ==> !MinuteClosed(symbol, k)
  }

  ghost predicate AllClosed(symbol: string, m: int, n: int) {
    forall k :: m <= k < n ==> MinuteClosed(symbol, k)
  }

  type Interval = (int, int)

  predicate Aligned(r: seq<Interval>) {
    forall i :: 0 <= i < |r| ==> r[i].0 % 60 == 0 && r[i].1 % 60 == 0 && r[i].0 < r[i].1
  }

  /** In order, and never touching. */
  ghost predicate Separate(r: seq<Interval>) {
    forall i, j :: 0 <= i < j < |r| ==> r[i].1 < r[j].0
  }

  predicate Covered(r: seq<Interval>, t: int) {
    exists i :: 0 <= i < |r| && r[i].0 <= t < r[i].1
  }

  /** No interval can be extended inside the scanned range. */
  predicate Maximal(symbol: string, r: seq<Interval>, lo: int, hi: int) {
    forall i :: 0 <= i < |r| ==>
      && lo <= r[i].0 && r[i].1 <= hi
      && (r[i].0 == lo || IsOpen(symbol, r[i].0 - 1))
      && (r[i].1 == hi || IsOpen(symbol, r[i].1))
  }

  function ScanStart(from: int): int { from / 60 * 60 }
  function ScanEnd(to: int): int { ((to - 1) / 60 + 1) * 60 }

  /** The intervals found between minutes `lo` and `hi`, the last one first. */
  ghost predicate Scan(symbol: string, r: seq<Interval>, lo: int, hi: int) {
    if r == [] then AllOpen(symbol, lo, hi)
    else
      var n := |r| - 1;
      var (start, end) := r[n];
      && start % 60 == 0 && end % 60 == 0
      && lo <= start / 60 < end / 60 <= hi
      && AllClosed(symbol, start / 60, end / 60)
      && AllOpen(symbol, end / 60, hi)
      && (n > 0 ==> r[n - 1].1 < start)
      && Scan(symbol, r[..n], lo, start / 60)
  }

  lemma {:induction false} ScanShape(symbol: string, r: seq<Interval>, lo: int, hi: int)
    requires Scan(symbol, r, lo, hi)
    ensures Aligned(r) && Separate(r)
    ensures forall i :: 0 <= i < |r| ==> 60 * lo <= r[i].0 && r[i].1 <= 60 * hi
  {
    if r != [] {
      var n := |r| - 1;
      ScanShape(symbol, r[..n], lo, r[n].0 / 60);
      assert forall i :: 0 <= i < n ==> r[..n][i] == r[i];
      assert r == r[..n] + [r[n]];
      hide Scan, AllOpen, AllClosed;
      forall i | 0 <= i < n ensures r[i].1 < r[n].0 {
        assert i < n - 1 ==> r[i].1 < r[n - 1].0;
      }
    }
  }

  lemma MinuteOf(symbol: string, t: int)
    ensures IsOpen(symbol, t) <==> !MinuteClosed(symbol, t / 60)
  {
    OneMinuteOneState(symbol, t);
  }

  lemma {:induction false} ScanCovers(symbol: string, r: seq<Interval>, lo: int, hi: int, t: int)
    requires Scan(symbol, r, lo, hi) && lo <= t / 60 < hi
    ensures Covered(r, t) <==> !IsOpen(symbol, t)
  {
    MinuteOf(symbol, t);
    hide IsOpen, MinuteClosed;
    if r != [] {
      var n := |r| - 1;
      var (start, end) := r[n];
      assert r == r[..n] + [r[n]];
      assert Covered(r, t) <==> Covered(r[..n], t) || start <= t < end;
      if t < start {
        ScanCovers(symbol, r[..n], lo, start / 60, t);
      } else {
        ScanShape(symbol, r[..n], lo, start / 60);
        assert !Covered(r[..n], t);
      }
    }
  }

  lemma {:induction false} ScanMaximal(symbol: string, r: seq<Interval>, lo: int, hi: int)
    requires Scan(symbol, r, lo, hi)
    ensures Maximal(symbol, r, 60 * lo, 60 * hi)
  {
    ScanShape(symbol, r, lo, hi);
    forall i | 0 <= i < |r|
      ensures r[i].0 == 60 * lo || IsOpen(symbol, r[i].0 - 1)
      ensures r[i].1 == 60 * hi || IsOpen(symbol, r[i].1)
    {
      if r[i].0 > 60 * lo { ScanCovers(symbol, r, lo, hi, r[i].0 - 1); }
      if r[i].1 < 60 * hi { ScanCovers(symbol, r, lo, hi, r[i].1); }
      hide Scan, IsOpen;
    }
  }

  lemma ScanOpenMinute(symbol: string, r: seq<Interval>, lo: int, m: int)
    requires Scan(symbol, r, lo, m) && lo <= m && !MinuteClosed(symbol, m)
    ensures Scan(symbol, r, lo, m + 1)
  {}

  lemma ScanAppend(symbol: string, r: seq<Interval>, lo: int, m: int, n: int)
    requires Scan(symbol, r, lo, m) && lo <= m < n && AllClosed(symbol, m, n)
    requires r != [] ==> r[|r| - 1].1 < 60 * m
    ensures Scan(symbol, r + [(60 * m, 60 * n)], lo, n)
  {
    assert (r + [(60 * m, 60 * n)])[..|r|] == r;
  }

  lemma OthersNeverClose(symbol: string, lo: int, hi: int)
    requires !TradesAroundTheClock(symbol)
    ensures AllOpen(symbol, lo, hi)
  {}

  /** The closed stretches of a range, widened to whole minutes: aligned, in order, never touching,
      not extensible, and covering exactly the closed seconds. */
  method ClosedIntervalsBetween(symbol: string, from: int, to: int) returns (intervals: seq<Interval>)
    ensures Aligned(intervals) && Separate(intervals)
    ensures Maximal(symbol, intervals, ScanStart(from), ScanEnd(to))
    ensures forall t :: ScanStart(from) <= t < ScanEnd(to) ==> (Covered(intervals, t) <==> !IsOpen(symbol, t))
    ensures Scan(symbol, intervals, from / 60, (to - 1) / 60 + 1)
  {
    intervals := [];
    ghost var lo, hi := from / 60, (to - 1) / 60 + 1;
    if Normalize(symbol) !in FX_24_5_SYMBOLS {
      OthersNeverClose(symbol, lo, hi);
    } else {
      intervals := ScanMinutes(symbol, ScanStart(from), ScanEnd(to), lo, hi);
    }
    hide *;
    ScanShape(symbol, intervals, lo, hi);
    ScanMaximal(symbol, intervals, lo, hi);
    assert 60 * lo == ScanStart(from) && 60 * hi == ScanEnd(to) by { WidenedEnds(from, to); }
    forall t | ScanStart(from) <= t < ScanEnd(to) ensures Covered(intervals, t) <==> !IsOpen(symbol, t) {
      ScanCovers(symbol, intervals, lo, hi, t);
    }
  }

  lemma WidenedEnds(from: int, to: int)
    ensures 60 * (from / 60) == ScanStart(from) && 60 * ((to - 1) / 60 + 1) == ScanEnd(to)
  {}

  /** The two nested loops over minutes. */
  method ScanMinutes(symbol: string, from: int, to: int, ghost lo: int, ghost hi: int) returns (intervals: seq<Interval>)
    requires from == 60 * lo && to == 60 * hi
    ensures Scan(symbol, intervals, lo, hi)
  {
    hide IsOpen;
    intervals := [];
    var ts := from;
    ghost var m := lo;
    while ts < to
      invariant ts == 60 * m && lo <= m && (m <= hi || (m == lo && intervals == []))
      invariant Scan(symbol, intervals, lo, m)
      invariant intervals != [] ==> intervals[|intervals| - 1].1 <= ts
      invariant intervals != [] && intervals[|intervals| - 1].1 == ts && ts < to ==> !MinuteClosed(symbol, m)
    {
      hide Scan;
      if !IsOpen(symbol, ts) {
        var start := ts;
        ghost var first := m;
        while ts < to && !IsOpen(symbol, ts)
          invariant ts == 60 * m && first <= m <= hi
          invariant ts > start || !IsOpen(symbol, ts)
          invariant AllClosed(symbol, first, m)
        {
          ts := ts + 60;
          m := m + 1;
        }
        ScanAppend(symbol, intervals, lo, first, m);
        intervals := intervals + [(start, ts)];
      } else {
        ScanOpenMinute(symbol, intervals, lo, m);
        ts := ts + 60;
        m := m + 1;
      }
    }
  }

  // ---- counting closed minutes ----

  /** The number of closed minutes among minutes `m` to `n - 1`. */
  function ClosedMinutes(symbol: string, m: int, n: int): (c: nat)
    decreases n - m
  {
    if m >= n then 0 else ClosedMinutes(symbol, m, n - 1) + if MinuteClosed(symbol, n - 1) then 1 else 0
  }

  lemma {:induction false} MinutesAdd(symbol: string, a: int, b: int, c: int)
    requires a <= b <= c
    ensures ClosedMinutes(symbol, a, c) == ClosedMinutes(symbol, a, b) + ClosedMinutes(symbol, b, c)
    decreases c - b
  {
    hide MinuteClosed;
    if b < c { MinutesAdd(symbol, a, b, c - 1); }
  }

  lemma {:induction false} MinutesAllOpen(symbol: string, m: int, n: int)
    requires AllOpen(symbol, m, n)
    ensures ClosedMinutes(symbol, m, n) == 0
    decreases n - m
  {
    hide MinuteClosed;
    if m < n { MinutesAllOpen(symbol, m, n - 1); }
  }

  lemma {:induction false} MinutesAllClosed(symbol: string, m: int, n: int)
    requires m <= n && AllClosed(symbol, m, n)
    ensures ClosedMinutes(symbol, m, n) == n - m
    decreases n - m
  {
    hide MinuteClosed;
    if m < n { MinutesAllClosed(symbol, m, n - 1); }
  }

  function Minutes(r: seq<Interval>): int {
    if r == [] then 0
    else
      var n := |r| - 1;
      Minutes(r[..n]) + (r[n].1 - r[n].0) / 60
  }

  lemma {:induction false} ScanCount(symbol: string, r: seq<Interval>, lo: int, hi: int)
    requires Scan(symbol, r, lo, hi)
    ensures Minutes(r) == ClosedMinutes(symbol, lo, hi)
  {
    hide MinuteClosed, ClosedMinutes;
    if r == [] {
      MinutesAllOpen(symbol, lo, hi);
    } else {
      var n := |r| - 1;
      var s, e := r[n].0 / 60, r[n].1 / 60;
      ScanCount(symbol, r[..n], lo, s);
      MinutesAllClosed(symbol, s, e);
      MinutesAllOpen(symbol, e, hi);
      MinutesAdd(symbol, lo, s, e);
      MinutesAdd(symbol, lo, e, hi);
    }
  }

  /** What the count of a range of seconds means: the closed minutes of the widened range. */
  function ClosedMinutesBetween(symbol: string, from: int, to: int): nat {
    ClosedMinutes(symbol, from / 60, (to - 1) / 60 + 1)
  }

  method CountClosedMinutesBetween(symbol: string, from: int, to: int) returns (total: int)
    ensures total == ClosedMinutesBetween(symbol, from, to)
  {
    hide IsOpen, Scan, ClosedMinutes, Maximal, Aligned, Separate, Covered, ScanStart, ScanEnd;
    var intervals := ClosedIntervalsBetween(symbol, from, to);
    ScanCount(symbol, intervals, from / 60, (to - 1) / 60 + 1);
    total := 0;
    for i := 0 to |intervals|
      invariant total == Minutes(intervals[..i])
    {
      assert intervals[..i + 1][..i] == intervals[..i];
      var (start, end) := intervals[i];
      total := total + (end - start) / 60;
    }
    assert intervals[..|intervals|] == intervals;
  }

  /** Cutting a range in two counts every closed minute once, unless the cut falls inside a closed
      minute, which is then counted on both sides. */
  lemma CountAdds(symbol: string, from: int, mid: int, to: int)
    requires from <= mid <= to
    ensures ClosedMinutesBetween(symbol, from, mid) + ClosedMinutesBetween(symbol, mid, to) ==
      ClosedMinutesBetween(symbol, from, to) + (if mid % 60 != 0 && !IsOpen(symbol, mid) then 1 else 0)
  {
    var a, b, c := from / 60, mid / 60, (to - 1) / 60 + 1;
    MinuteOf(symbol, mid);
    hide IsOpen, MinuteClosed;
    if mid % 60 == 0 {
      assert (mid - 1) / 60 + 1 == b;
      assert a <= b <= c;
      MinutesAdd(symbol, a, b, c);
    } else {
      assert (mid - 1) / 60 == b;
      assert a <= b && b + 1 <= c;
      MinutesAdd(symbol, a, b, c);
      MinutesAdd(symbol, a, b, b + 1);
      assert ClosedMinutes(symbol, b, b + 1) == ClosedMinutes(symbol, b, b) + if MinuteClosed(symbol, b) then 1 else 0;
    }
  }

  // ---- one week ----

  const WEEK_MINUTES := 10080
  const CLOSED_MINUTES := 2880

  lemma MinutePeriod(symbol: string, m: int)
    ensures MinuteClosed(symbol, m + WEEK_MINUTES) == MinuteClosed(symbol, m)
  {
    WeeklyPeriod(symbol, 60 * m);
    assert 60 * (m + WEEK_MINUTES) == 60 * m + WEEK;
    hide IsOpen;
  }

  lemma SlideWeek(symbol: string, m: int)
    ensures ClosedMinutes(symbol, m, m + WEEK_MINUTES) == ClosedMinutes(symbol, m + 1, m + 1 + WEEK_MINUTES)
  {
    MinutePeriod(symbol, m);
    MinutesAdd(symbol, m, m + 1, m + WEEK_MINUTES);
    assert ClosedMinutes(symbol, m, m + 1) == ClosedMinutes(symbol, m, m) + if MinuteClosed(symbol, m) then 1 else 0;
    hide MinuteClosed;
  }

  /** Minute 2760 is the first Friday 22:00 after the epoch. */
  lemma FirstWeek(symbol: string)
    requires TradesAroundTheClock(symbol)
    ensures ClosedMinutes(symbol, 2760, 2760 + WEEK_MINUTES) == CLOSED_MINUTES
  {
    forall k | 2760 <= k < 2760 + WEEK_MINUTES ensures MinuteClosed(symbol, k) <==> k < 5640 {
      ClosedIff(symbol, 60 * k);
      hide IsOpen;
    }
    MinutesAllClosed(symbol, 2760, 5640);
    MinutesAllOpen(symbol, 5640, 2760 + WEEK_MINUTES);
    MinutesAdd(symbol, 2760, 5640, 2760 + WEEK_MINUTES);
    hide ClosedMinutes;
  }

  lemma {:induction false} EveryWeek(symbol: string, m: int)
    requires TradesAroundTheClock(symbol)
    ensures ClosedMinutes(symbol, m, m + WEEK_MINUTES) == CLOSED_MINUTES
    decreases if m >= 2760 then m - 2760 else 2760 - m
  {
    if m == 2760 {
      FirstWeek(symbol);
    } else if m > 2760 {
      EveryWeek(symbol, m - 1);
      SlideWeek(symbol, m - 1);
    } else {
      EveryWeek(symbol, m + 1);
      SlideWeek(symbol, m);
    }
    hide ClosedMinutes;
  }

  /** A week starting on a minute has exactly 48 closed hours. One starting inside a minute is widened to
      both ends of that minute, so it counts one more when the minute is closed. */
  lemma OneWeek(symbol: string, from: int)
    requires TradesAroundTheClock(symbol)
    ensures ClosedMinutesBetween(symbol, from, from + WEEK) ==
      CLOSED_MINUTES + (if from % 60 != 0 && !IsOpen(symbol, from) then 1 else 0)
  {
    var m := from / 60;
    EveryWeek(symbol, m);
    MinuteOf(symbol, from);
    MinutePeriod(symbol, m);
    hide IsOpen, MinuteClosed;
    if from % 60 == 0 {
      assert (from + WEEK - 1) / 60 + 1 == m + WEEK_MINUTES;
    } else {
      assert (from + WEEK - 1) / 60 + 1 == m + WEEK_MINUTES + 1;
    }
  }

  // ---- counting closed seconds of a gap ----

  /** The number of closed seconds from `a` up to but not including `b`. */
  function ClosedSeconds(symbol: string, a: int, b: int): (c: nat)
    decreases b - a
  {
    if a >= b then 0 else ClosedSeconds(symbol, a, b - 1) + if IsOpen(symbol, b - 1) then 0 else 1
  }

  lemma {:induction false} SecondsExtend(symbol: string, a: int, b: int, c: int, closed: bool)
    requires a <= b <= c
    requires forall t :: b <= t < c ==> IsOpen(symbol, t) != closed
    ensures ClosedSeconds(symbol, a, c) == ClosedSeconds(symbol, a, b) + if closed then c - b else 0
    decreases c - b
  {
    hide IsOpen;
    if b < c { SecondsExtend(symbol, a, b, c - 1, closed); }
  }

  function MinInt(a: int, b: int): int { if a <= b then a else b }
  function MaxInt(a: int, b: int): int { if a >= b then a else b }

  function Overlap(i: Interval, a: int, b: int): int {
    MaxInt(0, MinInt(i.1, b) - MaxInt(i.0, a))
  }

  function Overlaps(r: seq<Interval>, a: int, b: int): int {
    if r == [] then 0
    else
      var n := |r| - 1;
      Overlaps(r[..n], a, b) + Overlap(r[n], a, b)
  }

  /** Moving the end of the gap across seconds that are all open or all closed. */
  lemma SecondsUpto(symbol: string, a: int, x: int, y: int, closed: bool)
    requires x <= y
    requires forall t :: x <= t < y ==> IsOpen(symbol, t) != closed
    ensures ClosedSeconds(symbol, a, y) == ClosedSeconds(symbol, a, x) + if closed then MaxInt(0, y - MaxInt(x, a)) else 0
  {
    hide IsOpen;
    if a <= x {
      SecondsExtend(symbol, a, x, y, closed);
    } else if a <= y {
      SecondsExtend(symbol, a, a, y, closed);
    }
  }

  lemma StretchOf(symbol: string, m: int, n: int, closed: bool)
    requires if closed then AllClosed(symbol, m, n) else AllOpen(symbol, m, n)
    ensures forall t :: 60 * m <= t < 60 * n ==> IsOpen(symbol, t) != closed
  {
    hide IsOpen, MinuteClosed;
    forall t | 60 * m <= t < 60 * n ensures IsOpen(symbol, t) != closed {
      MinuteOf(symbol, t);
    }
  }

  lemma {:induction false} ScanSeconds(symbol: string, r: seq<Interval>, lo: int, hi: int, a: int, b: int)
    requires Scan(symbol, r, lo, hi) && 60 * lo <= a && lo <= hi
    ensures Overlaps(r, a, b) == ClosedSeconds(symbol, a, MinInt(b, 60 * hi))
  {
    hide IsOpen, MinuteClosed, AllOpen, AllClosed;
    if r == [] {
      StretchOf(symbol, lo, hi, false);
      SecondsUpto(symbol, a, 60 * lo, MaxInt(60 * lo, MinInt(b, 60 * hi)), false);
    } else {
      var n := |r| - 1;
      var (start, end) := r[n];
      ScanSeconds(symbol, r[..n], lo, start / 60, a, b);
      StretchOf(symbol, start / 60, end / 60, true);
      StretchOf(symbol, end / 60, hi, false);
      SecondsUpto(symbol, a, MinInt(b, start), MinInt(b, end), true);
      SecondsUpto(symbol, a, MinInt(b, end), MinInt(b, 60 * hi), false);
    }
  }

  lemma GapSeconds(symbol: string, r: seq<Interval>, gapStart: int, gapEnd: int)
    requires Scan(symbol, r, gapStart / 60, (gapEnd - 1) / 60 + 1)
    ensures Overlaps(r, gapStart, gapEnd) == ClosedSeconds(symbol, gapStart, gapEnd)
  {
    var lo, hi := gapStart / 60, (gapEnd - 1) / 60 + 1;
    if lo <= hi {
      ScanSeconds(symbol, r, lo, hi, gapStart, gapEnd);
      assert gapEnd <= 60 * hi;
    } else {
      assert r == [];
    }
  }

  /** The clipped total is the number of closed seconds of the gap, whatever its ends. */
  method CountClosedSecondsInGap(symbol: string, gapStart: int, gapEnd: int) returns (total: int)
    ensures total == ClosedSeconds(symbol, gapStart, gapEnd)
  {
    hide IsOpen, Scan, ClosedSeconds, Maximal, Aligned, Separate, Covered, ScanStart, ScanEnd;
    var intervals := ClosedIntervalsBetween(symbol, gapStart, gapEnd);
    GapSeconds(symbol, intervals, gapStart, gapEnd);
    total := 0;
    for i := 0 to |intervals|
      invariant total == Overlaps(intervals[..i], gapStart, gapEnd)
    {
      assert intervals[..i + 1][..i] == intervals[..i];
      var (start, end) := intervals[i];
      var overlapStart := MaxInt(start, gapStart);
      var overlapEnd := MinInt(end, gapEnd);
      if overlapEnd > overlapStart {
        total := total + (overlapEnd - overlapStart);
      }
    }
    assert intervals[..|intervals|] == intervals;
  }
}
