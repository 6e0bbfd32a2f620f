/** The realtime ingest service: its per-symbol dictionaries, updated by polls and flushes. */
module CandleIngest {
  import opened Series
  import opened Ticks
  import opened TickLog
  import opened CandleFeed
  import GapValidator

  /** Degradation reasons, by the prefix the service compares. */
  datatype Reason = PollFailures(count: nat) | StaleSeconds(seconds: int) | MissingMinutes(minutes: int) | Invalid(duplicates: nat, stepErrors: nat)

  predicate Transient(r: Reason) { r.PollFailures? || r.StaleSeconds? }

  function Get<T>(m: map<string, T>, k: string, default: T): T {
    if k in m then m[k] else default
  }

  function MaxInt(a: int, b: int): int { if a >= b then a else b }
  function MinInt(a: int, b: int): int { if a <= b then a else b }

  class IngestService {
    const limits: Limits
    const backoffBase: int
    const backoffMax: int
    var ticks: map<string, map<int, seq<Tick>>>
    var lastIngested: map<string, int>
    var ignoredStale: map<string, nat>
    var ignoredClosed: map<string, nat>
    var degraded: set<string>
    var reasons: map<string, Reason>
    var backoffUntil: map<string, int>
    var failures: map<string, nat>
    // the candle store, and the tick recorder's files and last timestamps
    var stored: map<string, map<int, Candle>>
    var files: map<string, seq<Tick>>
    var lastLogged: map<string, int>
    // history of this process
    ghost var accepted: map<string, seq<Tick>>
    ghost var logged: map<string, seq<bool>>
    ghost var appended: map<string, seq<int>>
    ghost var cut: map<string, map<int, nat>>

    ghost function FeedOf(symbol: string): Feed
      reads this`ticks, this`lastIngested, this`stored, this`lastLogged, this`accepted, this`logged, this`appended, this`cut
    {
      Feed(Get(ticks, symbol, map[]),
           if symbol in lastIngested then Some(lastIngested[symbol]) else None,
           Get(stored, symbol, map[]), Get(accepted, symbol, []), Get(logged, symbol, []),
           Get(lastLogged, symbol, 0), Get(appended, symbol, []), Get(cut, symbol, map[]))
    }

    /** The recorder's file has the accepted ticks it was told to keep, in order. */
    ghost predicate FileIs(symbol: string)
      reads this`files, this`accepted, this`logged
    {
      var ticks, flags := Get(accepted, symbol, []), Get(logged, symbol, []);
      |flags| == |ticks| && Get(files, symbol, []) == Kept(ticks, flags)
    }

    constructor (limits: Limits, backoffBase: int, backoffMax: int, stored: map<string, map<int, Candle>>)
      ensures this.limits == limits && this.backoffBase == backoffBase && this.backoffMax == backoffMax
      ensures forall s :: FeedOf(s) == Fresh(Get(stored, s, map[]))
      ensures forall s :: FileIs(s)
      ensures degraded == {} && reasons == map[]
    {
      this.limits, this.backoffBase, this.backoffMax, this.stored := limits, backoffBase, backoffMax, stored;
      ticks, lastIngested, ignoredStale, ignoredClosed := map[], map[], map[], map[];
      degraded, reasons, backoffUntil, failures := {}, map[], map[], map[];
      files, lastLogged, accepted, logged, appended, cut := map[], map[], map[], map[], map[], map[];
    }

    method AcceptTickTimestamp(symbol: string, tickTs: int, now: int) returns (accepted: bool)
      modifies this`lastIngested, this`ignoredStale
      ensures accepted == old(Accepts(FeedOf(symbol), tickTs, now, limits))
      ensures lastIngested == if accepted then old(lastIngested)[symbol := tickTs] else old(lastIngested)
      ensures ignoredStale == if accepted then old(ignoredStale)
                              else old(ignoredStale)[symbol := Get(old(ignoredStale), symbol, 0) + 1]
      ensures FeedOf(symbol) == if accepted then old(FeedOf(symbol)).(last := Some(tickTs)) else old(FeedOf(symbol))
      ensures forall s :: s != symbol ==> FeedOf(s) == old(FeedOf(s))
    {
      var age := now - tickTs;
      var invalid := age > limits.staleSeconds || age < -limits.pollInterval;
      if symbol in lastIngested && tickTs < lastIngested[symbol] {
        invalid := true;
      }
      if invalid {
        ignoredStale := ignoredStale[symbol := Get(ignoredStale, symbol, 0) + 1];
        return false;
      }
      lastIngested := lastIngested[symbol := tickTs];
      return true;
    }

    /** An accepted tick enters its minute's bucket when the market is open. */
    method BufferTick(symbol: string, t: Tick, open: int -> bool)
      modifies this`ticks, this`ignoredClosed
      ensures var f := old(FeedOf(symbol));
        FeedOf(symbol) == f.(buckets := if open(Minute(t.ts))
          then f.buckets[Minute(t.ts) := Bucket(f.buckets, Minute(t.ts)) + [t]] else f.buckets)
      ensures forall s :: s != symbol ==> FeedOf(s) == old(FeedOf(s))
    {
      var minute := Minute(t.ts);
      if !open(minute) {
        ignoredClosed := ignoredClosed[symbol := Get(ignoredClosed, symbol, 0) + 1];
      } else {
        var mine := Get(ticks, symbol, map[]);
        ticks := ticks[symbol := mine[minute := Bucket(mine, minute) + [t]]];
      }
    }

    /** `record_tick`: a line for a tick that is strictly newer than the last line. `writes` is false when
        there is no recorder or its write raises; nothing is recorded then, and nothing propagates. */
    method RecordTick(symbol: string, t: Tick, writes: bool) returns (ghost keeps: bool)
      modifies this`files, this`lastLogged
      ensures keeps == Keeps(Get(old(lastLogged), symbol, 0), t.ts, writes)
      ensures files == if keeps then old(files)[symbol := Get(old(files), symbol, []) + [t]] else old(files)
      ensures lastLogged == if keeps then old(lastLogged)[symbol := t.ts] else old(lastLogged)
    {
      var lastTs := Get(lastLogged, symbol, 0);
      keeps := Keeps(lastTs, t.ts, writes);
      if t.ts > lastTs && writes {
        files := files[symbol := Get(files, symbol, []) + [t]];
        lastLogged := lastLogged[symbol := t.ts];
      }
    }

    /** The tick enters the history, with whether the recorder kept it. */
    ghost method Remember(symbol: string, t: Tick, keeps: bool)
      modifies this`accepted, this`logged
      ensures accepted == old(accepted)[symbol := Get(old(accepted), symbol, []) + [t]]
      ensures logged == old(logged)[symbol := Get(old(logged), symbol, []) + [keeps]]
    {
      accepted := accepted[symbol := Get(accepted, symbol, []) + [t]];
      logged := logged[symbol := Get(logged, symbol, []) + [keeps]];
    }

    method Record(symbol: string, t: Tick, writes: bool)
      requires forall s :: FileIs(s)
      modifies this`files, this`lastLogged, this`accepted, this`logged
      ensures var f := old(FeedOf(symbol));
        var keeps := Keeps(f.lastLogged, t.ts, writes);
        FeedOf(symbol) == f.(accepted := f.accepted + [t], logged := f.logged + [keeps],
                             lastLogged := if keeps then t.ts else f.lastLogged)
      ensures forall s :: s != symbol ==> FeedOf(s) == old(FeedOf(s))
      ensures forall s :: FileIs(s)
    {
      hide Kept, Keeps;
      assert FileIs(symbol);
      ghost var keeps := RecordTick(symbol, t, writes);
      KeptUnfold(Get(accepted, symbol, []), Get(logged, symbol, []), t, keeps);
      Remember(symbol, t, keeps);
      assert forall s :: s != symbol ==> old(FileIs(s)) ==> FileIs(s);
    }

    /** What the poll loop does with an accepted tick: bucket it, recover the symbol, record it. */
    method KeepTick(symbol: string, t: Tick, writes: bool, open: int -> bool)
      requires forall s :: FileIs(s)
      modifies this`ticks, this`ignoredClosed, this`degraded, this`reasons, this`backoffUntil
      modifies this`files, this`lastLogged, this`accepted, this`logged
      ensures var f := old(FeedOf(symbol));
        var keeps := Keeps(f.lastLogged, t.ts, writes);
        FeedOf(symbol) == f.(accepted := f.accepted + [t], logged := f.logged + [keeps],
          lastLogged := if keeps then t.ts else f.lastLogged,
          buckets := if open(Minute(t.ts)) then f.buckets[Minute(t.ts) := Bucket(f.buckets, Minute(t.ts)) + [t]] else f.buckets)
      ensures forall s :: s != symbol ==> FeedOf(s) == old(FeedOf(s))
      ensures forall s :: FileIs(s)
      ensures var recovers := symbol in old(degraded) && symbol in old(reasons) && Transient(old(reasons)[symbol]);
        && degraded == (if recovers then old(degraded) - {symbol} else old(degraded))
        && reasons == (if recovers then old(reasons) - {symbol} else old(reasons))
    {
      hide FeedOf, FileIs, Keeps;
      BufferTick(symbol, t, open);
      if symbol in degraded && symbol in reasons && Transient(reasons[symbol]) {
        Autorecover(symbol);
      }
      Record(symbol, t, writes);
    }

    /** The part of the poll loop that handles a price that arrived. */
    method PollTick(symbol: string, t: Tick, now: int, writes: bool, open: int -> bool)
      requires forall s :: FileIs(s)
      modifies this
      ensures FeedOf(symbol) == Poll(old(FeedOf(symbol)), t, now, writes, open, limits)
      ensures forall s :: s != symbol ==> FeedOf(s) == old(FeedOf(s))
      ensures forall s :: FileIs(s)
      ensures failures == old(failures)[symbol := 0]
      ensures var recovers := old(Accepts(FeedOf(symbol), t.ts, now, limits))
            && symbol in old(degraded) && symbol in old(reasons) && Transient(old(reasons)[symbol]);
        && degraded == (if recovers then old(degraded) - {symbol} else old(degraded))
        && reasons == (if recovers then old(reasons) - {symbol} else old(reasons))
    {
      hide FeedOf, FileIs, Keeps;
      failures := failures[symbol := 0];
      var taken := AcceptTickTimestamp(symbol, t.ts, now);
      if taken {
        KeepTick(symbol, t, writes, open);
      }
    }

    method Autorecover(symbol: string)
      modifies this`degraded, this`reasons, this`backoffUntil
      ensures degraded == old(degraded) - {symbol}
      ensures reasons == old(reasons) - {symbol} && backoffUntil == old(backoffUntil) - {symbol}
    {
      degraded := degraded - {symbol};
      reasons := reasons - {symbol};
      backoffUntil := backoffUntil - {symbol};
    }

    /** `clock` is the time `_mark_degraded` reads for itself. */
    method MarkDegraded(symbol: string, reason: Reason, clock: int)
      modifies this`degraded, this`reasons, this`backoffUntil
      ensures degraded == old(degraded) + {symbol} && reasons == old(reasons)[symbol := reason]
      ensures backoffUntil == if reason.PollFailures? then old(backoffUntil)[symbol := clock + backoffBase] else old(backoffUntil)
    {
      degraded := degraded + {symbol};
      reasons := reasons[symbol := reason];
      if reason.PollFailures? {
        backoffUntil := backoffUntil[symbol := clock + backoffBase];
      }
    }

    method IncreaseBackoff(symbol: string, now: int)
      modifies this`backoffUntil
      ensures backoffUntil == old(backoffUntil)[symbol :=
        now + MinInt(2 * MaxInt(MaxInt(0, Get(old(backoffUntil), symbol, 0) - now), backoffBase), backoffMax)]
    {
      var remaining := MaxInt(0, Get(backoffUntil, symbol, 0) - now);
      var next := MinInt(MaxInt(remaining, backoffBase) * 2, backoffMax);
      backoffUntil := backoffUntil[symbol := now + next];
    }

    /** The part of the poll loop that handles a failed poll while the market is open. The backoff does
        not grow with the number of failures: marking the symbol first resets it, so from the third
        failure on it is twice the base, plus what the clock moved in between, whatever it was before. */
    method PollFailed(symbol: string, now: int, clock: int)
      requires now <= clock && 0 <= backoffBase
      modifies this`failures, this`degraded, this`reasons, this`backoffUntil
      ensures var n := Get(old(failures), symbol, 0) + 1;
        && failures == old(failures)[symbol := n]
        && (n < 3 ==> degraded == old(degraded) && reasons == old(reasons) && backoffUntil == old(backoffUntil))
        && (n >= 3 ==>
              && degraded == old(degraded) + {symbol} && reasons == old(reasons)[symbol := PollFailures(n)]
              && backoffUntil == old(backoffUntil)[symbol := now + MinInt(2 * (backoffBase + clock - now), backoffMax)])
    {
      var n := Get(failures, symbol, 0) + 1;
      failures := failures[symbol := n];
      if n >= 3 {
        MarkDegraded(symbol, PollFailures(n), clock);
        IncreaseBackoff(symbol, now);
      }
    }

    /** `_aggregate_ticks_to_candles`. */
    method AggregateTicks(byMinute: map<int, seq<Tick>>, current: int) returns (bars: seq<Candle>)
      ensures bars == ClosedBars(byMinute, Sorted(byMinute.Keys), current)
    {
      bars := [];
      var minutes := Sorted(byMinute.Keys);
      assert ClosedBars(byMinute, minutes[..0], current) == [];
      hide *;
      for i := 0 to |minutes|
        invariant bars == ClosedBars(byMinute, minutes[..i], current)
      {
        var m := minutes[i];
        assert m in minutes;
        ClosedBarsStep(byMinute, minutes, i, current);
        if m >= current {
          continue;
        }
        var own := byMinute[m];
        if own == [] {
          continue;
        }
        bars := bars + [Bar(m, Prices(own))];
      }
      assert minutes[..|minutes|] == minutes;
    }

    /** One `store.append`. */
    method AppendCandle(symbol: string, candle: Candle) returns (ok: bool)
      requires var mine := Get(ticks, symbol, map[]);
        candle.ts in mine && mine[candle.ts] != [] && candle == Bar(candle.ts, Prices(mine[candle.ts]))
      modifies this`stored, this`appended, this`cut
      ensures FeedOf(symbol) == Append(old(FeedOf(symbol)), candle.ts)
      ensures forall s :: s != symbol ==> FeedOf(s) == old(FeedOf(s))
      ensures ok == (candle.ts !in Get(old(stored), symbol, map[]))
    {
      hide Bar, Prices, InMinute;
      var mine := Get(stored, symbol, map[]);
      ok := candle.ts !in mine;
      if ok {
        stored := stored[symbol := mine[candle.ts := candle]];
        appended := appended[symbol := Get(appended, symbol, []) + [candle.ts]];
        cut := cut[symbol := Get(cut, symbol, map[])[candle.ts := |InMinute(Get(accepted, symbol, []), candle.ts)|]];
      }
    }

    /** The append loop. It stops where the store raises. */
    method AppendBars(symbol: string, bars: seq<Candle>, crash: Option<nat>) returns (raised: bool)
      requires forall i :: 0 <= i < |bars| ==>
        var mine := Get(ticks, symbol, map[]);
        bars[i].ts in mine && mine[bars[i].ts] != [] && bars[i] == Bar(bars[i].ts, Prices(mine[bars[i].ts]))
      modifies this`stored, this`appended, this`cut
      ensures raised == (crash.Some? && crash.value < |bars|)
      ensures var f := old(FeedOf(symbol));
        var n := if raised then crash.value else |bars|;
        && (forall m :: m in Stamps(bars)[..n] ==> m in f.buckets && f.buckets[m] != [])
        && FeedOf(symbol) == AppendAll(f, Stamps(bars)[..n])
      ensures forall s :: s != symbol ==> FeedOf(s) == old(FeedOf(s))
    {
      hide AppendAll, Append, Stamps, Bar, Prices, InMinute;
      ghost var f, ms := FeedOf(symbol), Stamps(bars);
      AppendNone(f, ms);
      var i := 0;
      while i < |bars|
        invariant i <= |bars|
        invariant forall m :: m in ms[..i] ==> m in f.buckets && f.buckets[m] != []
        invariant FeedOf(symbol) == AppendAll(f, ms[..i])
        invariant forall s :: s != symbol ==> FeedOf(s) == old(FeedOf(s))
        invariant crash.None? || i <= crash.value
      {
        if crash == Some(i) {
          return true;
        }
        SingleCandleIsClean(bars[i]);
        AppendOneMore(f, ms, i);
        var ok := AppendCandle(symbol, bars[i]);
        i := i + 1;
      }
      return false;
    }

    /** `_flush_closed_minutes`. `crash` says at which append the store raises; the exception leaves the
        buffered ticks in place for the next flush. Validating a single candle finds nothing, so the
        branch that degrades the symbol there is never taken. */
    method FlushClosedMinutes(symbol: string, current: int, crash: Option<nat>) returns (raised: bool)
      modifies this`ticks, this`stored, this`appended, this`cut
      ensures FeedOf(symbol) == Flush(old(FeedOf(symbol)), current, crash)
      ensures forall s :: s != symbol ==> FeedOf(s) == old(FeedOf(s))
    {
      ghost var f := FeedOf(symbol);
      var mine := Get(ticks, symbol, map[]);
      assert f.buckets == mine;
      hide *;
      var bars := AggregateTicks(mine, current);
      ClosedBarsStamps(mine, current);
      FlushOutcome(f, current, crash);
      if bars != [] {
        raised := AppendBars(symbol, bars, crash);
        if !raised {
          DropFlushed(symbol, mine, bars[|bars| - 1].ts);
        }
      } else {
        raised := false;
      }
    }

    /** `for m in to_remove: del ticks_by_minute[m]`. */
    method DropFlushed(symbol: string, mine: map<int, seq<Tick>>, lastFlushed: int)
      modifies this`ticks
      ensures FeedOf(symbol) == old(FeedOf(symbol)).(buckets := map m | m in mine && m > lastFlushed :: mine[m])
      ensures forall s :: s != symbol ==> FeedOf(s) == old(FeedOf(s))
    {
      ticks := ticks[symbol := map m | m in mine && m > lastFlushed :: mine[m]];
    }
  }

  lemma SingleCandleIsClean(c: Candle)
    ensures GapValidator.Duplicates([c]) == 0 && GapValidator.StepErrors([c]) == 0
  {}

  // ---- the specification of the aggregation, and the two ends of a flush ----

  function ClosedBars(byMinute: map<int, seq<Tick>>, minutes: seq<int>, current: int): seq<Candle> {
    if minutes == [] then []
    else
      var n := |minutes| - 1;
      var m := minutes[n];
      ClosedBars(byMinute, minutes[..n], current)
      + if m in byMinute && m < current && byMinute[m] != [] then [Bar(m, Prices(byMinute[m]))] else []
  }

  lemma ClosedBarsStep(byMinute: map<int, seq<Tick>>, minutes: seq<int>, i: nat, current: int)
    requires i < |minutes|
    ensures var m := minutes[i];
      ClosedBars(byMinute, minutes[..i + 1], current) == ClosedBars(byMinute, minutes[..i], current)
        + if m in byMinute && m < current && byMinute[m] != [] then [Bar(m, Prices(byMinute[m]))] else []
  {
    assert minutes[..i + 1][..i] == minutes[..i];
  }

  lemma {:induction false} ClosedBarsAre(byMinute: map<int, seq<Tick>>, minutes: seq<int>, current: int)
    requires Ascending(minutes)
    ensures Timeline(ClosedBars(byMinute, minutes, current))
    ensures forall c :: c in ClosedBars(byMinute, minutes, current) <==>
      c.ts in minutes && c.ts in Closed(byMinute, current) && c == Bar(c.ts, Prices(byMinute[c.ts]))
  {
    hide Prices;
    if minutes != [] {
      var n := |minutes| - 1;
      assert minutes == minutes[..n] + [minutes[n]];
      ClosedBarsAre(byMinute, minutes[..n], current);
      var rest := ClosedBars(byMinute, minutes[..n], current);
      forall i | 0 <= i < |rest| ensures rest[i].ts < minutes[n] { assert rest[i] in rest; }
      forall c ensures c in ClosedBars(byMinute, minutes, current) <==>
        c in rest || (c.ts == minutes[n] && c.ts in Closed(byMinute, current) && c == Bar(c.ts, Prices(byMinute[c.ts])))
      {}
    }
  }

  /** The candles of a flush: one bar per closed minute, in ascending order. */
  lemma ClosedBarsStamps(byMinute: map<int, seq<Tick>>, current: int)
    ensures var bars := ClosedBars(byMinute, Sorted(byMinute.Keys), current);
      && Stamps(bars) == Sorted(Closed(byMinute, current))
      && forall i :: 0 <= i < |bars| ==>
           bars[i].ts in byMinute && byMinute[bars[i].ts] != [] && bars[i] == Bar(bars[i].ts, Prices(byMinute[bars[i].ts]))
  {
    var bars := ClosedBars(byMinute, Sorted(byMinute.Keys), current);
    var closed := Closed(byMinute, current);
    ClosedBarsAre(byMinute, Sorted(byMinute.Keys), current);
    assert forall i :: 0 <= i < |bars| ==> bars[i] in bars;
    assert forall c :: c in bars ==> c.ts in closed;
    forall m | m in closed ensures exists c :: c in bars && c.ts == m {
      assert Bar(m, Prices(byMinute[m])) in bars;
    }
    hide ClosedBars, Bar, Prices;
    SortedStamps(bars, closed);
    forall i | 0 <= i < |bars|
      ensures bars[i].ts in byMinute && byMinute[bars[i].ts] != []
      ensures bars[i] == Bar(bars[i].ts, Prices(byMinute[bars[i].ts]))
    {
      assert bars[i] in bars;
    }
  }

  lemma SortedStamps(bars: seq<Candle>, closed: set<int>)
    requires Timeline(bars) && forall c :: c in bars ==> c.ts in closed
    requires forall m :: m in closed ==> exists c :: c in bars && c.ts == m
    ensures Stamps(bars) == Sorted(closed)
  {
    var a, b := Stamps(bars), Sorted(closed);
    forall k ensures k in a <==> k in b {
      if k in a {
        var i :| 0 <= i < |a| && a[i] == k;
        assert bars[i] in bars;
      }
      if k in b {
        var c :| c in bars && c.ts == k;
        var i :| 0 <= i < |bars| && bars[i] == c;
        assert a[i] == k;
      }
    }
    AscendingUnique(a, b);
  }

  lemma AppendNone(f: Feed, ms: seq<int>)
    ensures ms[..0] == [] && AppendAll(f, ms[..0]) == f
  {}

  lemma AppendOneMore(f: Feed, ms: seq<int>, i: nat)
    requires i < |ms| && forall m :: m in ms[..i] ==> m in f.buckets && f.buckets[m] != []
    requires ms[i] in f.buckets && f.buckets[ms[i]] != []
    ensures forall m :: m in ms[..i + 1] ==> m in f.buckets && f.buckets[m] != []
    ensures AppendAll(f, ms[..i + 1]) == Append(AppendAll(f, ms[..i]), ms[i])
  {
    assert ms[..i + 1] == ms[..i] + [ms[i]] && ms[..i + 1][..i] == ms[..i];
  }

  /** A flush, told by its candles: nothing, a part of the appends, or all of them and the removal. */
  lemma FlushOutcome(f: Feed, current: int, crash: Option<nat>)
    ensures var bars := ClosedBars(f.buckets, Sorted(f.buckets.Keys), current);
      var raised := crash.Some? && crash.value < |bars|;
      var ms := Stamps(bars)[..if raised then crash.value else |bars|];
      && (forall m :: m in ms ==> m in f.buckets && f.buckets[m] != [])
      && Flush(f, current, crash) ==
         if bars == [] then f
         else if raised then AppendAll(f, ms)
         else AppendAll(f, ms).(buckets := map m | m in f.buckets && m > bars[|bars| - 1].ts :: f.buckets[m])
  {
    ClosedBarsStamps(f.buckets, current);
    FlushByMinutes(f, current, crash);
    hide *;
    var bars := ClosedBars(f.buckets, Sorted(f.buckets.Keys), current);
    assert Stamps(bars)[..|bars|] == Stamps(bars);
  }

  lemma FlushByMinutes(f: Feed, current: int, crash: Option<nat>)
    ensures var ms := Sorted(Closed(f.buckets, current));
      && (forall m :: m in ms ==> m in f.buckets && f.buckets[m] != [])
      && (crash.Some? && crash.value < |ms| ==>
            && (forall m :: m in ms[..crash.value] ==> m in f.buckets && f.buckets[m] != [])
            && Flush(f, current, crash) == AppendAll(f, ms[..crash.value]))
      && (crash.None? || crash.value >= |ms| ==>
            Flush(f, current, crash) == if ms == [] then f
              else AppendAll(f, ms).(buckets := map m | m in f.buckets && m > ms[|ms| - 1] :: f.buckets[m]))
  {
    var ms := Sorted(Closed(f.buckets, current));
    if crash.Some? && crash.value < |ms| {
      assert forall m :: m in ms[..crash.value] ==> m in ms;
    }
  }
}
