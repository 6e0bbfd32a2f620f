/** When the candles the service stored live are the candles the offline tool rebuilds from the tick file.
    The service buckets every tick it accepts and asks its own calendar; the tool sees only what the
    recorder wrote, filters spikes and asks another calendar. */
module CandleAgreement {
  import opened Series
  import opened Ticks
  import opened TickRebuild
  import opened TickLog
  import opened CandleFeed

  /** The stored candles of a range. */
  function Window(store: map<int, Candle>, from: int, to: int): (r: map<int, Candle>)
    ensures forall m :: m in r <==> m in store && from <= m < to
    ensures forall m :: m in r ==> r[m] == store[m]
  {
    map m | m in store && from <= m < to :: store[m]
  }

  /** `candle` is what the tool builds for minute `m`. */
  predicate SameAt(store: map<int, Candle>, candle: seq<Candle>, m: int) {
    candle == if m in store then [store[m]] else []
  }

  lemma SameRowsIff(store: map<int, Candle>, ticks: seq<Tick>, tool: int -> bool, from: int, to: int, pct: real)
    requires Keyed(store)
    ensures Rows(store) == Rebuild(ticks, tool, from, to, pct) <==>
      forall m :: SameAt(store, CandleOf(ticks, m, tool, from, to, pct), m)
  {
    RowsOf(store);
    RebuildIs(ticks, tool, from, to, pct);
    hide Rebuild, Rows, CandleOf, MinutesOf;
    var r := Rebuild(ticks, tool, from, to, pct);
    if Rows(store) == r {
      forall m ensures SameAt(store, CandleOf(ticks, m, tool, from, to, pct), m) {
        SameRowsAt(store, ticks, tool, from, to, pct, m);
      }
    }
    if forall m :: SameAt(store, CandleOf(ticks, m, tool, from, to, pct), m) {
      forall c ensures c in Rows(store) <==> c in r {
        assert SameAt(store, CandleOf(ticks, c.ts, tool, from, to, pct), c.ts);
        OneCandle(ticks, c.ts, tool, from, to, pct);
        CandleNeedsTicks(ticks, c.ts, tool, from, to, pct);
      }
      TimelinesEqual(Rows(store), r);
    }
  }

  lemma CandleNeedsTicks(ticks: seq<Tick>, m: int, open: int -> bool, from: int, to: int, pct: real)
    ensures CandleOf(ticks, m, open, from, to, pct) != [] ==> m in MinutesOf(ticks)
  {
    BucketEmpty(ticks, m);
  }

  lemma SameRowsAt(store: map<int, Candle>, ticks: seq<Tick>, tool: int -> bool, from: int, to: int, pct: real, m: int)
    requires Keyed(store) && Rows(store) == Rebuild(ticks, tool, from, to, pct)
    ensures SameAt(store, CandleOf(ticks, m, tool, from, to, pct), m)
  {
    RowsOf(store);
    RebuildIs(ticks, tool, from, to, pct);
    OneCandle(ticks, m, tool, from, to, pct);
    CandleNeedsTicks(ticks, m, tool, from, to, pct);
    hide Rebuild, Rows, CandleOf, MinutesOf;
    var candle := CandleOf(ticks, m, tool, from, to, pct);
    if m in store {
      assert store[m] in Rows(store);
    }
    if candle != [] {
      assert candle == [candle[0]] && candle[0].ts == m;
      assert candle[0] in Rows(store);
    }
  }

  // ---- one minute ----

  /** Both sides give minute `m` the same candle, or none: both calendars say open and the used ticks
      make the stored candle, or the service says closed and the tool builds nothing. */
  predicate AgreesAt(f: Feed, m: int, live: int -> bool, tool: int -> bool, from: int, to: int, pct: real)
    requires |f.logged| == |f.accepted|
  {
    var es := Story(f.accepted, f.logged, m, from, to, pct);
    if live(m) then tool(m) && m in f.cut && 0 < f.cut[m] <= |es| && SameCandle(es, f.cut[m])
    else !tool(m) || UsedPrices(es) == []
  }

  ghost predicate Drained(f: Feed, live: int -> bool) {
    && Inv(f, live)
    && f.buckets == map[]
    && forall a :: a in f.store <==> a in f.appended
  }

  /** A drained run from an empty store has stored the open minutes with an accepted tick. */
  lemma DrainedMinutes(f: Feed, live: int -> bool, m: int)
    requires Drained(f, live)
    ensures m in f.store <==> m in MinutesOf(f.accepted) && live(m)
  {
    MinuteOfTicks(f.accepted, m);
    if m in MinutesOf(f.accepted) && live(m) {
      var t :| t in f.accepted && Minute(t.ts) == m;
      assert m in f.store;
    }
  }

  /** What the tool builds for a minute, told by the minute's story. */
  lemma ToolCandle(f: Feed, m: int, tool: int -> bool, from: int, to: int, pct: real)
    requires |f.logged| == |f.accepted| && from <= m < to
    ensures var used := UsedPrices(Story(f.accepted, f.logged, m, from, to, pct));
      CandleOf(Loaded(File(f), from, to), m, tool, from, to, pct) == if used != [] && tool(m) then [Bar(m, used)] else []
  {
    StoryIs(f.accepted, f.logged, m, from, to, pct);
    hide Story, UsedPrices, Loaded, Kept, BucketPrices, Bar;
  }

  lemma NoStory(f: Feed, m: int, from: int, to: int, pct: real)
    requires |f.logged| == |f.accepted| && m !in MinutesOf(f.accepted)
    ensures UsedPrices(Story(f.accepted, f.logged, m, from, to, pct)) == []
  {
    StoryIs(f.accepted, f.logged, m, from, to, pct);
    MinuteOfTicks(f.accepted, m);
    hide Story, Loaded, Kept, BucketPrices, MinutesOf, InMinute, FilterSpikes;
    assert |AllPrices(Story(f.accepted, f.logged, m, from, to, pct))| == 0;
  }

  /** The candle the service stored, told by the minute's story. */
  lemma LiveCandle(f: Feed, live: int -> bool, m: int, from: int, to: int, pct: real)
    requires Drained(f, live) && m in f.store
    ensures var es := Story(f.accepted, f.logged, m, from, to, pct);
      && m in f.cut && 0 < f.cut[m] <= |es|
      && f.store[m] == Bar(m, AllPrices(es[..f.cut[m]]))
  {
    hide Story, Loaded, Kept, BucketPrices, MinutesOf, InMinute, FilterSpikes, Bar, UsedPrices, Inv;
    DrainedLog(f, live);
    StoredCandle(f, live, m);
    StoryIs(f.accepted, f.logged, m, from, to, pct);
    var es := Story(f.accepted, f.logged, m, from, to, pct);
    assert AllPrices(es[..f.cut[m]]) == Prices(InMinute(f.accepted, m)[..f.cut[m]]);
  }

  lemma StoredCandle(f: Feed, live: int -> bool, m: int)
    requires Drained(f, live) && m in f.store
    ensures m in f.cut && 0 < f.cut[m] <= |InMinute(f.accepted, m)|
    ensures f.store[m] == Bar(m, Prices(InMinute(f.accepted, m)[..f.cut[m]]))
  {
    hide InMinute, Bar, Prices;
    assert m in f.appended;
  }

  lemma MinuteAgrees(f: Feed, m: int, live: int -> bool, tool: int -> bool, from: int, to: int, pct: real)
    requires Drained(f, live)
    ensures |f.logged| == |f.accepted|
    ensures SameAt(Window(f.store, from, to), CandleOf(Loaded(File(f), from, to), m, tool, from, to, pct), m) <==>
      (m in MinutesOf(f.accepted) && from <= m < to ==> AgreesAt(f, m, live, tool, from, to, pct))
  {
    hide Inv, Story, Loaded, MinutesOf, Bar, UsedPrices, SameCandle, File, Window;
    DrainedMinutes(f, live, m);
    DrainedLog(f, live);
    if from <= m < to {
      ToolCandle(f, m, tool, from, to, pct);
      if m !in MinutesOf(f.accepted) {
        NoStory(f, m, from, to, pct);
      } else if live(m) {
        LiveCandle(f, live, m, from, to, pct);
        SameBarIff(Story(f.accepted, f.logged, m, from, to, pct), f.cut[m], m);
      }
    }
  }

  lemma DrainedLog(f: Feed, live: int -> bool)
    requires Drained(f, live)
    ensures |f.logged| == |f.accepted| && Keyed(f.store)
  {}

  // ---- the whole run ----

  /** Over any run from an empty store whose buckets were all flushed, the candles stored in a range are
      the ones the tool rebuilds from the file exactly when, minute by minute, the calendars agree on what
      the file has, some tick of the minute is used, the first and the last used price are the first
      and the last the service had at the flush, no unused tick it had leaves the range of the used ones,
      and no used tick that came too late leaves the range of the candle. */
  lemma AgreesIff(events: seq<Event>, live: int -> bool, tool: int -> bool, limits: Limits, from: int, to: int, pct: real)
    requires Run(Fresh(map[]), events, live, limits).buckets == map[]
    ensures var f := Run(Fresh(map[]), events, live, limits);
      && |f.logged| == |f.accepted|
      && (Rows(Window(f.store, from, to)) == Rebuild(Loaded(File(f), from, to), tool, from, to, pct) <==>
          forall m :: m in MinutesOf(f.accepted) && from <= m < to ==> AgreesAt(f, m, live, tool, from, to, pct))
  {
    hide Run, Inv, Rows, Rebuild, AgreesAt, Loaded, File, CandleOf, MinutesOf, SameAt;
    RunIsDrained(events, live, limits);
    var f := Run(Fresh(map[]), events, live, limits);
    DrainedLog(f, live);
    SameRowsIff(Window(f.store, from, to), Loaded(File(f), from, to), tool, from, to, pct);
    forall m
      ensures SameAt(Window(f.store, from, to), CandleOf(Loaded(File(f), from, to), m, tool, from, to, pct), m) <==>
        (m in MinutesOf(f.accepted) && from <= m < to ==> AgreesAt(f, m, live, tool, from, to, pct))
    {
      MinuteAgrees(f, m, live, tool, from, to, pct);
    }
  }

  lemma RunIsDrained(events: seq<Event>, live: int -> bool, limits: Limits)
    requires Run(Fresh(map[]), events, live, limits).buckets == map[]
    ensures Drained(Run(Fresh(map[]), events, live, limits), live)
  {
    hide Run, Inv;
    FreshInv(map[], live);
    RunKeeps(Fresh(map[]), events, live, limits);
    StoredInOrder(map[], events, live, limits);
  }

  // ---- every tick in time and in the file ----

  /** The event is an accepted tick of an open minute whose candle is already stored. */
  ghost predicate Late(f: Feed, e: Event, live: int -> bool, limits: Limits) {
    e.Polled? && Accepts(f, e.t.ts, e.now, limits) && live(Minute(e.t.ts)) && Minute(e.t.ts) in f.store
  }

  /** Every minute's ticks arrive before its first flush. */
  ghost predicate OnTime(f: Feed, events: seq<Event>, live: int -> bool, limits: Limits) {
    events == [] ||
    (OnTime(f, events[..|events| - 1], live, limits)
     && !Late(Run(f, events[..|events| - 1], live, limits), events[|events| - 1], live, limits))
  }

  /** Every candle was stored with all the ticks its minute has so far. */
  ghost predicate Whole(f: Feed) {
    forall a :: a in f.appended ==> a in f.cut && f.cut[a] == |InMinute(f.accepted, a)|
  }

  lemma {:induction false} AppendAllWhole(f: Feed, ms: seq<int>)
    requires Whole(f) && forall m :: m in ms ==> m in f.buckets && f.buckets[m] != []
    ensures Whole(AppendAll(f, ms))
  {
    if ms != [] {
      assert forall m :: m in ms[..|ms| - 1] ==> m in ms;
      AppendAllWhole(f, ms[..|ms| - 1]);
      assert ms[|ms| - 1] in ms;
      var g := AppendAll(f, ms[..|ms| - 1]);
      forall a | a in Append(g, ms[|ms| - 1]).appended ensures a in g.appended || a == ms[|ms| - 1] {}
    }
  }

  lemma ActWhole(f: Feed, e: Event, live: int -> bool, limits: Limits)
    requires Inv(f, live) && Whole(f) && !Late(f, e, live, limits)
    ensures Whole(Act(f, e, live, limits))
  {
    match e
    case Polled(t, now, writes) =>
      if Accepts(f, t.ts, now, limits) {
        forall a | a in f.appended ensures InMinute(f.accepted + [t], a) == InMinute(f.accepted, a) {
          InMinuteAppend(f.accepted, t, a);
        }
      }
    case Flushed(current, crash) =>
      var ms := Sorted(Closed(f.buckets, current));
      AppendAllWhole(f, ms);
      if crash.Some? && crash.value < |ms| {
        assert forall m :: m in ms[..crash.value] ==> m in ms;
        AppendAllWhole(f, ms[..crash.value]);
      }
  }

  lemma {:induction false} OnTimeIsWhole(f: Feed, events: seq<Event>, live: int -> bool, limits: Limits)
    requires Inv(f, live) && Whole(f) && OnTime(f, events, live, limits)
    ensures Whole(Run(f, events, live, limits))
  {
    hide Inv, Whole, Late;
    if events != [] {
      OnTimeIsWhole(f, events[..|events| - 1], live, limits);
      RunKeeps(f, events[..|events| - 1], live, limits);
      ActWhole(Run(f, events[..|events| - 1], live, limits), events[|events| - 1], live, limits);
    }
  }

  lemma {:induction false} KeptAll(ticks: seq<Tick>, flags: seq<bool>)
    requires |flags| == |ticks| && forall i :: 0 <= i < |flags| ==> flags[i]
    ensures Kept(ticks, flags) == ticks
  {
    if ticks != [] {
      KeptAll(ticks[..|ticks| - 1], flags[..|ticks| - 1]);
    }
  }

  /** A range that ends on a minute loads the ticks of its minutes whole. */
  lemma {:induction false} LoadedMinute(ticks: seq<Tick>, m: int, from: int, to: int)
    requires from <= m < to && to % 60 == 0
    ensures InMinute(Loaded(ticks, from, to), m) == InMinute(ticks, m)
  {
    if ticks != [] {
      var n := |ticks| - 1;
      var rest := Loaded(ticks[..n], from, to);
      LoadedMinute(ticks[..n], m, from, to);
      InMinuteAppend(rest, ticks[n], m);
      assert rest + [] == rest;
      assert InMinute(ticks[..n], m) + [] == InMinute(ticks[..n], m);
      if Minute(ticks[n].ts) == m {
        WholeMinute(ticks[n].ts, from, to);
      }
    }
  }

  lemma WholeMinute(ts: int, from: int, to: int)
    requires from <= Minute(ts) < to && to % 60 == 0
    ensures from <= ts < to
  {}

  lemma AllIsUsed(f: Feed, m: int, from: int, to: int, pct: real)
    requires |f.logged| == |f.accepted| && forall i :: 0 <= i < |f.logged| ==> f.logged[i]
    requires from <= m < to && to % 60 == 0
    requires FilterSpikes(Prices(InMinute(f.accepted, m)), pct) == Prices(InMinute(f.accepted, m))
    ensures var es := Story(f.accepted, f.logged, m, from, to, pct);
      UsedPrices(es) == AllPrices(es) == Prices(InMinute(f.accepted, m))
  {
    hide *;
    StoryIs(f.accepted, f.logged, m, from, to, pct);
    KeptAll(f.accepted, f.logged);
    LoadedMinute(f.accepted, m, from, to);
    BucketIs(Loaded(f.accepted, from, to), m);
  }

  lemma BucketIs(ticks: seq<Tick>, m: int)
    ensures BucketPrices(ticks, m) == Prices(InMinute(ticks, m))
  {}

  lemma OnTimeAgreesAt(f: Feed, m: int, live: int -> bool, tool: int -> bool, from: int, to: int, pct: real)
    requires Drained(f, live) && Whole(f) && m in MinutesOf(f.accepted) && from <= m < to && to % 60 == 0
    requires |f.logged| == |f.accepted| && forall i :: 0 <= i < |f.logged| ==> f.logged[i]
    requires live(m) <==> tool(m)
    requires FilterSpikes(Prices(InMinute(f.accepted, m)), pct) == Prices(InMinute(f.accepted, m))
    ensures AgreesAt(f, m, live, tool, from, to, pct)
  {
    hide Inv, Story, MinutesOf, Bar, UsedPrices, AllPrices, SameCandle, InMinute, Prices;
    if live(m) {
      AllIsUsed(f, m, from, to, pct);
      DrainedMinutes(f, live, m);
      LiveCandle(f, live, m, from, to, pct);
      var es := Story(f.accepted, f.logged, m, from, to, pct);
      assert m in f.appended && f.cut[m] == |es|;
      assert es[..|es|] == es;
      SameBarIff(es, |es|, m);
    }
  }

  /** When each minute's ticks arrive before its first flush, no timestamp repeats, the recorder's writes
      succeed, the range ends on a minute and, within it, the calendars agree and the filter changes
      nothing, the candles stored live are the one-pass rebuild of the file. */
  lemma LiveEqualsBatch(events: seq<Event>, live: int -> bool, tool: int -> bool, limits: Limits, from: int, to: int, pct: real)
    requires OnTime(Fresh(map[]), events, live, limits) && WritesSucceed(events) && to % 60 == 0
    requires var f := Run(Fresh(map[]), events, live, limits);
      && f.buckets == map[]
      && (forall i :: 0 <= i < |f.accepted| ==> !Repeats(f.accepted, i))
      && forall m :: m in MinutesOf(f.accepted) && from <= m < to ==>
           && (live(m) <==> tool(m))
           && FilterSpikes(Prices(InMinute(f.accepted, m)), pct) == Prices(InMinute(f.accepted, m))
    ensures var f := Run(Fresh(map[]), events, live, limits);
      && |f.logged| == |f.accepted|
      && Rows(Window(f.store, from, to)) == Rebuild(Loaded(File(f), from, to), tool, from, to, pct)
  {
    hide *;
    FreshWhole();
    FreshInv(map[], live);
    OnTimeIsWhole(Fresh(map[]), events, live, limits);
    RunIsDrained(events, live, limits);
    FileMissesRepeats(map[], events, live, limits);
    AgreesIff(events, live, tool, limits, from, to, pct);
    var f := Run(Fresh(map[]), events, live, limits);
    forall m | m in MinutesOf(f.accepted) && from <= m < to ensures AgreesAt(f, m, live, tool, from, to, pct) {
      OnTimeAgreesAt(f, m, live, tool, from, to, pct);
    }
  }

  lemma FreshWhole()
    ensures Whole(Fresh(map[])) && Keyed(map[])
  {}
}
