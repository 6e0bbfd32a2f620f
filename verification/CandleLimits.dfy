/** Three short runs on which the service and the offline rebuild part ways, or do not. */
module CandleLimits {
  import opened Series
  import opened Ticks
  import opened TickRebuild
  import opened TickLog
  import opened CandleFeed
  import opened CandleAgreement

  const LIMITS := Limits(180, 2)
  const EARLY := Tick(60, 1.0)
  const LATER := Tick(90, 2.0)
  const AGAIN := Tick(60, 2.0)

  function Always(m: int): bool { true }

  /** A second tick of the minute arrives a second after the minute ended and was flushed. */
  const LATE_STORY := [Polled(EARLY, 60, true), Flushed(120, None), Polled(LATER, 121, true), Flushed(180, None)]
  /** A second tick with the same timestamp arrives in time. */
  const REPEAT_STORY := [Polled(EARLY, 60, true), Polled(AGAIN, 62, true), Flushed(120, None)]
  /** A second tick with the same timestamp arrives late. */
  const LATE_REPEAT_STORY := [Polled(EARLY, 60, true), Flushed(120, None), Polled(AGAIN, 121, true), Flushed(180, None)]

  lemma RunStep(f: Feed, events: seq<Event>, n: nat)
    requires n < |events|
    ensures Run(f, events[..n + 1], Always, LIMITS) == Act(Run(f, events[..n], Always, LIMITS), events[n], Always, LIMITS)
    ensures events[..|events|] == events && Run(f, events[..0], Always, LIMITS) == f
  {
    assert events[..n + 1][..n] == events[..n];
  }

  lemma SortedSingleton(k: int)
    ensures Sorted({k}) == [k]
  {
    AscendingUnique(Sorted({k}), [k]);
  }

  /** A flush of the only buffered minute. */
  lemma FlushOne(f: Feed, current: int, m: int)
    requires f.buckets.Keys == {m} && m < current && f.buckets[m] != []
    ensures Act(f, Flushed(current, None), Always, LIMITS) == Append(f, m).(buckets := map[])
  {
    assert Closed(f.buckets, current) == {m};
    SortedSingleton(m);
    assert AppendAll(f, [m]) == Append(AppendAll(f, [m][..0]), m);
    assert (map k | k in f.buckets && k > m :: f.buckets[k]) == map[];
  }

  /** One minute's state: its bucket, what was heard and logged, and what is stored. */
  predicate At(f: Feed, bucket: seq<Tick>, ticks: seq<Tick>, flags: seq<bool>, stored: seq<real>) {
    && f.buckets == (if bucket == [] then map[] else map[60 := bucket])
    && f.accepted == ticks && f.logged == flags
    && (ticks == [] ==> f.last == None && f.lastLogged == 0)
    && (ticks != [] ==> f.last == Some(ticks[|ticks| - 1].ts) && f.lastLogged == 60)
    && f.store == if stored == [] then map[] else map[60 := Bar(60, stored)]
  }

  lemma FirstPoll()
    ensures At(Act(Fresh(map[]), Polled(EARLY, 60, true), Always, LIMITS), [EARLY], [EARLY], [true], [])
  {
    assert Minute(60) == 60 && [] + [EARLY] == [EARLY] && [] + [true] == [true];
  }

  lemma SecondPoll(f: Feed, bucket: seq<Tick>, t: Tick, now: int, stored: seq<real>)
    requires At(f, bucket, [EARLY], [true], stored) && ((t == LATER && now == 121) || (t == AGAIN && 62 <= now <= 121))
    ensures var g := Act(f, Polled(t, now, true), Always, LIMITS);
      && g.buckets == map[60 := bucket + [t]] && g.accepted == [EARLY, t] && g.logged == [true, t == LATER]
      && g.last == Some(t.ts) && g.lastLogged == t.ts && g.store == f.store
  {
    assert Minute(60) == 60 && Minute(90) == 60;
    assert [EARLY] + [t] == [EARLY, t] && [] + [t] == [t] && [true] + [t == LATER] == [true, t == LATER];
    assert f.buckets[60 := bucket + [t]] == map[60 := bucket + [t]];
  }

  lemma FirstFlush(f: Feed)
    requires At(f, [EARLY], [EARLY], [true], [])
    ensures At(Act(f, Flushed(120, None), Always, LIMITS), [], [EARLY], [true], [1.0])
  {
    FlushOne(f, 120, 60);
    assert Prices([EARLY]) == [1.0];
  }

  /** Every story ends with its second tick heard, the buckets flushed and one candle stored. */
  ghost predicate Ends(f: Feed, t: Tick, stored: seq<real>) {
    && f.buckets == map[] && f.accepted == [EARLY, t] && f.logged == [true, t == LATER]
    && stored != [] && f.store == map[60 := Bar(60, stored)]
  }

  lemma LateEnd(story: seq<Event>, t: Tick)
    requires t == LATER || t == AGAIN
    requires story == [Polled(EARLY, 60, true), Flushed(120, None), Polled(t, 121, true), Flushed(180, None)]
    ensures Ends(Run(Fresh(map[]), story, Always, LIMITS), t, [1.0])
    ensures !OnTime(Fresh(map[]), story, Always, LIMITS)
  {
    hide Run, Act, OnTime, Late;
    var f0 := Fresh(map[]);
    RunStep(f0, story, 0);
    RunStep(f0, story, 1);
    RunStep(f0, story, 2);
    RunStep(f0, story, 3);
    FirstPoll();
    FirstFlush(Run(f0, story[..1], Always, LIMITS));
    var f2 := Run(f0, story[..2], Always, LIMITS);
    SecondPoll(f2, [], t, 121, [1.0]);
    var f3 := Run(f0, story[..3], Always, LIMITS);
    assert [] + [t] == [t];
    FlushOne(f3, 180, 60);
    LateIsNotOnTime(story, t, f2);
  }

  lemma LateIsNotOnTime(story: seq<Event>, t: Tick, f2: Feed)
    requires t == LATER || t == AGAIN
    requires |story| == 4 && story[2] == Polled(t, 121, true)
    requires f2 == Run(Fresh(map[]), story[..2], Always, LIMITS) && At(f2, [], [EARLY], [true], [1.0])
    ensures !OnTime(Fresh(map[]), story, Always, LIMITS)
  {
    hide Run;
    assert Minute(60) == 60 && Minute(90) == 60;
    assert story[..3][..2] == story[..2];
    assert Late(f2, story[2], Always, LIMITS);
    assert !OnTime(Fresh(map[]), story[..3], Always, LIMITS);
  }

  lemma RepeatEnd()
    ensures Ends(Run(Fresh(map[]), REPEAT_STORY, Always, LIMITS), AGAIN, [1.0, 2.0])
    ensures OnTime(Fresh(map[]), REPEAT_STORY, Always, LIMITS)
  {
    hide Run, Act, OnTime, Late;
    var f0 := Fresh(map[]);
    RunStep(f0, REPEAT_STORY, 0);
    RunStep(f0, REPEAT_STORY, 1);
    RunStep(f0, REPEAT_STORY, 2);
    FirstPoll();
    var f1 := Run(f0, REPEAT_STORY[..1], Always, LIMITS);
    SecondPoll(f1, [EARLY], AGAIN, 62, []);
    var f2 := Run(f0, REPEAT_STORY[..2], Always, LIMITS);
    assert [EARLY] + [AGAIN] == [EARLY, AGAIN];
    FlushOne(f2, 120, 60);
    assert Prices([EARLY, AGAIN]) == [1.0, 2.0];
    RepeatIsOnTime(f1);
  }

  lemma RepeatIsOnTime(f1: Feed)
    requires f1 == Run(Fresh(map[]), REPEAT_STORY[..1], Always, LIMITS) && f1.store == map[]
    ensures OnTime(Fresh(map[]), REPEAT_STORY, Always, LIMITS)
  {
    hide Run;
    var f0 := Fresh(map[]);
    RunStep(f0, REPEAT_STORY, 0);
    assert REPEAT_STORY[..1][..0] == [] && REPEAT_STORY[..2][..1] == REPEAT_STORY[..1] && REPEAT_STORY[..3][..2] == REPEAT_STORY[..2];
    assert REPEAT_STORY[..3] == REPEAT_STORY;
    assert OnTime(f0, REPEAT_STORY[..1], Always, LIMITS);
    assert OnTime(f0, REPEAT_STORY[..2], Always, LIMITS);
  }

  // ---- what the tool makes of the file ----

  lemma NoSpikes()
    ensures FilterSpikes([1.0, 2.0], 0.0) == [1.0, 2.0]
  {
    hide FilterSpikes, Median;
    FilterInactive([1.0, 2.0], 0.0);
    assert Threshold([1.0, 2.0], 0.0) == 0.0;
  }

  lemma FileOfTwo()
    ensures Loaded(Kept([EARLY, LATER], [true, true]), 0, 180) == [EARLY, LATER]
    ensures BucketPrices([EARLY, LATER], 60) == [1.0, 2.0]
  {
    hide Kept, Loaded, BucketPrices, Minute;
    assert [EARLY, LATER] == [EARLY] + [LATER] && [true, true] == [true] + [true];
    assert [EARLY] == [] + [EARLY] && [true] == [] + [true];
    KeptUnfold([], [], EARLY, true);
    KeptUnfold([EARLY], [true], LATER, true);
    LoadedUnfold([], EARLY, 0, 180);
    LoadedUnfold([EARLY], LATER, 0, 180);
    BucketAppend([], EARLY, 60);
    BucketAppend([EARLY], LATER, 60);
    NothingToDo();
    assert [] + [1.0] == [1.0] && [1.0] + [2.0] == [1.0, 2.0];
  }

  lemma FileOfOne()
    ensures Loaded(Kept([EARLY, AGAIN], [true, false]), 0, 180) == [EARLY]
    ensures forall m :: BucketPrices([EARLY], m) == if m == 60 then [1.0] else []
  {
    hide Kept, Loaded, BucketPrices, Minute;
    assert [EARLY, AGAIN] == [EARLY] + [AGAIN] && [true, false] == [true] + [false];
    assert [EARLY] == [] + [EARLY] && [true] == [] + [true];
    KeptUnfold([], [], EARLY, true);
    KeptUnfold([EARLY], [true], AGAIN, false);
    LoadedUnfold([], EARLY, 0, 180);
    NothingToDo();
    forall m ensures BucketPrices([EARLY], m) == if m == 60 then [1.0] else [] {
      BucketAppend([], EARLY, m);
      NoBucket(m);
    }
  }

  lemma NothingToDo()
    ensures Kept([], []) == [] && Loaded([], 0, 180) == [] && BucketPrices([], 60) == []
    ensures Minute(60) == 60 && Minute(90) == 60
  {}

  lemma NoBucket(m: int)
    ensures BucketPrices([], m) == []
  {}

  function ToolPrices(t: Tick): (r: seq<real>)
    ensures r != []
  {
    if t == LATER then [1.0, 2.0] else [1.0]
  }

  /** The file holds both ticks when the second is newer, and only the first when it repeats. */
  lemma ToolSide(f: Feed, t: Tick, stored: seq<real>)
    requires (t == LATER || t == AGAIN) && Ends(f, t, stored)
    ensures forall m ::
      CandleOf(Loaded(File(f), 0, 180), m, Always, 0, 180, 0.0) == if m == 60 then [Bar(60, ToolPrices(t))] else []
  {
    FileOfOne();
    FileOfTwo();
    NoSpikes();
    hide FilterSpikes, BucketPrices, Bar, Loaded, Kept;
    if t == LATER {
      forall m ensures CandleOf([EARLY, LATER], m, Always, 0, 180, 0.0) == if m == 60 then [Bar(60, [1.0, 2.0])] else [] {
        OtherMinutes(m);
      }
    } else {
      SingleUnfiltered();
    }
  }

  lemma OtherMinutes(m: int)
    ensures m != 60 ==> BucketPrices([EARLY, LATER], m) == []
  {
    hide Kept, Loaded, BucketPrices, Minute;
    assert [EARLY, LATER] == [EARLY] + [LATER] && [EARLY] == [] + [EARLY];
    BucketAppend([], EARLY, m);
    BucketAppend([EARLY], LATER, m);
    NoBucket(m);
    NothingToDo();
  }

  lemma SingleUnfiltered()
    ensures FilterSpikes([1.0], 0.0) == [1.0]
  {}

  lemma Verdict(f: Feed, t: Tick, stored: seq<real>)
    requires (t == LATER || t == AGAIN) && Ends(f, t, stored)
    ensures Rows(Window(f.store, 0, 180)) == Rebuild(Loaded(File(f), 0, 180), Always, 0, 180, 0.0) <==>
      Bar(60, stored) == Bar(60, ToolPrices(t))
  {
    hide Bar, Rows, Rebuild, Loaded, File, CandleOf;
    ToolSide(f, t, stored);
    StampOfBar(stored);
    SameRowsIff(Window(f.store, 0, 180), Loaded(File(f), 0, 180), Always, 0, 180, 0.0);
    assert SameAt(Window(f.store, 0, 180), CandleOf(Loaded(File(f), 0, 180), 60, Always, 0, 180, 0.0), 60) <==>
      Bar(60, stored) == Bar(60, ToolPrices(t));
  }

  lemma StampOfBar(stored: seq<real>)
    requires stored != []
    ensures Bar(60, stored).ts == 60
  {}

  lemma Closes()
    ensures Bar(60, [1.0]) != Bar(60, [1.0, 2.0])
  {
    assert Bar(60, [1.0]).close == 1.0 && Bar(60, [1.0, 2.0]).close == 2.0;
  }

  /** The late tick reopens the flushed minute, the store refuses the second candle at the next flush, and
      the stored candle closes at 1 where the rebuild of the file closes at 2. */
  lemma LateTickBreaksAgreement()
    ensures !OnTime(Fresh(map[]), LATE_STORY, Always, LIMITS)
    ensures var f := Run(Fresh(map[]), LATE_STORY, Always, LIMITS);
      && f.buckets == map[] && f.accepted == [EARLY, LATER] && f.logged == [true, true]
      && f.store == map[60 := Bar(60, [1.0])]
      && Rows(Window(f.store, 0, 180)) != Rebuild(Loaded(File(f), 0, 180), Always, 0, 180, 0.0)
  {
    hide Run, OnTime, Bar, Rows, Rebuild, Loaded, File, Window;
    LateEnd(LATE_STORY, LATER);
    StoryEnds(LATE_STORY, LATER, [1.0]);
    Closes();
  }

  /** Every tick is in time, but the recorder drops the second, which repeats the first's timestamp: the
      stored candle closes at 2 and the rebuild of the file at 1. */
  lemma RepeatedTimestampBreaksAgreement()
    ensures OnTime(Fresh(map[]), REPEAT_STORY, Always, LIMITS) && WritesSucceed(REPEAT_STORY)
    ensures var f := Run(Fresh(map[]), REPEAT_STORY, Always, LIMITS);
      && f.buckets == map[] && f.accepted == [EARLY, AGAIN] && f.logged == [true, false]
      && f.store == map[60 := Bar(60, [1.0, 2.0])]
      && Rows(Window(f.store, 0, 180)) != Rebuild(Loaded(File(f), 0, 180), Always, 0, 180, 0.0)
  {
    hide Run, OnTime, Bar, Rows, Rebuild, Loaded, File, Window;
    RepeatEnd();
    StoryEnds(REPEAT_STORY, AGAIN, [1.0, 2.0]);
    Closes();
  }

  /** A late tick that repeats the timestamp is in neither the stored candle nor the file: they agree. */
  lemma LateRepeatIsHarmless()
    ensures !OnTime(Fresh(map[]), LATE_REPEAT_STORY, Always, LIMITS)
    ensures var f := Run(Fresh(map[]), LATE_REPEAT_STORY, Always, LIMITS);
      && f.buckets == map[] && f.accepted == [EARLY, AGAIN] && f.logged == [true, false]
      && f.store == map[60 := Bar(60, [1.0])]
      && Rows(Window(f.store, 0, 180)) == Rebuild(Loaded(File(f), 0, 180), Always, 0, 180, 0.0)
  {
    hide Run, OnTime, Bar, Rows, Rebuild, Loaded, File, Window;
    LateEnd(LATE_REPEAT_STORY, AGAIN);
    StoryEnds(LATE_REPEAT_STORY, AGAIN, [1.0]);
  }

  lemma StoryEnds(story: seq<Event>, t: Tick, stored: seq<real>)
    requires (t == LATER || t == AGAIN) && Ends(Run(Fresh(map[]), story, Always, LIMITS), t, stored)
    ensures var f := Run(Fresh(map[]), story, Always, LIMITS);
      && f.buckets == map[] && f.accepted == [EARLY, t] && f.logged == [true, t == LATER]
      && stored != [] && f.store == map[60 := Bar(60, stored)]
      && (Rows(Window(f.store, 0, 180)) == Rebuild(Loaded(File(f), 0, 180), Always, 0, 180, 0.0) <==>
          Bar(60, stored) == Bar(60, ToolPrices(t)))
  {
    var f := Run(Fresh(map[]), story, Always, LIMITS);
    Verdict(f, t, stored);
  }
}
