/** One symbol's path from polled tick to stored candle: accepted by timestamp, bucketed per minute,
    flushed when the minute is over, appended to a store that refuses a timestamp it already has. */
module CandleFeed {
  import opened Series
  import opened Ticks
  import opened TickLog

  /** `accepted` is every tick the service took, `logged[i]` whether the tick recorder wrote the `i`th of
      them to its file, whose last timestamp is `lastLogged`; `appended` is the order of successful
      appends; `cut[m]` how many of minute `m`'s accepted ticks had arrived when its candle was stored. */
  datatype Feed = Feed(buckets: map<int, seq<Tick>>, last: Option<int>, store: map<int, Candle>,
                       accepted: seq<Tick>, logged: seq<bool>, lastLogged: int, appended: seq<int>, cut: map<int, nat>)

  datatype Limits = Limits(staleSeconds: int, pollInterval: int)

  function Fresh(store: map<int, Candle>): Feed {
    Feed(map[], None, store, [], [], 0, [], map[])
  }

  // ---- the two events ----

  /** Not stale, not from the future, not older than the last accepted tick. */
  predicate Accepts(f: Feed, ts: int, now: int, limits: Limits) {
    var age := now - ts;
    !(age > limits.staleSeconds || age < -limits.pollInterval || (f.last.Some? && ts < f.last.value))
  }

  function Bucket(buckets: map<int, seq<Tick>>, m: int): seq<Tick> {
    if m in buckets then buckets[m] else []
  }

  /** `writes` says whether the recorder is there and can write its file. */
  function Poll(f: Feed, t: Tick, now: int, writes: bool, open: int -> bool, limits: Limits): Feed {
    if !Accepts(f, t.ts, now, limits) then f
    else
      var m := Minute(t.ts);
      var keeps := Keeps(f.lastLogged, t.ts, writes);
      f.(last := Some(t.ts), accepted := f.accepted + [t], logged := f.logged + [keeps],
         lastLogged := if keeps then t.ts else f.lastLogged,
         buckets := if open(m) then f.buckets[m := Bucket(f.buckets, m) + [t]] else f.buckets)
  }

  /** The minutes a flush at `current` turns into candles. */
  function Closed(buckets: map<int, seq<Tick>>, current: int): set<int> {
    set m | m in buckets && m < current && buckets[m] != []
  }

  /** One `store.append`: refused when the minute is already stored. */
  function Append(f: Feed, m: int): Feed
    requires m in f.buckets && f.buckets[m] != []
  {
    if m in f.store then f
    else f.(store := f.store[m := Bar(m, Prices(f.buckets[m]))],
            appended := f.appended + [m],
            cut := f.cut[m := |InMinute(f.accepted, m)|])
  }

  function AppendAll(f: Feed, ms: seq<int>): (r: Feed)
    requires forall m :: m in ms ==> m in f.buckets && f.buckets[m] != []
    ensures r.buckets == f.buckets && r.last == f.last && r.accepted == f.accepted
    ensures r.logged == f.logged && r.lastLogged == f.lastLogged
  {
    if ms == [] then f
    else
      assert ms[|ms| - 1] in ms;
      assert forall m :: m in ms[..|ms| - 1] ==> m in ms;
      Append(AppendAll(f, ms[..|ms| - 1]), ms[|ms| - 1])
  }

  /** A flush; `crash` says at which append an exception ends it, leaving the buckets in place. */
  function Flush(f: Feed, current: int, crash: Option<nat>): Feed {
    var ms := Sorted(Closed(f.buckets, current));
    if ms == [] then f
    else if crash.Some? && crash.value < |ms| then
      assert forall m :: m in ms[..crash.value] ==> m in ms;
      AppendAll(f, ms[..crash.value])
    else
      AppendAll(f, ms).(buckets := map m | m in f.buckets && m > ms[|ms| - 1] :: f.buckets[m])
  }

  datatype Event = Polled(t: Tick, now: int, writes: bool) | Flushed(current: int, crash: Option<nat>)

  function Act(f: Feed, e: Event, open: int -> bool, limits: Limits): Feed {
    match e
    case Polled(t, now, writes) => Poll(f, t, now, writes, open, limits)
    case Flushed(current, crash) => Flush(f, current, crash)
  }

  function Run(f: Feed, events: seq<Event>, open: int -> bool, limits: Limits): Feed {
    if events == [] then f
    else Act(Run(f, events[..|events| - 1], open, limits), events[|events| - 1], open, limits)
  }

  // ---- the invariant ----

  ghost predicate BucketsInv(f: Feed, open: int -> bool) {
    forall m :: m in f.buckets ==>
      && f.buckets[m] != [] && open(m)
      && f.last.Some? && m <= Minute(f.last.value)
      && (m !in f.store ==> f.buckets[m] == InMinute(f.accepted, m))
  }

  ghost predicate LogInv(f: Feed) {
    && |f.logged| == |f.accepted|
    && (forall i, j :: 0 <= i < j < |f.accepted| ==> f.accepted[i].ts <= f.accepted[j].ts)
    && (f.last.None? ==> f.accepted == [])
    && (f.last.Some? ==> f.accepted != [] && f.accepted[|f.accepted| - 1].ts == f.last.value)
  }

  ghost predicate OrderInv(f: Feed) {
    && Ascending(f.appended)
    && (forall a :: a in f.appended ==> a in f.store && f.last.Some? && a <= Minute(f.last.value))
    && (forall a, m :: a in f.appended && m in f.buckets && m !in f.store ==> a < m)
  }

  /** Every candle stored by this run is the bar of the first `cut` accepted ticks of its minute. */
  ghost predicate ContentInv(f: Feed, open: int -> bool) {
    && Keyed(f.store)
    && forall a :: a in f.appended ==>
      && open(a) && a in f.cut && a in f.store && 0 < f.cut[a] <= |InMinute(f.accepted, a)|
      && f.store[a] == Bar(a, Prices(InMinute(f.accepted, a)[..f.cut[a]]))
  }

  ghost predicate CoverInv(f: Feed, open: int -> bool) {
    forall t :: t in f.accepted && open(Minute(t.ts)) ==> Minute(t.ts) in f.buckets || Minute(t.ts) in f.store
  }

  ghost predicate Inv(f: Feed, open: int -> bool) {
    BucketsInv(f, open) && LogInv(f) && OrderInv(f) && ContentInv(f, open) && CoverInv(f, open)
  }

  // ---- polls keep it ----

  /** An open minute that is neither buffered nor stored has no accepted tick. */
  lemma NothingYet(f: Feed, m: int, open: int -> bool)
    requires CoverInv(f, open) && open(m) && m !in f.buckets && m !in f.store
    ensures InMinute(f.accepted, m) == []
  {
    assert forall t :: t in f.accepted ==> Minute(t.ts) != m;
    MinuteOfTicks(f.accepted, m);
  }

  lemma PollBuckets(f: Feed, t: Tick, now: int, writes: bool, open: int -> bool, limits: Limits)
    requires Inv(f, open) && Accepts(f, t.ts, now, limits)
    ensures BucketsInv(Poll(f, t, now, writes, open, limits), open)
  {
    hide InMinute, Prices, Bar, OrderInv, ContentInv, Minute, LogInv, Keeps, CoverInv, Accepts;
    NotEarlier(f, t, now, limits);
    var g := Poll(f, t, now, writes, open, limits);
    var b := Minute(t.ts);
    if open(b) && b !in f.buckets && b !in f.store { NothingYet(f, b, open); }
    forall m | m in g.buckets
      ensures g.buckets[m] != [] && open(m) && m <= Minute(t.ts)
      ensures m !in g.store ==> g.buckets[m] == InMinute(g.accepted, m)
    {
      InMinuteAppend(f.accepted, t, m);
    }
  }

  lemma NotEarlier(f: Feed, t: Tick, now: int, limits: Limits)
    requires Accepts(f, t.ts, now, limits)
    ensures f.last.Some? ==> Minute(f.last.value) <= Minute(t.ts)
  {
    if f.last.Some? { MinuteMonotone(f.last.value, t.ts); }
  }

  /** A stored minute keeps the ticks it was stored with at the head of its bucket. */
  lemma PollCut(f: Feed, t: Tick, a: int, cut: nat)
    requires cut <= |InMinute(f.accepted, a)|
    ensures cut <= |InMinute(f.accepted + [t], a)|
    ensures InMinute(f.accepted + [t], a)[..cut] == InMinute(f.accepted, a)[..cut]
  {
    hide *;
    InMinuteAppend(f.accepted, t, a);
  }

  lemma PollContent(f: Feed, t: Tick, now: int, writes: bool, open: int -> bool, limits: Limits)
    requires ContentInv(f, open) && Accepts(f, t.ts, now, limits)
    ensures ContentInv(Poll(f, t, now, writes, open, limits), open)
  {
    hide InMinute, Minute, Prices, Bar, Bucket, Accepts;
    var g := Poll(f, t, now, writes, open, limits);
    forall a | a in g.appended
      ensures a in g.cut && 0 < g.cut[a] <= |InMinute(g.accepted, a)|
      ensures InMinute(g.accepted, a)[..g.cut[a]] == InMinute(f.accepted, a)[..f.cut[a]]
    {
      PollCut(f, t, a, f.cut[a]);
    }
  }

  lemma PollOrder(f: Feed, t: Tick, now: int, writes: bool, open: int -> bool, limits: Limits)
    requires Inv(f, open) && Accepts(f, t.ts, now, limits)
    ensures OrderInv(Poll(f, t, now, writes, open, limits)) && LogInv(Poll(f, t, now, writes, open, limits))
  {
    var g := Poll(f, t, now, writes, open, limits);
    if f.last.Some? { MinuteMonotone(f.last.value, t.ts); }
    forall a, m | a in g.appended && m in g.buckets && m !in g.store ensures a < m {
      assert a in f.store;
    }
  }

  lemma PollKeeps(f: Feed, t: Tick, now: int, writes: bool, open: int -> bool, limits: Limits)
    requires Inv(f, open)
    ensures Inv(Poll(f, t, now, writes, open, limits), open)
  {
    if Accepts(f, t.ts, now, limits) {
      PollBuckets(f, t, now, writes, open, limits);
      PollContent(f, t, now, writes, open, limits);
      PollOrder(f, t, now, writes, open, limits);
    }
  }

  // ---- flushes keep it ----

  lemma AppendKeeps(f: Feed, m: int, open: int -> bool)
    requires Inv(f, open) && m in f.buckets
    requires forall b :: b in f.buckets && b < m ==> b in f.store
    ensures Inv(Append(f, m), open)
  {
    hide InMinute, Minute, Prices, Bar;
    var g := Append(f, m);
    if m !in f.store {
      var ticks := InMinute(f.accepted, m);
      assert f.buckets[m] == ticks && ticks[..|ticks|] == ticks;
      AppendOrder(f, m, open);
      assert g.store[m] == Bar(m, Prices(ticks));
      assert ContentInv(g, open);
    }
  }

  lemma AppendOrder(f: Feed, m: int, open: int -> bool)
    requires BucketsInv(f, open) && OrderInv(f) && m in f.buckets && m !in f.store
    requires forall b :: b in f.buckets && b < m ==> b in f.store
    ensures OrderInv(Append(f, m))
  {
    hide InMinute, Minute, Prices, Bar;
    var g := Append(f, m);
    forall a | a in g.appended ensures a == m || a in f.appended {}
    assert forall a :: a in f.appended ==> a < m;
    forall i | 0 <= i < |f.appended| ensures f.appended[i] < m { assert f.appended[i] in f.appended; }
  }

  /** The flushed minutes are buffered, in ascending order, and no older bucket is left out. */
  ghost predicate Batch(f: Feed, ms: seq<int>) {
    && Ascending(ms)
    && (forall m :: m in ms ==> m in f.buckets && f.buckets[m] != [])
    && (forall b, i :: 0 <= i < |ms| && b in f.buckets && b < ms[i] ==> b in ms[..i])
  }

  lemma BatchPrefix(f: Feed, ms: seq<int>, n: nat)
    requires Batch(f, ms) && n <= |ms|
    ensures Batch(f, ms[..n])
  {
    var p := ms[..n];
    assert forall i :: 0 <= i < n ==> p[..i] == ms[..i];
    assert forall m :: m in p ==> m in ms;
  }

  /** When a minute is appended every older bucket is already stored. */
  lemma {:induction false} AppendAllKeeps(f: Feed, ms: seq<int>, open: int -> bool)
    requires Inv(f, open) && Batch(f, ms)
    ensures Inv(AppendAll(f, ms), open)
    ensures forall m :: m in ms ==> m in AppendAll(f, ms).store
    ensures f.store.Keys <= AppendAll(f, ms).store.Keys
  {
    hide Inv, InMinute, Minute, Bar, Prices, Ascending;
    if ms != [] {
      var n := |ms| - 1;
      BatchPrefix(f, ms, n);
      AppendAllKeeps(f, ms[..n], open);
      var g := AppendAll(f, ms[..n]);
      assert ms[n] in ms && ms == ms[..n] + [ms[n]];
      AppendKeeps(g, ms[n], open);
      assert AppendAll(f, ms) == Append(g, ms[n]);
    }
  }

  lemma ClosedBatch(f: Feed, current: int, open: int -> bool)
    requires BucketsInv(f, open)
    ensures Batch(f, Sorted(Closed(f.buckets, current)))
    ensures Closed(f.buckets, current) == set m | m in f.buckets && m < current
  {
    hide InMinute, Minute, Sorted;
    var ms := Sorted(Closed(f.buckets, current));
    forall b, i | 0 <= i < |ms| && b in f.buckets && b < ms[i] ensures b in ms[..i] {
      assert ms[i] in ms;
      assert b in ms;
      AscendingBefore(ms, i, b);
    }
  }

  lemma AscendingBefore(ms: seq<int>, i: nat, b: int)
    requires Ascending(ms) && i < |ms| && b in ms && b < ms[i]
    ensures b in ms[..i]
  {
    var j :| 0 <= j < |ms| && ms[j] == b;
    assert ms[..i][j] == b;
  }

  /** `m > last_flushed` says the same as `m >= current_minute` for every buffered minute. */
  lemma LastClosed(f: Feed, current: int, open: int -> bool)
    requires BucketsInv(f, open)
    ensures var ms := Sorted(Closed(f.buckets, current));
      forall m :: m in f.buckets ==> (m >= current <==> ms == [] || m > ms[|ms| - 1])
  {
    hide Sorted, Closed, Ascending, BucketsInv;
    ClosedBatch(f, current, open);
    var ms := Sorted(Closed(f.buckets, current));
    forall m | m in f.buckets ensures m >= current <==> ms == [] || m > ms[|ms| - 1] {
      assert m < current <==> m in ms;
      if ms != [] {
        assert ms[|ms| - 1] in ms;
        LargestLast(ms, m);
      }
    }
  }

  lemma LargestLast(ms: seq<int>, m: int)
    requires Ascending(ms) && ms != []
    ensures m in ms ==> m <= ms[|ms| - 1]
  {}

  lemma FlushShape(f: Feed, current: int)
    ensures var ms := Sorted(Closed(f.buckets, current));
      var g := Flush(f, current, None);
      && g.store == AppendAll(f, ms).store
      && g.buckets == if ms == [] then f.buckets else map m | m in f.buckets && m > ms[|ms| - 1] :: f.buckets[m]
  {}

  lemma SameCut(b: map<int, seq<Tick>>, last: int, current: int)
    requires forall m :: m in b ==> (m >= current <==> m > last)
    ensures (map m | m in b && m > last :: b[m]) == (map m | m in b && m >= current :: b[m])
  {}

  lemma ClosedAreStored(f: Feed, current: int, open: int -> bool, m: int)
    requires Inv(f, open) && m in f.buckets && m < current
    ensures m in Flush(f, current, None).store
  {
    var ms := Sorted(Closed(f.buckets, current));
    ClosedBatch(f, current, open);
    FlushShape(f, current);
    AppendAllKeeps(f, ms, open);
    hide *;
    assert m in ms;
  }

  /** A flush that is not interrupted removes exactly the buckets of the minutes before the current
      one, and every one of them is stored. */
  lemma FlushRemovesClosedMinutes(f: Feed, current: int, open: int -> bool)
    requires Inv(f, open)
    ensures var g := Flush(f, current, None);
      && g.buckets == (map m | m in f.buckets && m >= current :: f.buckets[m])
      && (forall m :: m in f.buckets && m < current ==> m in g.store)
  {
    hide Flush, Sorted, Closed, AppendAll;
    LastClosed(f, current, open);
    FlushShape(f, current);
    hide Inv, BucketsInv;
    var ms := Sorted(Closed(f.buckets, current));
    if ms == [] {
      AllLater(f.buckets, current);
    } else {
      SameCut(f.buckets, ms[|ms| - 1], current);
    }
    forall m | m in f.buckets && m < current ensures m in Flush(f, current, None).store {
      ClosedAreStored(f, current, open, m);
    }
  }

  lemma AllLater(b: map<int, seq<Tick>>, current: int)
    requires forall m :: m in b ==> m >= current
    ensures b == map m | m in b && m >= current :: b[m]
  {}

  lemma DropKeeps(f: Feed, last: int, open: int -> bool)
    requires Inv(f, open) && forall m :: m in f.buckets && m <= last ==> m in f.store
    ensures Inv(f.(buckets := map m | m in f.buckets && m > last :: f.buckets[m]), open)
  {}

  /** The buckets of the flushed minutes go once all of them are stored. */
  lemma BatchKeeps(f: Feed, ms: seq<int>, open: int -> bool)
    requires Inv(f, open) && Batch(f, ms) && ms != []
    ensures var g := AppendAll(f, ms);
      Inv(g.(buckets := map m | m in f.buckets && m > ms[|ms| - 1] :: f.buckets[m]), open)
  {
    hide Inv, AppendAll, Ascending;
    AppendAllKeeps(f, ms, open);
    var g, last := AppendAll(f, ms), ms[|ms| - 1];
    forall m | m in g.buckets && m <= last ensures m in g.store {
      assert m == last || m in ms[..|ms| - 1];
      assert m in ms;
    }
    DropKeeps(g, last, open);
  }

  lemma FlushKeeps(f: Feed, current: int, crash: Option<nat>, open: int -> bool)
    requires Inv(f, open)
    ensures Inv(Flush(f, current, crash), open)
  {
    ClosedBatch(f, current, open);
    hide Inv, AppendAll, Closed, Sorted, Batch, Ascending;
    var ms := Sorted(Closed(f.buckets, current));
    if ms != [] {
      if crash.Some? && crash.value < |ms| {
        BatchPrefix(f, ms, crash.value);
        AppendAllKeeps(f, ms[..crash.value], open);
      } else {
        BatchKeeps(f, ms, open);
      }
    }
  }

  lemma {:induction false} RunKeeps(f: Feed, events: seq<Event>, open: int -> bool, limits: Limits)
    requires Inv(f, open)
    ensures Inv(Run(f, events, open, limits), open)
  {
    hide Inv;
    if events != [] {
      var g := Run(f, events[..|events| - 1], open, limits);
      RunKeeps(f, events[..|events| - 1], open, limits);
      match events[|events| - 1]
      case Polled(t, now, writes) => PollKeeps(g, t, now, writes, open, limits);
      case Flushed(current, crash) => FlushKeeps(g, current, crash, open);
    }
  }

  // ---- what a run stores ----

  lemma FreshInv(store: map<int, Candle>, open: int -> bool)
    requires Keyed(store)
    ensures Inv(Fresh(store), open)
  {}

  /** `g` has stored what `f` had and the minutes it appended since, and changed nothing. */
  ghost predicate Extends(f: Feed, g: Feed) {
    && (forall m :: m in f.store ==> m in g.store && g.store[m] == f.store[m])
    && (forall m :: m in g.store ==> m in f.store || m in g.appended)
    && (forall m :: m in f.appended ==> m in g.appended)
  }

  lemma {:induction false} AppendAllExtends(f: Feed, ms: seq<int>)
    requires forall m :: m in ms ==> m in f.buckets && f.buckets[m] != []
    ensures Extends(f, AppendAll(f, ms))
  {
    if ms != [] {
      assert forall m :: m in ms[..|ms| - 1] ==> m in ms;
      AppendAllExtends(f, ms[..|ms| - 1]);
      assert ms[|ms| - 1] in ms;
    }
  }

  lemma ActExtends(f: Feed, e: Event, open: int -> bool, limits: Limits)
    ensures Extends(f, Act(f, e, open, limits))
  {
    if e.Flushed? {
      var ms := Sorted(Closed(f.buckets, e.current));
      AppendAllExtends(f, ms);
      if e.crash.Some? && e.crash.value < |ms| {
        assert forall m :: m in ms[..e.crash.value] ==> m in ms;
        AppendAllExtends(f, ms[..e.crash.value]);
      }
    }
  }

  lemma {:induction false} RunExtends(f: Feed, events: seq<Event>, open: int -> bool, limits: Limits)
    ensures Extends(f, Run(f, events, open, limits))
  {
    if events != [] {
      RunExtends(f, events[..|events| - 1], open, limits);
      ActExtends(Run(f, events[..|events| - 1], open, limits), events[|events| - 1], open, limits);
    }
  }

  /** Over any run of polls and flushes, crashes included, from any store: candles are appended in
      strictly increasing time order, what was stored is never replaced, nothing else is stored, and
      each new candle is the bar of the first accepted ticks of its minute, those that had arrived
      when the minute was stored. */
  lemma StoredInOrder(store: map<int, Candle>, events: seq<Event>, open: int -> bool, limits: Limits)
    requires Keyed(store)
    ensures var f := Run(Fresh(store), events, open, limits);
      && Ascending(f.appended)
      && Timeline(Rows(f.store))
      && (forall m :: m in store ==> m in f.store && f.store[m] == store[m])
      && (forall m :: m in f.store <==> m in store || m in f.appended)
      && (forall m :: m in f.appended ==>
            && m in f.cut && 0 < f.cut[m] <= |InMinute(f.accepted, m)|
            && f.store[m] == Bar(m, Prices(InMinute(f.accepted, m)[..f.cut[m]])))
  {
    FreshInv(store, open);
    RunKeeps(Fresh(store), events, open, limits);
    RunExtends(Fresh(store), events, open, limits);
    RowsOf(Run(Fresh(store), events, open, limits).store);
  }

  // ---- the recorder's file ----

  /** The lines of the tick file. */
  function File(f: Feed): seq<Tick>
    requires |f.logged| == |f.accepted|
  {
    Kept(f.accepted, f.logged)
  }

  /** The file is strictly increasing in time, from above zero up to the recorder's last timestamp. */
  ghost predicate FileInv(f: Feed) {
    && |f.logged| == |f.accepted|
    && (forall i, j :: 0 <= i < j < |File(f)| ==> File(f)[i].ts < File(f)[j].ts)
    && (forall i :: 0 <= i < |File(f)| ==> 0 < File(f)[i].ts <= f.lastLogged)
    && 0 <= f.lastLogged
  }

  lemma ActFile(f: Feed, e: Event, open: int -> bool, limits: Limits)
    requires FileInv(f)
    ensures FileInv(Act(f, e, open, limits))
  {
    hide Flush, Poll, FileInv;
    match e
    case Polled(t, now, writes) => PollFile(f, t, now, writes, open, limits);
    case Flushed(current, crash) =>
      FlushFile(f, current, crash);
      SameFile(f, Flush(f, current, crash));
  }

  lemma SameFile(f: Feed, g: Feed)
    requires FileInv(f) && g.accepted == f.accepted && g.logged == f.logged && g.lastLogged == f.lastLogged
    ensures FileInv(g)
  {
    assert File(g) == File(f);
  }

  lemma PollFile(f: Feed, t: Tick, now: int, writes: bool, open: int -> bool, limits: Limits)
    requires FileInv(f)
    ensures FileInv(Poll(f, t, now, writes, open, limits))
  {
    hide Kept, Minute, Accepts;
    var g := Poll(f, t, now, writes, open, limits);
    KeptUnfold(f.accepted, f.logged, t, Keeps(f.lastLogged, t.ts, writes));
    assert File(g) == if Accepts(f, t.ts, now, limits) && Keeps(f.lastLogged, t.ts, writes) then File(f) + [t] else File(f);
  }

  lemma FlushFile(f: Feed, current: int, crash: Option<nat>)
    ensures var g := Flush(f, current, crash);
      g.last == f.last && g.accepted == f.accepted && g.logged == f.logged && g.lastLogged == f.lastLogged
  {
    hide AppendAll, Closed, Sorted;
  }

  lemma {:induction false} RunFile(f: Feed, events: seq<Event>, open: int -> bool, limits: Limits)
    requires FileInv(f)
    ensures FileInv(Run(f, events, open, limits))
  {
    hide FileInv, Act;
    if events != [] {
      RunFile(f, events[..|events| - 1], open, limits);
      ActFile(Run(f, events[..|events| - 1], open, limits), events[|events| - 1], open, limits);
    }
  }

  /** In every run the file is strictly increasing in time, so sorting it by timestamp changes nothing. */
  lemma FileInOrder(store: map<int, Candle>, events: seq<Event>, open: int -> bool, limits: Limits)
    ensures var f := Run(Fresh(store), events, open, limits);
      && |f.logged| == |f.accepted|
      && forall i, j :: 0 <= i < j < |File(f)| ==> File(f)[i].ts < File(f)[j].ts
  {
    RunFile(Fresh(store), events, open, limits);
  }

  /** The recorder is there and never fails to write. */
  predicate WritesSucceed(events: seq<Event>) {
    forall i :: 0 <= i < |events| && events[i].Polled? ==> events[i].writes
  }

  /** An accepted tick that repeats the timestamp of the one before it, or is not after 1970. */
  predicate Repeats(ticks: seq<Tick>, i: nat)
    requires i < |ticks|
  {
    ticks[i].ts <= 0 || (i > 0 && ticks[i - 1].ts == ticks[i].ts)
  }

  ghost predicate DropInv(f: Feed) {
    && LogInv(f)
    && (forall i :: 0 <= i < |f.accepted| ==> (f.logged[i] <==> !Repeats(f.accepted, i)))
    && f.lastLogged == if f.last.Some? && f.last.value > 0 then f.last.value else 0
  }

  lemma ActDrops(f: Feed, e: Event, open: int -> bool, limits: Limits)
    requires DropInv(f) && (e.Polled? ==> e.writes)
    ensures DropInv(Act(f, e, open, limits))
  {
    hide Flush, Minute;
    if e.Flushed? {
      FlushFile(f, e.current, e.crash);
    } else {
      var g := Act(f, e, open, limits);
      forall i | 0 <= i < |g.accepted| ensures g.logged[i] <==> !Repeats(g.accepted, i) {
        assert i < |f.accepted| ==> (f.logged[i] <==> !Repeats(f.accepted, i));
      }
    }
  }

  lemma {:induction false} RunDrops(f: Feed, events: seq<Event>, open: int -> bool, limits: Limits)
    requires DropInv(f) && WritesSucceed(events)
    ensures DropInv(Run(f, events, open, limits))
  {
    hide DropInv, Act;
    if events != [] {
      RunDrops(f, events[..|events| - 1], open, limits);
      ActDrops(Run(f, events[..|events| - 1], open, limits), events[|events| - 1], open, limits);
    }
  }

  /** The recorder and the service disagree on ticks that repeat a timestamp: the service takes them and
      the recorder drops them. While its writes succeed the file misses exactly those. */
  lemma FileMissesRepeats(store: map<int, Candle>, events: seq<Event>, open: int -> bool, limits: Limits)
    requires WritesSucceed(events)
    ensures var f := Run(Fresh(store), events, open, limits);
      && |f.logged| == |f.accepted|
      && forall i :: 0 <= i < |f.accepted| ==> (f.logged[i] <==> !Repeats(f.accepted, i))
  {
    RunDrops(Fresh(store), events, open, limits);
  }
}
