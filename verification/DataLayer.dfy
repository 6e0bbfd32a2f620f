/** The production data layer: prefetch, writer and gates over one candle store, with symbols that are
    degraded and, in one case, recover. */
module DataLayer {
  import opened Series
  import opened GapValidator

  /** The reason string, by its prefix. */
  datatype Reason =
    | PrefetchErrors(duplicates: nat, stepErrors: nat)
    | WriterErrors(duplicates: nat, stepErrors: nat)
    | Stale(seconds: int)
    | MissingMinutes(count: int)

  datatype Config = Config(symbols: seq<string>, warmupMinutes: int, maxMissing: int, staleSeconds: int)

  datatype Layer = Layer(rows: map<string, map<int, Candle>>, degraded: set<string>, reason: map<string, Reason>)

  /** What the provider answers, and how many candles reach the disk before a write error stops it. */
  datatype Answer = Unavailable | Fetched(candles: seq<Candle>, reach: nat)

  /** The calendar and the store as one gate update sees them: `readable` is false when reading fails. */
  datatype Reading = Reading(now: int, startedAt: int, marketOpen: bool, reasonOpen: bool, closedMinutes: int, readable: bool,
                             since: int, until: int)

  datatype Step =
    | Prefetch(symbol: string, answer: Answer)
    | Write(symbol: string, target: int, since: int, until: int, answer: Answer)
    | Gate(symbol: string, reading: Reading)

  // ---- the store ----

  function Stored(l: Layer, symbol: string): map<int, Candle> {
    if symbol in l.rows then l.rows[symbol] else map[]
  }

  function MaxInt(a: int, b: int): int { if a >= b then a else b }
  function MinInt(a: int, b: int): int { if a <= b then a else b }

  function Last(s: seq<int>): Option<int> {
    if s == [] then None else Some(s[|s| - 1])
  }

  /** The newest candle of the months the store looks at. */
  function LastStored(rows: map<int, Candle>, since: int, until: int): Option<int> {
    Last(Sorted(set k | k in rows && since <= k < until))
  }

  function Reached(a: Answer): (r: seq<Candle>)
    requires a.Fetched?
    ensures forall c :: c in r ==> c in a.candles
  {
    if a.reach < |a.candles| then a.candles[..a.reach] else a.candles
  }

  // ---- what each step does ----

  predicate Clean(cs: seq<Candle>) {
    Duplicates(cs) == 0 && StepErrors(cs) == 0
  }

  function Mark(l: Layer, symbol: string, why: Reason): Layer {
    l.(degraded := l.degraded + {symbol}, reason := l.reason[symbol := why])
  }

  function Prefetched(l: Layer, symbol: string, answer: Answer): Layer {
    if symbol in l.degraded || answer.Unavailable? || answer.candles == [] then l
    else if !Clean(answer.candles) then Mark(l, symbol, PrefetchErrors(Duplicates(answer.candles), StepErrors(answer.candles)))
    else l.(rows := l.rows[symbol := Patched(Stored(l, symbol), Reached(answer))])
  }

  function Written(l: Layer, symbol: string, target: int, since: int, until: int, answer: Answer): Layer {
    var last := LastStored(Stored(l, symbol), since, until);
    if symbol in l.degraded || (last.Some? && last.value >= target) || answer.Unavailable? || answer.candles == [] then l
    else if !Clean(answer.candles) then Mark(l, symbol, WriterErrors(Duplicates(answer.candles), StepErrors(answer.candles)))
    else l.(rows := l.rows[symbol := Appended(Stored(l, symbol), Reached(answer))])
  }

  /** The stored timestamps of the last 24 hours. */
  function Recent(rows: map<int, Candle>, now: int): (r: set<int>)
    ensures forall t :: t in r <==> t in rows && now - 86400 <= t < now
  {
    set t | t in rows && now - 86400 <= t < now
  }

  /** The stored candles of the last 24 hours, in order. */
  function Day(rows: map<int, Candle>, now: int): (r: seq<Candle>)
    ensures |r| == |Recent(rows, now)|
  {
    var ks := Sorted(Recent(rows, now));
    assert forall i :: 0 <= i < |ks| ==> ks[i] in ks;
    Pick(rows, ks)
  }

  function StaleFor(last: int, r: Reading): int {
    if r.marketOpen && r.reasonOpen then MaxInt(0, if last > 0 then r.now - last - 60 else 0) else 0
  }

  function MissingOpen(rows: map<int, Candle>, r: Reading): int {
    if r.readable then MaxInt(0, Missing(Day(rows, r.now), r.now - 86400, r.now) - r.closedMinutes) else 0
  }

  predicate InWarmup(cfg: Config, missing: int, r: Reading) {
    var uptime := if r.startedAt != 0 then MaxInt(0, r.now - r.startedAt) else 0;
    var expected := MaxInt(0, MinInt(1440, uptime / 60) - if r.readable then r.closedMinutes else 0);
    MaxInt(0, expected - missing) < cfg.warmupMinutes
  }

  function Gated(cfg: Config, l: Layer, symbol: string, r: Reading): Layer {
    var last := LastStored(Stored(l, symbol), r.since, r.until);
    if last.None? then l
    else
      var stale := StaleFor(last.value, r);
      var missing := MissingOpen(Stored(l, symbol), r);
      if symbol !in l.degraded then
        if stale > cfg.staleSeconds then Mark(l, symbol, Stale(stale))
        else if r.marketOpen && r.reasonOpen && missing > cfg.maxMissing && !InWarmup(cfg, missing, r) then Mark(l, symbol, MissingMinutes(missing))
        else l
      else if symbol in l.reason && l.reason[symbol].MissingMinutes? && missing <= cfg.maxMissing && stale <= cfg.staleSeconds then
        l.(degraded := l.degraded - {symbol}, reason := l.reason - {symbol})
      else l
  }

  function Take(cfg: Config, l: Layer, s: Step): Layer {
    match s
    case Prefetch(symbol, answer) => Prefetched(l, symbol, answer)
    case Write(symbol, target, since, until, answer) => Written(l, symbol, target, since, until, answer)
    case Gate(symbol, reading) => Gated(cfg, l, symbol, reading)
  }

  function TakeAll(cfg: Config, l: Layer, steps: seq<Step>): Layer {
    if steps == [] then l else Take(cfg, TakeAll(cfg, l, steps[..|steps| - 1]), steps[|steps| - 1])
  }

  lemma TakeNext(cfg: Config, l: Layer, steps: seq<Step>, i: nat)
    requires i < |steps|
    ensures TakeAll(cfg, l, steps[..i + 1]) == Take(cfg, TakeAll(cfg, l, steps[..i]), steps[i])
  {
    assert steps[..i + 1][..i] == steps[..i];
  }

  lemma TakeConcat(cfg: Config, l: Layer, a: seq<Step>, b: seq<Step>)
    ensures TakeAll(cfg, l, a + b) == TakeAll(cfg, TakeAll(cfg, l, a), b)
  {
    if b == [] {
      assert a + b == a;
    } else {
      var n := |b| - 1;
      TakeConcat(cfg, l, a, b[..n]);
      assert (a + b)[..|a + b| - 1] == a + b[..n];
      hide Take;
    }
  }

  // ---- every run ----

  predicate KeysAgree(l: Layer) {
    l.degraded == l.reason.Keys
  }

  lemma StepKeepsKeys(cfg: Config, l: Layer, s: Step)
    requires KeysAgree(l)
    ensures KeysAgree(Take(cfg, l, s))
  {
    hide Duplicates, StepErrors, LastStored, MissingOpen, StaleFor, InWarmup, Patched, Appended;
  }

  /** In every run the degraded set and the reasons have the same keys. */
  lemma {:induction false} RunKeepsKeys(cfg: Config, l: Layer, steps: seq<Step>)
    requires KeysAgree(l)
    ensures KeysAgree(TakeAll(cfg, l, steps))
  {
    if steps != [] {
      var n := |steps| - 1;
      RunKeepsKeys(cfg, l, steps[..n]);
      hide KeysAgree, Take;
      StepKeepsKeys(cfg, TakeAll(cfg, l, steps[..n]), steps[n]);
    }
  }

  predicate Condemned(l: Layer, symbol: string) {
    symbol in l.degraded && symbol in l.reason && !l.reason[symbol].MissingMinutes?
  }

  lemma CondemnedStep(cfg: Config, l: Layer, s: Step, symbol: string)
    requires Condemned(l, symbol)
    ensures Condemned(Take(cfg, l, s), symbol)
    ensures Take(cfg, l, s).reason[symbol] == l.reason[symbol]
    ensures Stored(Take(cfg, l, s), symbol) == Stored(l, symbol)
  {
    hide Duplicates, StepErrors, LastStored, MissingOpen, StaleFor, InWarmup, Patched, Appended, Clean;
  }

  /** A symbol degraded for duplicates, step errors or staleness never recovers, keeps its first reason and
      is never written again. */
  lemma {:induction false} CondemnedForGood(cfg: Config, l: Layer, steps: seq<Step>, symbol: string)
    requires Condemned(l, symbol)
    ensures var end := TakeAll(cfg, l, steps);
      Condemned(end, symbol) && end.reason[symbol] == l.reason[symbol] && Stored(end, symbol) == Stored(l, symbol)
  {
    if steps != [] {
      var n := |steps| - 1;
      CondemnedForGood(cfg, l, steps[..n], symbol);
      hide Take, Stored;
      CondemnedStep(cfg, TakeAll(cfg, l, steps[..n]), steps[n], symbol);
    }
  }

  /** While it is degraded for any reason, a symbol is not written. */
  lemma DegradedIsNotWritten(cfg: Config, l: Layer, s: Step, symbol: string)
    requires symbol in l.degraded
    ensures Stored(Take(cfg, l, s), symbol) == Stored(l, symbol)
  {
    hide Duplicates, StepErrors, LastStored, MissingOpen, StaleFor, InWarmup, Patched, Appended, Clean;
  }

  /** A gate of the symbol that finds a newest candle and sees both figures within their limits. */
  predicate Clears(cfg: Config, rows: map<int, Candle>, s: Step, symbol: string) {
    && s.Gate? && s.symbol == symbol
    && LastStored(rows, s.reading.since, s.reading.until).Some?
    && MissingOpen(rows, s.reading) <= cfg.maxMissing
    && StaleFor(LastStored(rows, s.reading.since, s.reading.until).value, s.reading) <= cfg.staleSeconds
  }

  lemma ClearsIff(cfg: Config, l: Layer, s: Step, symbol: string)
    requires KeysAgree(l) && symbol in l.degraded
    ensures symbol !in Take(cfg, l, s).degraded <==> l.reason[symbol].MissingMinutes? && Clears(cfg, Stored(l, symbol), s, symbol)
    ensures symbol in Take(cfg, l, s).degraded ==> symbol in Take(cfg, l, s).reason && Take(cfg, l, s).reason[symbol] == l.reason[symbol]
  {
    hide Duplicates, StepErrors, LastStored, MissingOpen, StaleFor, InWarmup, Patched, Appended, Clean;
  }

  /** Until a gate clears it a degraded symbol keeps its reason and its stored candles. */
  lemma {:induction false} DegradedStays(cfg: Config, l: Layer, steps: seq<Step>, symbol: string)
    requires KeysAgree(l) && symbol in l.degraded
    requires !l.reason[symbol].MissingMinutes? || forall i :: 0 <= i < |steps| ==> !Clears(cfg, Stored(l, symbol), steps[i], symbol)
    ensures var end := TakeAll(cfg, l, steps);
      && KeysAgree(end) && symbol in end.degraded
      && end.reason[symbol] == l.reason[symbol] && Stored(end, symbol) == Stored(l, symbol)
  {
    if steps != [] {
      var n := |steps| - 1;
      assert forall i :: 0 <= i < n ==> steps[..n][i] == steps[i];
      DegradedStays(cfg, l, steps[..n], symbol);
      var mid := TakeAll(cfg, l, steps[..n]);
      hide Take, Stored, Clears;
      ClearsIff(cfg, mid, steps[n], symbol);
      DegradedIsNotWritten(cfg, mid, steps[n], symbol);
      StepKeepsKeys(cfg, mid, steps[n]);
    }
  }

  lemma FirstClear(cfg: Config, rows: map<int, Candle>, steps: seq<Step>, symbol: string) returns (i: nat)
    requires exists j :: 0 <= j < |steps| && Clears(cfg, rows, steps[j], symbol)
    ensures i < |steps| && Clears(cfg, rows, steps[i], symbol)
    ensures forall j :: 0 <= j < i ==> !Clears(cfg, rows, steps[j], symbol)
  {
    hide Clears;
    i := 0;
    while !Clears(cfg, rows, steps[i], symbol)
      invariant i < |steps| && forall j :: 0 <= j < i ==> !Clears(cfg, rows, steps[j], symbol)
      decreases |steps| - i
    {
      i := i + 1;
    }
  }

  /** A degraded symbol recovers at some point of a run exactly when it was degraded for missing minutes
      and some gate of the run clears it, judged by the candles stored when it was degraded: nothing is
      written in between, so only time passing or the calendar brings it back. */
  lemma RecoversIff(cfg: Config, l: Layer, steps: seq<Step>, symbol: string)
    requires KeysAgree(l) && symbol in l.degraded
    ensures (exists n :: 0 <= n <= |steps| && symbol !in TakeAll(cfg, l, steps[..n]).degraded) <==>
      l.reason[symbol].MissingMinutes? && exists i :: 0 <= i < |steps| && Clears(cfg, Stored(l, symbol), steps[i], symbol)
  {
    hide Clears, Stored, Take, TakeAll;
    if l.reason[symbol].MissingMinutes? && exists i :: 0 <= i < |steps| && Clears(cfg, Stored(l, symbol), steps[i], symbol) {
      var i := FirstClear(cfg, Stored(l, symbol), steps, symbol);
      assert forall j :: 0 <= j < i ==> steps[..i][j] == steps[j];
      DegradedStays(cfg, l, steps[..i], symbol);
      ClearsIff(cfg, TakeAll(cfg, l, steps[..i]), steps[i], symbol);
      TakeNext(cfg, l, steps, i);
      assert symbol !in TakeAll(cfg, l, steps[..i + 1]).degraded;
    } else {
      forall n | 0 <= n <= |steps| ensures symbol in TakeAll(cfg, l, steps[..n]).degraded {
        assert forall j :: 0 <= j < n ==> steps[..n][j] == steps[j];
        DegradedStays(cfg, l, steps[..n], symbol);
      }
    }
  }

  // ---- where stored candles come from ----

  function Batch(s: Step): seq<Candle> {
    match s
    case Prefetch(_, answer) => if answer.Fetched? then answer.candles else []
    case Write(_, _, _, _, answer) => if answer.Fetched? then answer.candles else []
    case Gate(_, _) => []
  }

  predicate BroughtBy(s: Step, symbol: string, c: Candle) {
    s.symbol == symbol && c in Batch(s) && Clean(Batch(s))
  }

  lemma BroughtStep(cfg: Config, l: Layer, s: Step, symbol: string, k: int)
    requires k in Stored(Take(cfg, l, s), symbol)
    ensures var c := Stored(Take(cfg, l, s), symbol)[k];
      (k in Stored(l, symbol) && Stored(l, symbol)[k] == c) || BroughtBy(s, symbol, c)
  {
    if (s.Prefetch? || s.Write?) && s.answer.Fetched? {
      PatchedFrom(Stored(l, s.symbol), Reached(s.answer));
      AppendedFrom(Stored(l, s.symbol), Reached(s.answer));
    }
    hide Duplicates, StepErrors, LastStored, MissingOpen, StaleFor, InWarmup, Patched, Appended, Clean;
  }

  /** Every stored candle was there at the start or came in a batch that passed validation. */
  lemma {:induction false} StoredComeFromCleanBatches(cfg: Config, l: Layer, steps: seq<Step>, symbol: string, k: int)
    requires k in Stored(TakeAll(cfg, l, steps), symbol)
    ensures var c := Stored(TakeAll(cfg, l, steps), symbol)[k];
      (k in Stored(l, symbol) && Stored(l, symbol)[k] == c) || exists i :: 0 <= i < |steps| && BroughtBy(steps[i], symbol, c)
  {
    if steps != [] {
      var n := |steps| - 1;
      var mid := TakeAll(cfg, l, steps[..n]);
      BroughtStep(cfg, mid, steps[n], symbol, k);
      var c := Stored(TakeAll(cfg, l, steps), symbol)[k];
      hide Take, BroughtBy, Stored;
      if !BroughtBy(steps[n], symbol, c) {
        StoredComeFromCleanBatches(cfg, l, steps[..n], symbol, k);
        if i :| 0 <= i < n && BroughtBy(steps[..n][i], symbol, c) {
          assert BroughtBy(steps[i], symbol, c);
        }
      }
    }
  }

  /** A batch that passes validation is a run of consecutive minutes. */
  lemma CleanIsConsecutive(cs: seq<Candle>)
    ensures Clean(cs) <==> forall i :: 0 <= i < |cs| ==> cs[i].ts == cs[0].ts + 60 * i
  {
    if StepErrors(cs) == 0 {
      CleanBatch(cs);
    } else {
      BrokenStep(cs);
    }
  }

  lemma {:induction false} BrokenStep(cs: seq<Candle>)
    requires StepErrors(cs) > 0
    ensures exists i :: 0 <= i < |cs| && cs[i].ts != cs[0].ts + 60 * i
  {
    var n := |cs| - 1;
    if cs[n].ts - cs[n - 1].ts != 60 {
      assert cs[n].ts != cs[0].ts + 60 * n || cs[n - 1].ts != cs[0].ts + 60 * (n - 1);
    } else {
      BrokenStep(cs[..n]);
      var i :| 0 <= i < n && cs[..n][i].ts != cs[..n][0].ts + 60 * i;
      assert cs[i].ts != cs[0].ts + 60 * i;
    }
  }

  /** A batch that fails validation stores nothing and condemns its symbol, unless the symbol was already
      degraded or the writer had nothing to do. */
  lemma FailedBatch(cfg: Config, l: Layer, s: Step)
    requires !Clean(Batch(s))
    ensures Take(cfg, l, s).rows == l.rows
    ensures s.Prefetch? && s.symbol !in l.degraded ==> Condemned(Take(cfg, l, s), s.symbol)
    ensures s.Write? && s.symbol !in l.degraded ==>
      (Condemned(Take(cfg, l, s), s.symbol) <==>
       var last := LastStored(Stored(l, s.symbol), s.since, s.until); last.None? || last.value < s.target)
  {
    CleanIsConsecutive(Batch(s));
    hide Duplicates, StepErrors, LastStored, MissingOpen, StaleFor, InWarmup, Patched, Appended, Clean;
  }

  /** The step asks for candles and would store them if they were clean. */
  predicate Stores(l: Layer, s: Step) {
    && s.symbol !in l.degraded
    && (s.Prefetch? || (s.Write? && var last := LastStored(Stored(l, s.symbol), s.since, s.until); last.None? || last.value < s.target))
  }

  /** One batch that fails validation is final: from then on, over any run, its symbol stays degraded and
      keeps the candles it had before that batch. */
  lemma FailedBatchIsFinal(cfg: Config, l: Layer, steps: seq<Step>, i: nat)
    requires i < |steps| && !Clean(Batch(steps[i])) && Stores(TakeAll(cfg, l, steps[..i]), steps[i])
    ensures var end := TakeAll(cfg, l, steps);
      Condemned(end, steps[i].symbol) && Stored(end, steps[i].symbol) == Stored(TakeAll(cfg, l, steps[..i]), steps[i].symbol)
  {
    var mid := TakeAll(cfg, l, steps[..i]);
    FailedBatch(cfg, mid, steps[i]);
    TakeNext(cfg, l, steps, i);
    assert steps == steps[..i + 1] + steps[i + 1..];
    TakeConcat(cfg, l, steps[..i + 1], steps[i + 1..]);
    hide Clean, Batch, Take, TakeAll, Condemned;
    CondemnedForGood(cfg, TakeAll(cfg, l, steps[..i + 1]), steps[i + 1..], steps[i].symbol);
  }

  // ---- the service ----

  function PrefetchSteps(symbols: seq<string>, answers: seq<Answer>): (r: seq<Step>)
    requires |answers| == |symbols|
    ensures |r| == |symbols|
  {
    seq(|symbols|, i requires 0 <= i < |symbols| => Prefetch(symbols[i], answers[i]))
  }

  function WriteSteps(symbols: seq<string>, target: int, since: int, until: int, answers: seq<Answer>): (r: seq<Step>)
    requires |answers| == |symbols|
    ensures |r| == |symbols|
  {
    seq(|symbols|, i requires 0 <= i < |symbols| => Write(symbols[i], target, since, until, answers[i]))
  }

  function GateSteps(symbols: seq<string>, readings: seq<Reading>): (r: seq<Step>)
    requires |readings| == |symbols|
    ensures |r| == |symbols|
  {
    seq(|symbols|, i requires 0 <= i < |symbols| => Gate(symbols[i], readings[i]))
  }

  class DataLayerProdService {
    const config: Config
    var rows: map<string, map<int, Candle>>
    var degraded: set<string>
    var reason: map<string, Reason>

    ghost function Abs(): Layer
      reads this
    {
      Layer(rows, degraded, reason)
    }

    constructor (config: Config, rows: map<string, map<int, Candle>>)
      ensures this.config == config
      ensures Abs() == Layer(rows, {}, map[]) && KeysAgree(Abs())
    {
      this.config := config;
      this.rows := rows;
      degraded := {};
      reason := map[];
    }

    method MarkDegraded(symbol: string, why: Reason)
      modifies this
      ensures Abs() == Mark(old(Abs()), symbol, why)
    {
      degraded := degraded + {symbol};
      reason := reason[symbol := why];
    }

    /** `store.patch`, stopped after the candles that reach the disk. */
    method Patch(symbol: string, candles: seq<Candle>)
      modifies this`rows
      ensures Abs() == old(Abs()).(rows := old(rows)[symbol := Patched(Stored(old(Abs()), symbol), candles)])
    {
      ghost var before := Stored(Abs(), symbol);
      var merged := if symbol in rows then rows[symbol] else map[];
      for i := 0 to |candles|
        invariant merged == Patched(before, candles[..i])
      {
        assert candles[..i + 1][..i] == candles[..i];
        merged := merged[candles[i].ts := candles[i]];
      }
      assert candles[..|candles|] == candles;
      rows := rows[symbol := merged];
    }

    method PrefetchOne(symbol: string, answer: Answer)
      modifies this
      ensures Abs() == Prefetched(old(Abs()), symbol, answer)
    {
      hide Duplicates, StepErrors, Patched;
      if symbol in degraded || answer.Unavailable? || answer.candles == [] {
        return;
      }
      var duplicates, stepErrors := Duplicates(answer.candles), StepErrors(answer.candles);
      if duplicates > 0 || stepErrors > 0 {
        MarkDegraded(symbol, PrefetchErrors(duplicates, stepErrors));
        return;
      }
      Patch(symbol, Reached(answer));
    }

    method RunPrefetch(answers: seq<Answer>)
      requires |answers| == |config.symbols|
      modifies this
      ensures Abs() == TakeAll(config, old(Abs()), PrefetchSteps(config.symbols, answers))
    {
      ghost var steps := PrefetchSteps(config.symbols, answers);
      ghost var start := Abs();
      hide Prefetched, TakeAll;
      assert TakeAll(config, start, steps[..0]) == start by { NoSteps(config, start, steps); }
      for i := 0 to |config.symbols|
        invariant Abs() == TakeAll(config, start, steps[..i])
      {
        TakeNext(config, start, steps, i);
        PrefetchOne(config.symbols[i], answers[i]);
      }
      assert steps[..|steps|] == steps;
    }

    method WriteNextIfMissing(symbol: string, target: int, since: int, until: int, answer: Answer)
      requires symbol !in degraded
      modifies this
      ensures Abs() == Written(old(Abs()), symbol, target, since, until, answer)
    {
      hide Duplicates, StepErrors, LastStored;
      ghost var before := Stored(Abs(), symbol);
      var mine := if symbol in rows then rows[symbol] else map[];
      var last := LastStored(mine, since, until);
      if last.Some? && last.value >= target {
        return;
      }
      if answer.Unavailable? || answer.candles == [] {
        return;
      }
      var duplicates, stepErrors := Duplicates(answer.candles), StepErrors(answer.candles);
      if duplicates > 0 || stepErrors > 0 {
        MarkDegraded(symbol, WriterErrors(duplicates, stepErrors));
        return;
      }
      var candles := Reached(answer);
      for i := 0 to |candles|
        invariant mine == Appended(before, candles[..i])
      {
        assert candles[..i + 1][..i] == candles[..i];
        if candles[i].ts !in mine {
          mine := mine[candles[i].ts := candles[i]];
        }
      }
      assert candles[..|candles|] == candles;
      rows := rows[symbol := mine];
    }

    method GateOne(symbol: string, r: Reading)
      modifies this
      ensures Abs() == Gated(config, old(Abs()), symbol, r)
    {
      hide LastStored, StaleFor, MissingOpen, InWarmup;
      var mine := if symbol in rows then rows[symbol] else map[];
      var last := LastStored(mine, r.since, r.until);
      if last.None? {
        return;
      }
      var stale := StaleFor(last.value, r);
      var missing := MissingOpen(mine, r);
      if symbol !in degraded {
        if stale > config.staleSeconds {
          MarkDegraded(symbol, Stale(stale));
        } else if r.marketOpen && r.reasonOpen && missing > config.maxMissing && !InWarmup(config, missing, r) {
          MarkDegraded(symbol, MissingMinutes(missing));
        }
      } else if symbol in reason && reason[symbol].MissingMinutes? && missing <= config.maxMissing && stale <= config.staleSeconds {
        degraded := degraded - {symbol};
        reason := reason - {symbol};
      }
    }

    method UpdateGateMetrics(readings: seq<Reading>)
      requires |readings| == |config.symbols|
      modifies this
      ensures Abs() == TakeAll(config, old(Abs()), GateSteps(config.symbols, readings))
    {
      ghost var steps := GateSteps(config.symbols, readings);
      ghost var start := Abs();
      hide Gated, TakeAll;
      assert TakeAll(config, start, steps[..0]) == start by { NoSteps(config, start, steps); }
      for i := 0 to |config.symbols|
        invariant Abs() == TakeAll(config, start, steps[..i])
      {
        TakeNext(config, start, steps, i);
        GateOne(config.symbols[i], readings[i]);
      }
      assert steps[..|steps|] == steps;
    }

    /** One turn of the writer loop: every healthy symbol, then the gates. */
    method WriterTurn(target: int, since: int, until: int, answers: seq<Answer>, readings: seq<Reading>)
      requires |answers| == |readings| == |config.symbols|
      modifies this
      ensures Abs() == TakeAll(config, old(Abs()), WriteSteps(config.symbols, target, since, until, answers) + GateSteps(config.symbols, readings))
    {
      ghost var steps := WriteSteps(config.symbols, target, since, until, answers);
      ghost var start := Abs();
      hide Written, TakeAll;
      assert TakeAll(config, start, steps[..0]) == start by { NoSteps(config, start, steps); }
      for i := 0 to |config.symbols|
        invariant Abs() == TakeAll(config, start, steps[..i])
      {
        TakeNext(config, start, steps, i);
        var symbol := config.symbols[i];
        if symbol in degraded {
          DegradedIsSkipped(Abs(), symbol, target, since, until, answers[i]);
          continue;
        }
        WriteNextIfMissing(symbol, target, since, until, answers[i]);
      }
      assert steps[..|steps|] == steps;
      TakeConcat(config, start, steps, GateSteps(config.symbols, readings));
      UpdateGateMetrics(readings);
    }
  }

  lemma NoSteps(cfg: Config, l: Layer, steps: seq<Step>)
    ensures TakeAll(cfg, l, steps[..0]) == l
  {}

  lemma DegradedIsSkipped(l: Layer, symbol: string, target: int, since: int, until: int, answer: Answer)
    requires symbol in l.degraded
    ensures Written(l, symbol, target, since, until, answer) == l
  {
    hide LastStored;
  }
}
