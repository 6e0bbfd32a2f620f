/** The example strategy, the two trade simulators that run it, and the key figures of a backtest.
    Rounding is any function: both engines apply the same one to each trade's result. */
module Backtest {
  import opened Series

  datatype Side = Long | Short
  datatype Signal = GoLong | GoShort | Flat
  datatype Trade = Trade(entryTs: int, exitTs: int, side: Side, entryPrice: real, exitPrice: real, pnlPct: real)

  // ---- what a list of signals means ----

  /** Candle indices at which a position is opened and closed. */
  datatype Position = Position(entry: nat, exit: nat)

  predicate Enters(signal: int) {
    signal == 1 || signal == -1
  }

  predicate Leaves(signals: seq<int>, hold: int, entry: nat, i: nat)
    requires entry < |signals| && i < |signals|
  {
    i - entry >= hold || signals[i] == -signals[entry] || signals[i] == 0
  }

  function NextEntry(signals: seq<int>, i: nat): (e: nat)
    requires i <= |signals|
    ensures i <= e <= |signals|
    decreases |signals| - i
  {
    if i == |signals| || Enters(signals[i]) then i else NextEntry(signals, i + 1)
  }

  function NextExit(signals: seq<int>, hold: int, entry: nat, i: nat): (x: nat)
    requires entry < i <= |signals|
    ensures i <= x <= |signals|
    decreases |signals| - i
  {
    if i == |signals| || Leaves(signals, hold, entry, i) then i else NextExit(signals, hold, entry, i + 1)
  }

  /** The closed positions from candle `i` on: enter at the first signal, leave at the first reason to. */
  function Positions(signals: seq<int>, hold: int, i: nat): seq<Position>
    requires i <= |signals|
    decreases |signals| - i
  {
    var e := NextEntry(signals, i);
    if e == |signals| then []
    else
      var x := NextExit(signals, hold, e, e + 1);
      if x == |signals| then [] else [Position(e, x)] + Positions(signals, hold, x + 1)
  }

  function Pnl(side: Side, entry: real, exit: real): real
    requires entry != 0.0
  {
    if side == Long then (exit - entry) / entry * 100.0 else (entry - exit) / entry * 100.0
  }

  function SideOf(signal: int): Side {
    if signal == 1 then Long else Short
  }

  function TradeOf(cs: seq<Candle>, signals: seq<int>, p: Position, round: real -> real): Trade
    requires p.entry < |signals| <= |cs| && p.exit < |cs| && cs[p.entry].close != 0.0
  {
    var side := SideOf(signals[p.entry]);
    Trade(cs[p.entry].ts, cs[p.exit].ts, side, cs[p.entry].close, cs[p.exit].close,
          round(Pnl(side, cs[p.entry].close, cs[p.exit].close)))
  }

  predicate Inside(ps: seq<Position>, n: nat) {
    forall k :: 0 <= k < |ps| ==> ps[k].entry < n && ps[k].exit < n
  }

  /** The trades of a list of positions; `None` is the division by zero of a position opened at price 0. */
  function Book(cs: seq<Candle>, signals: seq<int>, ps: seq<Position>, round: real -> real): Option<seq<Trade>>
    requires |signals| <= |cs| && Inside(ps, |signals|)
  {
    if ps == [] then Some([])
    else if cs[ps[0].entry].close == 0.0 then None
    else
      var rest := Book(cs, signals, ps[1..], round);
      if rest.None? then None else Some([TradeOf(cs, signals, ps[0], round)] + rest.value)
  }

  lemma {:induction false} PositionsInside(signals: seq<int>, hold: int, i: nat)
    requires i <= |signals|
    ensures Inside(Positions(signals, hold, i), |signals|)
    decreases |signals| - i
  {
    var e := NextEntry(signals, i);
    if e < |signals| {
      var x := NextExit(signals, hold, e, e + 1);
      if x < |signals| { PositionsInside(signals, hold, x + 1); }
    }
  }

  function Outcome(cs: seq<Candle>, signals: seq<int>, hold: int, round: real -> real): Option<seq<Trade>>
    requires |signals| <= |cs|
  {
    PositionsInside(signals, hold, 0);
    Book(cs, signals, Positions(signals, hold, 0), round)
  }

  // ---- what the positions look like ----

  lemma {:induction false} NextEntryIsFirst(signals: seq<int>, i: nat)
    requires i <= |signals|
    ensures var e := NextEntry(signals, i);
      && (e < |signals| ==> Enters(signals[e]))
      && forall k :: i <= k < e ==> !Enters(signals[k])
    decreases |signals| - i
  {
    if i < |signals| && !Enters(signals[i]) { NextEntryIsFirst(signals, i + 1); }
  }

  lemma {:induction false} NextExitIsFirst(signals: seq<int>, hold: int, entry: nat, i: nat)
    requires entry < i <= |signals|
    ensures var x := NextExit(signals, hold, entry, i);
      && (x < |signals| ==> Leaves(signals, hold, entry, x))
      && forall k :: i <= k < x ==> !Leaves(signals, hold, entry, k)
    decreases |signals| - i
  {
    if i < |signals| && !Leaves(signals, hold, entry, i) { NextExitIsFirst(signals, hold, entry, i + 1); }
  }

  predicate WellTimed(p: Position, hold: int) {
    p.entry < p.exit && p.exit - p.entry <= if hold > 1 then hold else 1
  }

  /** Ordered and never overlapping: a position opens only after the candle that closed the one before. */
  ghost predicate Disjoint(ps: seq<Position>) {
    forall j, k :: 0 <= j < k < |ps| ==> ps[j].exit < ps[k].entry
  }

  lemma {:induction false} PositionsDisjoint(signals: seq<int>, hold: int, i: nat)
    requires i <= |signals|
    ensures Disjoint(Positions(signals, hold, i))
    ensures forall k :: 0 <= k < |Positions(signals, hold, i)| ==> i <= Positions(signals, hold, i)[k].entry
    ensures forall k :: 0 <= k < |Positions(signals, hold, i)| ==> WellTimed(Positions(signals, hold, i)[k], hold)
    decreases |signals| - i
  {
    var e := NextEntry(signals, i);
    if e < |signals| {
      var x := NextExit(signals, hold, e, e + 1);
      if x < |signals| {
        PositionsDisjoint(signals, hold, x + 1);
        NextExitIsFirst(signals, hold, e, e + 1);
        assert x - 1 > e ==> !Leaves(signals, hold, e, x - 1);
        assert WellTimed(Position(e, x), hold);
        hide NextEntry, NextExit, Leaves, Enters;
      }
    }
  }

  // ---- signals ----

  predicate Rises(cs: seq<Candle>, lookback: nat, i: nat)
    requires i < |cs|
  {
    lookback <= i && cs[i].close > cs[i - lookback].close
  }

  predicate Falls(cs: seq<Candle>, lookback: nat, i: nat)
    requires i < |cs|
  {
    lookback <= i && cs[i].close < cs[i - lookback].close
  }

  function Code(s: Signal): int {
    match s
    case GoLong => 1
    case GoShort => -1
    case Flat => 0
  }

  function Codes(signals: seq<Signal>): (r: seq<int>)
    ensures |r| == |signals| && forall i :: 0 <= i < |r| ==> r[i] == Code(signals[i])
  {
    seq(|signals|, i requires 0 <= i < |signals| => Code(signals[i]))
  }

  function TrendCodes(cs: seq<Candle>, lookback: nat): (r: seq<int>)
    ensures |r| == |cs|
    ensures forall i :: 0 <= i < |r| ==> r[i] == if Rises(cs, lookback, i) then 1 else if Falls(cs, lookback, i) then -1 else 0
  {
    seq(|cs|, i requires 0 <= i < |cs| => if Rises(cs, lookback, i) then 1 else if Falls(cs, lookback, i) then -1 else 0)
  }

  method SimpleTrendSignals(cs: seq<Candle>, lookback: nat) returns (signals: seq<Signal>)
    ensures Codes(signals) == TrendCodes(cs, lookback)
  {
    signals := [];
    for i := 0 to |cs|
      invariant |signals| == i
      invariant forall k :: 0 <= k < i ==> Code(signals[k]) == TrendCodes(cs, lookback)[k]
    {
      if i < lookback {
        signals := signals + [Flat];
      } else if cs[i].close > cs[i - lookback].close {
        signals := signals + [GoLong];
      } else if cs[i].close < cs[i - lookback].close {
        signals := signals + [GoShort];
      } else {
        signals := signals + [Flat];
      }
    }
  }

  method GenerateSignals(cs: seq<Candle>, lookback: nat) returns (r: seq<int>)
    ensures r == TrendCodes(cs, lookback)
  {
    var signals := new int[|cs|](_ => 0);
    var i := lookback;
    while i < |cs|
      invariant forall k :: 0 <= k < |cs| && k < i ==> signals[k] == TrendCodes(cs, lookback)[k]
      invariant forall k :: i <= k < |cs| ==> signals[k] == 0
    {
      if cs[i].close > cs[i - lookback].close {
        signals[i] := 1;
      } else if cs[i].close < cs[i - lookback].close {
        signals[i] := -1;
      }
      i := i + 1;
    }
    return signals[..];
  }

  // ---- the two simulators ----

  /** What is still to come at candle `i`, with or without an open position. */
  function Rest(signals: seq<int>, hold: int, entry: Option<nat>, i: nat): seq<Position>
    requires i <= |signals| && (entry.Some? ==> entry.value < i)
  {
    match entry
    case None => Positions(signals, hold, i)
    case Some(e) =>
      var x := NextExit(signals, hold, e, i);
      if x == |signals| then [] else [Position(e, x)] + Positions(signals, hold, x + 1)
  }

  lemma RestSteps(signals: seq<int>, hold: int, entry: Option<nat>, i: nat)
    requires i < |signals| && (entry.Some? ==> entry.value < i)
    ensures entry.None? && !Enters(signals[i]) ==> Rest(signals, hold, None, i) == Rest(signals, hold, None, i + 1)
    ensures entry.None? && Enters(signals[i]) ==> Rest(signals, hold, None, i) == Rest(signals, hold, Some(i), i + 1)
    ensures entry.Some? && !Leaves(signals, hold, entry.value, i) ==>
      Rest(signals, hold, entry, i) == Rest(signals, hold, entry, i + 1)
    ensures entry.Some? && Leaves(signals, hold, entry.value, i) ==>
      Rest(signals, hold, entry, i) == [Position(entry.value, i)] + Rest(signals, hold, None, i + 1)
  {}

  lemma RestEnds(signals: seq<int>, hold: int, entry: Option<nat>)
    requires entry.Some? ==> entry.value < |signals|
    ensures Rest(signals, hold, entry, |signals|) == []
  {}

  lemma RestInside(signals: seq<int>, hold: int, entry: Option<nat>, i: nat)
    requires i <= |signals| && (entry.Some? ==> entry.value < i)
    ensures Inside(Rest(signals, hold, entry, i), |signals|)
  {
    if entry.None? {
      PositionsInside(signals, hold, i);
    } else {
      var x := NextExit(signals, hold, entry.value, i);
      if x < |signals| { PositionsInside(signals, hold, x + 1); }
    }
  }

  /** The trades made so far followed by the trades still to come. */
  function Continue(trades: seq<Trade>, rest: Option<seq<Trade>>): Option<seq<Trade>> {
    if rest.None? then None else Some(trades + rest.value)
  }

  ghost predicate OnTrack(cs: seq<Candle>, signals: seq<int>, hold: int, round: real -> real, trades: seq<Trade>, entry: Option<nat>, i: nat)
    requires |signals| <= |cs| && i <= |signals| && (entry.Some? ==> entry.value < i)
  {
    RestInside(signals, hold, entry, i);
    Outcome(cs, signals, hold, round) == Continue(trades, Book(cs, signals, Rest(signals, hold, entry, i), round))
  }

  lemma OnTrackStart(cs: seq<Candle>, signals: seq<int>, hold: int, round: real -> real)
    requires |signals| <= |cs|
    ensures OnTrack(cs, signals, hold, round, [], None, 0)
  {
    var r := Outcome(cs, signals, hold, round);
    if r.Some? { assert [] + r.value == r.value; }
  }

  lemma OnTrackEnd(cs: seq<Candle>, signals: seq<int>, hold: int, round: real -> real, trades: seq<Trade>, entry: Option<nat>)
    requires |signals| <= |cs| && (entry.Some? ==> entry.value < |signals|)
    requires OnTrack(cs, signals, hold, round, trades, entry, |signals|)
    ensures Outcome(cs, signals, hold, round) == Some(trades)
  {
    RestEnds(signals, hold, entry);
    assert trades + [] == trades;
  }

  lemma BookCons(cs: seq<Candle>, signals: seq<int>, p: Position, rest: seq<Position>, round: real -> real)
    requires |signals| <= |cs| && Inside([p] + rest, |signals|) && Inside(rest, |signals|)
    ensures p.entry < |signals| && p.exit < |signals|
    ensures Book(cs, signals, [p] + rest, round) ==
      if cs[p.entry].close == 0.0 then None
      else Continue([TradeOf(cs, signals, p, round)], Book(cs, signals, rest, round))
  {
    assert ([p] + rest)[0] == p;
    assert ([p] + rest)[1..] == rest;
    hide TradeOf, Inside;
  }

  lemma ContinueTwice(a: seq<Trade>, t: Trade, rest: Option<seq<Trade>>)
    ensures Continue(a, Continue([t], rest)) == Continue(a + [t], rest)
  {
    if rest.Some? { assert a + ([t] + rest.value) == a + [t] + rest.value; }
  }

  lemma OnTrackMoves(cs: seq<Candle>, signals: seq<int>, hold: int, round: real -> real, trades: seq<Trade>, entry: Option<nat>, i: nat)
    requires |signals| <= |cs| && i < |signals| && (entry.Some? ==> entry.value < i)
    requires OnTrack(cs, signals, hold, round, trades, entry, i)
    ensures entry.None? ==> OnTrack(cs, signals, hold, round, trades, if Enters(signals[i]) then Some(i) else None, i + 1)
    ensures entry.Some? && !Leaves(signals, hold, entry.value, i) ==> OnTrack(cs, signals, hold, round, trades, entry, i + 1)
    ensures entry.Some? && Leaves(signals, hold, entry.value, i) ==>
      if cs[entry.value].close == 0.0 then Outcome(cs, signals, hold, round) == None
      else OnTrack(cs, signals, hold, round, trades + [TradeOf(cs, signals, Position(entry.value, i), round)], None, i + 1)
  {
    hide Rest, Outcome, Enters, Leaves, TradeOf, Book, Inside;
    RestSteps(signals, hold, entry, i);
    if entry.Some? && Leaves(signals, hold, entry.value, i) {
      var p := Position(entry.value, i);
      var rest := Rest(signals, hold, None, i + 1);
      RestInside(signals, hold, entry, i);
      RestInside(signals, hold, None, i + 1);
      BookCons(cs, signals, p, rest, round);
      if cs[p.entry].close != 0.0 {
        ContinueTwice(trades, TradeOf(cs, signals, p, round), Book(cs, signals, rest, round));
      }
    }
  }

  lemma LeavesIs(signals: seq<int>, hold: int, entry: nat, i: nat)
    requires entry < i < |signals| && Enters(signals[entry])
    ensures var side := SideOf(signals[entry]);
      Leaves(signals, hold, entry, i) <==>
      i - entry >= hold || (side == Long && signals[i] == -1) || (side == Short && signals[i] == 1) || signals[i] == 0
  {}

  /** The offline runner. */
  method RunStrategy(cs: seq<Candle>, lookback: nat, hold: int, round: real -> real) returns (r: Option<seq<Trade>>)
    ensures r == Outcome(cs, TrendCodes(cs, lookback), hold, round)
  {
    if |cs| < lookback + 2 {
      ShortInput(cs, lookback, hold, round);
      return Some([]);
    }
    var signals := SimpleTrendSignals(cs, lookback);
    r := WalkSignals(cs, signals, hold, round);
  }

  /** The loop over candles and their signals. */
  method WalkSignals(cs: seq<Candle>, signals: seq<Signal>, hold: int, round: real -> real) returns (r: Option<seq<Trade>>)
    requires |signals| == |cs|
    ensures r == Outcome(cs, Codes(signals), hold, round)
  {
    hide Outcome, OnTrack, Pnl, Rest, Leaves;
    ghost var codes := Codes(signals);
    var trades: seq<Trade> := [];
    var inTrade := false;
    var entryIdx: nat := 0;
    var entryPrice := 0.0;
    var entrySide := Long;
    OnTrackStart(cs, codes, hold, round);
    for i := 0 to |cs|
      invariant inTrade ==> entryIdx < i && Enters(codes[entryIdx])
      invariant inTrade ==> entryPrice == cs[entryIdx].close && entrySide == SideOf(codes[entryIdx])
      invariant OnTrack(cs, codes, hold, round, trades, if inTrade then Some(entryIdx) else None, i)
    {
      OnTrackMoves(cs, codes, hold, round, trades, if inTrade then Some(entryIdx) else None, i);
      var signal := signals[i];
      if !inTrade {
        if signal == GoLong || signal == GoShort {
          inTrade := true;
          entryIdx := i;
          entryPrice := cs[i].close;
          entrySide := if signal == GoLong then Long else Short;
        }
      } else {
        var holdExpired := i - entryIdx >= hold;
        var signalReversed := (entrySide == Long && signal == GoShort) || (entrySide == Short && signal == GoLong);
        LeavesIs(codes, hold, entryIdx, i);
        if holdExpired || signalReversed || signal == Flat {
          if entryPrice == 0.0 {
            return None;
          }
          var pnl := Pnl(entrySide, entryPrice, cs[i].close);
          trades := trades + [Trade(cs[entryIdx].ts, cs[i].ts, entrySide, entryPrice, cs[i].close, round(pnl))];
          inTrade := false;
        }
      }
    }
    OnTrackEnd(cs, codes, hold, round, trades, if inTrade then Some(entryIdx) else None);
    return Some(trades);
  }

  lemma SignalIs(signal: int)
    ensures Enters(signal) <==> signal == 1 || signal == -1
    ensures SideOf(1) == Long && SideOf(-1) == Short
  {}

  lemma TradeIs(cs: seq<Candle>, signals: seq<int>, p: Position, round: real -> real)
    requires p.entry < |signals| <= |cs| && p.exit < |cs| && cs[p.entry].close != 0.0
    ensures TradeOf(cs, signals, p, round) ==
      var side := SideOf(signals[p.entry]);
      Trade(cs[p.entry].ts, cs[p.exit].ts, side, cs[p.entry].close, cs[p.exit].close, round(Pnl(side, cs[p.entry].close, cs[p.exit].close)))
  {}

  /** The Parquet runner's simulator, on the signals of any strategy. */
  method SimulateTrades(cs: seq<Candle>, signals: seq<int>, hold: int, round: real -> real) returns (r: Option<seq<Trade>>)
    requires |signals| <= |cs|
    ensures r == Outcome(cs, signals, hold, round)
  {
    hide *;
    var trades: seq<Trade> := [];
    var inTrade := false;
    var entryIdx: nat := 0;
    var entryPrice := 0.0;
    var entrySide := Long;
    OnTrackStart(cs, signals, hold, round);
    for i := 0 to |signals|
      invariant inTrade ==> entryIdx < i && Enters(signals[entryIdx])
      invariant inTrade ==> entryPrice == cs[entryIdx].close && entrySide == SideOf(signals[entryIdx])
      invariant OnTrack(cs, signals, hold, round, trades, if inTrade then Some(entryIdx) else None, i)
    {
      OnTrackMoves(cs, signals, hold, round, trades, if inTrade then Some(entryIdx) else None, i);
      var sig := signals[i];
      SignalIs(sig);
      if !inTrade {
        if sig == 1 {
          inTrade := true;
          entryIdx := i;
          entryPrice := cs[i].close;
          entrySide := Long;
        } else if sig == -1 {
          inTrade := true;
          entryIdx := i;
          entryPrice := cs[i].close;
          entrySide := Short;
        }
      } else {
        var holdExpired := i - entryIdx >= hold;
        var signalReversed := (entrySide == Long && sig == -1) || (entrySide == Short && sig == 1);
        LeavesIs(signals, hold, entryIdx, i);
        if holdExpired || signalReversed || sig == 0 {
          if entryPrice == 0.0 {
            return None;
          }
          var pnl := Pnl(entrySide, entryPrice, cs[i].close);
          TradeIs(cs, signals, Position(entryIdx, i), round);
          trades := trades + [Trade(cs[entryIdx].ts, cs[i].ts, entrySide, entryPrice, cs[i].close, round(pnl))];
          inTrade := false;
        }
      }
    }
    OnTrackEnd(cs, signals, hold, round, trades, if inTrade then Some(entryIdx) else None);
    return Some(trades);
  }

  /** Inputs too short for a signal and a later candle make no trades, which is what the guard returns. */
  lemma ShortInput(cs: seq<Candle>, lookback: nat, hold: int, round: real -> real)
    requires |cs| < lookback + 2
    ensures Outcome(cs, TrendCodes(cs, lookback), hold, round) == Some([])
  {
    var signals := TrendCodes(cs, lookback);
    NextEntryIsFirst(signals, 0);
    var e := NextEntry(signals, 0);
    if e < |signals| {
      assert e == |signals| - 1;
    }
  }

  /** Both engines on the example strategy: the same trades, or the same division by zero, for every
      series of candles, every lookback and every holding time. */
  method BothEngines(cs: seq<Candle>, lookback: nat, hold: int, round: real -> real)
    returns (offline: Option<seq<Trade>>, parquet: Option<seq<Trade>>)
    ensures offline == parquet
    ensures offline == Outcome(cs, TrendCodes(cs, lookback), hold, round)
  {
    offline := RunStrategy(cs, lookback, hold, round);
    var signals := GenerateSignals(cs, lookback);
    parquet := SimulateTrades(cs, signals, hold, round);
  }

  lemma {:induction false} BookIs(cs: seq<Candle>, signals: seq<int>, ps: seq<Position>, round: real -> real)
    requires |signals| <= |cs| && Inside(ps, |signals|)
    ensures Book(cs, signals, ps, round).None? <==> exists k :: 0 <= k < |ps| && cs[ps[k].entry].close == 0.0
    ensures Book(cs, signals, ps, round).Some? ==>
      var ts := Book(cs, signals, ps, round).value;
      && |ts| == |ps|
      && forall k :: 0 <= k < |ps| ==> cs[ps[k].entry].close != 0.0 && ts[k] == TradeOf(cs, signals, ps[k], round)
  {
    if ps != [] {
      BookIs(cs, signals, ps[1..], round);
      hide TradeOf;
      assert forall k :: 1 <= k < |ps| ==> ps[k] == ps[1..][k - 1];
      if k :| 0 <= k < |ps[1..]| && cs[ps[1..][k].entry].close == 0.0 {
        assert cs[ps[k + 1].entry].close == 0.0;
      }
    }
  }

  /** On candles with increasing timestamps the trades are ordered in time and never overlap. */
  lemma TradesAreOrdered(cs: seq<Candle>, signals: seq<int>, hold: int, round: real -> real)
    requires |signals| <= |cs| && Timeline(cs)
    ensures Outcome(cs, signals, hold, round).Some? ==>
      var ts := Outcome(cs, signals, hold, round).value;
      && (forall k :: 0 <= k < |ts| ==> ts[k].entryTs < ts[k].exitTs)
      && forall j, k :: 0 <= j < k < |ts| ==> ts[j].exitTs < ts[k].entryTs
  {
    var ps := Positions(signals, hold, 0);
    PositionsInside(signals, hold, 0);
    PositionsDisjoint(signals, hold, 0);
    BookIs(cs, signals, ps, round);
    hide Positions, Book, Pnl, SideOf;
  }

  // ---- key figures ----

  datatype Kpis = Kpis(trades: nat, wins: nat, losses: nat, winRatePct: real, pnlTotalPct: real, roiPct: real, maxDrawdownPct: real)

  function Cumulative(pnls: seq<real>, n: nat): real
    requires n <= |pnls|
  {
    if n == 0 then 0.0 else Cumulative(pnls, n - 1) + pnls[n - 1]
  }

  function Winning(pnls: seq<real>): (r: set<int>)
    ensures forall i :: i in r <==> 0 <= i < |pnls| && pnls[i] > 0.0
  {
    set i | 0 <= i < |pnls| && pnls[i] > 0.0
  }

  function Losing(pnls: seq<real>): (r: set<int>)
    ensures forall i :: i in r <==> 0 <= i < |pnls| && pnls[i] <= 0.0
  {
    set i | 0 <= i < |pnls| && pnls[i] <= 0.0
  }

  predicate IsFall(pnls: seq<real>, i: nat, j: nat, d: real) {
    i <= j <= |pnls| && d == Cumulative(pnls, i) - Cumulative(pnls, j)
  }

  ghost predicate NoDeeper(pnls: seq<real>, n: nat, d: real)
    requires n <= |pnls|
  {
    forall i, j :: 0 <= i <= j <= n ==> Cumulative(pnls, i) - Cumulative(pnls, j) <= d
  }

  /** The deepest fall of the running total from any earlier point, the start at zero included. */
  ghost predicate IsMaxDrawdown(pnls: seq<real>, d: real) {
    (exists i, j :: IsFall(pnls, i, j, d)) && NoDeeper(pnls, |pnls|, d)
  }

  ghost predicate Summarises(k: Kpis, pnls: seq<real>) {
    && k.trades == |pnls|
    && k.wins == |Winning(pnls)|
    && k.losses == |Losing(pnls)|
    && k.winRatePct == (if pnls == [] then 0.0 else k.wins as real / |pnls| as real * 100.0)
    && k.pnlTotalPct == Cumulative(pnls, |pnls|)
    && k.roiPct == k.pnlTotalPct
    && IsMaxDrawdown(pnls, k.maxDrawdownPct)
  }

  lemma SplitOutcomes(pnls: seq<real>)
    ensures |Winning(pnls)| + |Losing(pnls)| == |pnls|
  {
    if pnls == [] {
      assert Winning(pnls) == {} && Losing(pnls) == {};
    } else {
      var n := |pnls| - 1;
      SplitOutcomes(pnls[..n]);
      LastOutcome(pnls);
    }
  }

  lemma LastOutcome(pnls: seq<real>)
    requires pnls != []
    ensures var n := |pnls| - 1;
      && |Winning(pnls)| == |Winning(pnls[..n])| + (if pnls[n] > 0.0 then 1 else 0)
      && |Losing(pnls)| == |Losing(pnls[..n])| + (if pnls[n] > 0.0 then 0 else 1)
  {
    var n := |pnls| - 1;
    assert Winning(pnls) == Winning(pnls[..n]) + if pnls[n] > 0.0 then {n} else {};
    assert Losing(pnls) == Losing(pnls[..n]) + if pnls[n] > 0.0 then {} else {n};
  }

  /** Every figure is determined, so the two ways of counting cannot differ; and every trade is a win or a
      loss. */
  lemma FiguresAreDetermined(a: Kpis, b: Kpis, pnls: seq<real>)
    requires Summarises(a, pnls) && Summarises(b, pnls)
    ensures a == b && a.wins + a.losses == a.trades
  {
    SplitOutcomes(pnls);
    hide Cumulative, Winning, Losing;
    var i, j :| IsFall(pnls, i, j, a.maxDrawdownPct);
    var k, l :| IsFall(pnls, k, l, b.maxDrawdownPct);
  }

  lemma NoDeeperStep(pnls: seq<real>, n: nat, peak: real, before: real, d: real)
    requires n < |pnls| && NoDeeper(pnls, n, before) && before <= d
    requires forall i :: 0 <= i <= n + 1 ==> Cumulative(pnls, i) <= peak
    requires peak - Cumulative(pnls, n + 1) <= d
    ensures NoDeeper(pnls, n + 1, d)
  {
    hide Cumulative;
  }

  method MaxDrawdown(pnls: seq<real>) returns (maxDd: real)
    ensures IsMaxDrawdown(pnls, maxDd)
  {
    var cumulative, peak := 0.0, 0.0;
    maxDd := 0.0;
    ghost var top, from, to: nat := 0, 0, 0;
    for n := 0 to |pnls|
      invariant cumulative == Cumulative(pnls, n)
      invariant top <= n && peak == Cumulative(pnls, top)
      invariant forall i :: 0 <= i <= n ==> Cumulative(pnls, i) <= peak
      invariant to <= n && IsFall(pnls, from, to, maxDd)
      invariant NoDeeper(pnls, n, maxDd)
    {
      ghost var before := maxDd;
      cumulative := cumulative + pnls[n];
      assert cumulative == Cumulative(pnls, n + 1);
      hide Cumulative, NoDeeper;
      if cumulative > peak {
        peak := cumulative;
        top := n + 1;
      }
      var dd := peak - cumulative;
      if dd > maxDd {
        maxDd := dd;
        from, to := top, n + 1;
      }
      NoDeeperStep(pnls, n, peak, before, maxDd);
    }
  }

  /** The offline runner counts wins and losses one by one. */
  method ComputeKpis(pnls: seq<real>) returns (k: Kpis)
    ensures Summarises(k, pnls)
  {
    var maxDd := MaxDrawdown(pnls);
    if pnls == [] {
      NoTrades(maxDd);
      return Kpis(0, 0, 0, 0.0, 0.0, 0.0, 0.0);
    }
    var wins, losses: nat := 0, 0;
    var total := 0.0;
    hide IsMaxDrawdown;
    for n := 0 to |pnls|
      invariant wins == |Winning(pnls[..n])| && losses == |Losing(pnls[..n])|
      invariant total == Cumulative(pnls, n)
    {
      LastOutcome(pnls[..n + 1]);
      assert pnls[..n + 1][..n] == pnls[..n];
      if pnls[n] > 0.0 { wins := wins + 1; }
      if pnls[n] <= 0.0 { losses := losses + 1; }
      total := total + pnls[n];
    }
    assert pnls[..|pnls|] == pnls;
    return Kpis(|pnls|, wins, losses, wins as real / |pnls| as real * 100.0, total, total, maxDd);
  }

  /** The Parquet runner takes every trade that is not a win for a loss. */
  method ComputeKpisParquet(pnls: seq<real>) returns (k: Kpis)
    ensures Summarises(k, pnls)
  {
    var maxDd := MaxDrawdown(pnls);
    if pnls == [] {
      NoTrades(maxDd);
      return Kpis(0, 0, 0, 0.0, 0.0, 0.0, 0.0);
    }
    var wins: nat := 0;
    var total := 0.0;
    hide IsMaxDrawdown;
    for n := 0 to |pnls|
      invariant wins == |Winning(pnls[..n])| <= n
      invariant total == Cumulative(pnls, n)
    {
      LastOutcome(pnls[..n + 1]);
      assert pnls[..n + 1][..n] == pnls[..n];
      if pnls[n] > 0.0 { wins := wins + 1; }
      total := total + pnls[n];
    }
    assert pnls[..|pnls|] == pnls;
    SplitOutcomes(pnls);
    return Kpis(|pnls|, wins, |pnls| - wins, wins as real / |pnls| as real * 100.0, total, total, maxDd);
  }

  lemma NoTrades(d: real)
    requires IsMaxDrawdown([], d)
    ensures d == 0.0 && Winning([]) == {} && Losing([]) == {}
  {}
}
