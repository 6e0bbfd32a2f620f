/** The tick recorder's file beside the ticks the service accepted, and what the offline tool uses of it:
    the recorder keeps a tick only when it is strictly newer than the last one it kept and the write
    succeeds; the tool loads a range of the file and drops the prices its spike filter takes out. */
module TickLog {
  import opened Series
  import opened Ticks
  import opened TickRebuild

  /** `ts <= last_ts` counts as a duplicate; before the first line `last_ts` is 0. */
  predicate Keeps(lastLogged: int, ts: int, writes: bool) {
    ts > lastLogged && writes
  }

  /** The file's lines: the accepted ticks whose flag says they were kept. */
  function Kept(ticks: seq<Tick>, flags: seq<bool>): seq<Tick>
    requires |flags| == |ticks|
  {
    if ticks == [] then []
    else
      var n := |ticks| - 1;
      Kept(ticks[..n], flags[..n]) + if flags[n] then [ticks[n]] else []
  }

  /** The tool reads the lines with `from <= ts < to`. */
  function Loaded(file: seq<Tick>, from: int, to: int): seq<Tick> {
    if file == [] then []
    else
      var n := |file| - 1;
      Loaded(file[..n], from, to) + if from <= file[n].ts < to then [file[n]] else []
  }

  /** Which accepted ticks are both in the file and in the range. */
  function InRange(ticks: seq<Tick>, flags: seq<bool>, from: int, to: int): (r: seq<bool>)
    requires |flags| == |ticks|
    ensures |r| == |ticks| && forall i :: 0 <= i < |r| ==> (r[i] <==> flags[i] && from <= ticks[i].ts < to)
  {
    seq(|ticks|, i requires 0 <= i < |ticks| => flags[i] && from <= ticks[i].ts < to)
  }

  lemma {:induction false} LoadedAre(ticks: seq<Tick>, flags: seq<bool>, from: int, to: int)
    requires |flags| == |ticks|
    ensures Loaded(Kept(ticks, flags), from, to) == Kept(ticks, InRange(ticks, flags, from, to))
  {
    if ticks != [] {
      var n := |ticks| - 1;
      LoadedAre(ticks[..n], flags[..n], from, to);
      assert InRange(ticks, flags, from, to)[..n] == InRange(ticks[..n], flags[..n], from, to);
      LoadedUnfold(Kept(ticks[..n], flags[..n]), ticks[n], from, to);
      assert Kept(ticks[..n], flags[..n]) + [] == Kept(ticks[..n], flags[..n]);
    }
  }

  lemma LoadedUnfold(file: seq<Tick>, t: Tick, from: int, to: int)
    ensures Loaded(file + [t], from, to) == Loaded(file, from, to) + if from <= t.ts < to then [t] else []
  {
    assert (file + [t])[..|file|] == file;
  }

  /** One accepted tick of a minute, and whether the tool uses it. */
  datatype Heard = Heard(price: real, used: bool)

  function Entries(ticks: seq<Tick>, flags: seq<bool>, m: int): seq<Heard>
    requires |flags| == |ticks|
  {
    if ticks == [] then []
    else
      var n := |ticks| - 1;
      Entries(ticks[..n], flags[..n], m) + if Minute(ticks[n].ts) == m then [Heard(ticks[n].price, flags[n])] else []
  }

  function AllPrices(es: seq<Heard>): (r: seq<real>)
    ensures |r| == |es| && forall i :: 0 <= i < |r| ==> r[i] == es[i].price
  {
    seq(|es|, i requires 0 <= i < |es| => es[i].price)
  }

  function UsedPrices(es: seq<Heard>): seq<real> {
    if es == [] then []
    else
      var n := |es| - 1;
      UsedPrices(es[..n]) + if es[n].used then [es[n].price] else []
  }

  lemma EntriesUnfold(ticks: seq<Tick>, flags: seq<bool>, t: Tick, flag: bool, m: int)
    requires |flags| == |ticks|
    ensures Entries(ticks + [t], flags + [flag], m) == Entries(ticks, flags, m) + if Minute(t.ts) == m then [Heard(t.price, flag)] else []
    ensures Kept(ticks + [t], flags + [flag]) == Kept(ticks, flags) + if flag then [t] else []
  {
    assert (ticks + [t])[..|ticks|] == ticks && (flags + [flag])[..|flags|] == flags;
  }

  lemma KeptUnfold(ticks: seq<Tick>, flags: seq<bool>, t: Tick, flag: bool)
    requires |flags| == |ticks|
    ensures Kept(ticks + [t], flags + [flag]) == if flag then Kept(ticks, flags) + [t] else Kept(ticks, flags)
  {
    assert (ticks + [t])[..|ticks|] == ticks && (flags + [flag])[..|flags|] == flags;
  }

  lemma PricesAppend(ticks: seq<Tick>, t: Tick)
    ensures Prices(ticks + [t]) == Prices(ticks) + [t.price]
  {}

  /** The entries tell both stories of a minute: what the service heard and what the tool uses. */
  lemma {:induction false} EntriesAre(ticks: seq<Tick>, flags: seq<bool>, m: int)
    requires |flags| == |ticks|
    ensures AllPrices(Entries(ticks, flags, m)) == Prices(InMinute(ticks, m))
    ensures UsedPrices(Entries(ticks, flags, m)) == Prices(InMinute(Kept(ticks, flags), m))
  {
    hide Minute, Entries, Kept, InMinute, AllPrices, Prices, UsedPrices;
    if ticks == [] {
      NothingHeard(m);
      assert flags == [];
    } else {
      var n := |ticks| - 1;
      EntriesAre(ticks[..n], flags[..n], m);
      LastEntry(ticks[..n], flags[..n], ticks[n], flags[n], m);
      assert ticks == ticks[..n] + [ticks[n]] && flags == flags[..n] + [flags[n]];
    }
  }

  lemma NothingHeard(m: int)
    ensures AllPrices(Entries([], [], m)) == [] == Prices(InMinute([], m))
    ensures UsedPrices(Entries([], [], m)) == [] == Prices(InMinute(Kept([], []), m))
  {}

  lemma LastEntry(ticks: seq<Tick>, flags: seq<bool>, t: Tick, flag: bool, m: int)
    requires |flags| == |ticks|
    requires AllPrices(Entries(ticks, flags, m)) == Prices(InMinute(ticks, m))
    requires UsedPrices(Entries(ticks, flags, m)) == Prices(InMinute(Kept(ticks, flags), m))
    ensures AllPrices(Entries(ticks + [t], flags + [flag], m)) == Prices(InMinute(ticks + [t], m))
    ensures UsedPrices(Entries(ticks + [t], flags + [flag], m)) == Prices(InMinute(Kept(ticks + [t], flags + [flag]), m))
  {
    hide Minute, Entries, Kept, InMinute, AllPrices, Prices, UsedPrices;
    EntriesUnfold(ticks, flags, t, flag, m);
    InMinuteAppend(ticks, t, m);
    InMinuteAppend(Kept(ticks, flags), t, m);
    PricesAppend(InMinute(ticks, m), t);
    PricesAppend(InMinute(Kept(ticks, flags), m), t);
    EntriesGrow(Entries(ticks, flags, m), Heard(t.price, flag));
    if Minute(t.ts) != m {
      assert Entries(ticks, flags, m) + [] == Entries(ticks, flags, m);
      assert InMinute(ticks, m) + [] == InMinute(ticks, m);
      assert InMinute(Kept(ticks, flags), m) + [] == InMinute(Kept(ticks, flags), m);
    }
    assert Kept(ticks, flags) + [] == Kept(ticks, flags);
  }

  lemma EntriesGrow(es: seq<Heard>, e: Heard)
    ensures AllPrices(es + [e]) == AllPrices(es) + [e.price]
    ensures UsedPrices(es + [e]) == UsedPrices(es) + if e.used then [e.price] else []
  {
    assert (es + [e])[..|es|] == es;
  }

  lemma {:induction false} UsedAre(es: seq<Heard>)
    ensures forall p :: p in UsedPrices(es) <==> exists i :: 0 <= i < |es| && IsUsed(es, i, p)
  {
    if es != [] {
      var n := |es| - 1;
      UsedAre(es[..n]);
      forall p ensures p in UsedPrices(es) <==> exists i :: 0 <= i < |es| && IsUsed(es, i, p) {
        if i :| 0 <= i < n && IsUsed(es[..n], i, p) { assert IsUsed(es, i, p); }
        if i :| 0 <= i < |es| && IsUsed(es, i, p) { assert i < n ==> IsUsed(es[..n], i, p); }
        if IsUsed(es, n, p) { assert es[n].used; }
      }
    }
  }

  predicate IsUsed(es: seq<Heard>, i: int, p: real) {
    0 <= i < |es| && es[i].used && es[i].price == p
  }

  // ---- the spike filter, told on the entries ----

  function Above(es: seq<Heard>, threshold: real): (r: seq<Heard>)
    ensures |r| == |es|
    ensures forall i :: 0 <= i < |es| ==> r[i] == Heard(es[i].price, es[i].used && es[i].price >= threshold)
  {
    seq(|es|, i requires 0 <= i < |es| => Heard(es[i].price, es[i].used && es[i].price >= threshold))
  }

  lemma {:induction false} AtLeastAppend(prices: seq<real>, x: real, threshold: real)
    ensures AtLeast(prices + [x], threshold) == AtLeast(prices, threshold) + if x >= threshold then [x] else []
  {
    if prices == [] {
      assert [] + [x] == [x];
    } else {
      AtLeastAppend(prices[1..], x, threshold);
      assert (prices + [x])[1..] == prices[1..] + [x];
    }
  }

  lemma {:induction false} AboveUsed(es: seq<Heard>, threshold: real)
    ensures UsedPrices(Above(es, threshold)) == AtLeast(UsedPrices(es), threshold)
  {
    if es != [] {
      var n := |es| - 1;
      AboveUsed(es[..n], threshold);
      assert Above(es, threshold)[..n] == Above(es[..n], threshold);
      AtLeastAppend(UsedPrices(es[..n]), es[n].price, threshold);
      assert UsedPrices(es[..n]) + [] == UsedPrices(es[..n]);
    }
  }

  /** The ticks whose price the filter takes out are not used. */
  function Unspiked(es: seq<Heard>, pct: real): (r: seq<Heard>)
    ensures |r| == |es| && forall i :: 0 <= i < |es| ==> r[i].price == es[i].price
  {
    var prices := UsedPrices(es);
    if |prices| < 2 || AtLeast(prices, Threshold(prices, pct)) == [] then es
    else Above(es, Threshold(prices, pct))
  }

  lemma UnspikedAre(es: seq<Heard>, pct: real)
    ensures UsedPrices(Unspiked(es, pct)) == FilterSpikes(UsedPrices(es), pct)
    ensures AllPrices(Unspiked(es, pct)) == AllPrices(es)
  {
    hide Threshold, AtLeast, UsedPrices;
    if |UsedPrices(es)| >= 2 {
      AboveUsed(es, Threshold(UsedPrices(es), pct));
    }
  }

  /** A minute as the service heard it, each tick marked with whether the tool uses it: recorded, in the
      range and not taken out as a spike. */
  function Story(ticks: seq<Tick>, flags: seq<bool>, m: int, from: int, to: int, pct: real): seq<Heard>
    requires |flags| == |ticks|
  {
    Unspiked(Entries(ticks, InRange(ticks, flags, from, to), m), pct)
  }

  lemma StoryIs(ticks: seq<Tick>, flags: seq<bool>, m: int, from: int, to: int, pct: real)
    requires |flags| == |ticks|
    ensures var es := Story(ticks, flags, m, from, to, pct);
      && AllPrices(es) == Prices(InMinute(ticks, m))
      && UsedPrices(es) == FilterSpikes(BucketPrices(Loaded(Kept(ticks, flags), from, to), m), pct)
  {
    hide Entries, Unspiked, InMinute, Prices, Loaded, Kept, FilterSpikes, AllPrices, UsedPrices, InRange;
    LoadedAre(ticks, flags, from, to);
    EntriesAre(ticks, InRange(ticks, flags, from, to), m);
    UnspikedAre(Entries(ticks, InRange(ticks, flags, from, to), m), pct);
  }

  // ---- when both sides build the same candle ----

  predicate WithinRange(p: real, prices: seq<real>)
    requires prices != []
  {
    Min(prices) <= p <= Max(prices)
  }

  /** No unused tick before the flush leaves the range of the used ones. */
  predicate UnusedInside(es: seq<Heard>, cut: nat)
    requires cut <= |es| && UsedPrices(es) != []
  {
    forall i :: 0 <= i < cut && !es[i].used ==> WithinRange(es[i].price, UsedPrices(es))
  }

  /** No used tick after the flush leaves the range of the candle. */
  predicate LateInside(es: seq<Heard>, cut: nat)
    requires 0 < cut <= |es|
  {
    forall i :: cut <= i < |es| && es[i].used ==> WithinRange(es[i].price, AllPrices(es[..cut]))
  }

  /** For a candle stored when the first `cut` ticks of its minute had been heard: some tick is used, the
      first and the last used price are the candle's, and the other ticks of either side lie in range. */
  predicate SameCandle(es: seq<Heard>, cut: nat)
    requires 0 < cut <= |es|
  {
    var used := UsedPrices(es);
    && used != []
    && used[0] == es[0].price && used[|used| - 1] == es[cut - 1].price
    && UnusedInside(es, cut) && LateInside(es, cut)
  }

  /** Both ranges agree when each holds the other's prices. */
  lemma SameRange(a: seq<real>, b: seq<real>)
    requires a != [] && b != []
    ensures (Max(a) == Max(b) && Min(a) == Min(b)) <==> (forall p :: p in a ==> WithinRange(p, b)) && (forall p :: p in b ==> WithinRange(p, a))
  {
    assert Max(a) in a && Min(a) in a && Max(b) in b && Min(b) in b;
  }

  /** The candle that was stored equals the bar of the used prices exactly then. */
  lemma SameBarIff(es: seq<Heard>, cut: nat, m: int)
    requires 0 < cut <= |es|
    ensures SameCandle(es, cut) <==>
      UsedPrices(es) != [] && Bar(m, AllPrices(es[..cut])) == Bar(m, UsedPrices(es))
  {
    var stored, used := AllPrices(es[..cut]), UsedPrices(es);
    if used != [] {
      SameRange(stored, used);
      RangesMeet(es, cut);
      hide Min, Max, UsedPrices, AllPrices, WithinRange, UnusedInside, LateInside;
      BarsEqual(m, stored, used);
    }
  }

  lemma BarsEqual(m: int, a: seq<real>, b: seq<real>)
    requires a != [] && b != []
    ensures Bar(m, a) == Bar(m, b) <==> a[0] == b[0] && a[|a| - 1] == b[|b| - 1] && Max(a) == Max(b) && Min(a) == Min(b)
  {}

  /** Ticks that were both stored and used lie in both ranges, so only the others matter. */
  lemma RangesMeet(es: seq<Heard>, cut: nat)
    requires 0 < cut <= |es| && UsedPrices(es) != []
    ensures var stored, used := AllPrices(es[..cut]), UsedPrices(es);
      && ((forall p :: p in stored ==> WithinRange(p, used)) <==> UnusedInside(es, cut))
      && ((forall p :: p in used ==> WithinRange(p, stored)) <==> LateInside(es, cut))
  {
    var stored, used := AllPrices(es[..cut]), UsedPrices(es);
    UsedAre(es);
    hide UsedPrices, Min, Max;
    forall i | 0 <= i < cut ensures es[i].price in stored && (es[i].used ==> es[i].price in used) {
      assert stored[i] == es[i].price;
      assert es[i].used ==> IsUsed(es, i, es[i].price);
    }
    forall i | cut <= i < |es| && es[i].used ensures es[i].price in used {
      assert IsUsed(es, i, es[i].price);
    }
    if UnusedInside(es, cut) {
      forall p | p in stored ensures WithinRange(p, used) {
        var i :| 0 <= i < cut && stored[i] == p;
        if es[i].used { assert p in used; }
      }
    }
    if LateInside(es, cut) {
      forall p | p in used ensures WithinRange(p, stored) {
        var i :| 0 <= i < |es| && IsUsed(es, i, p);
        if i < cut { assert p in stored; }
      }
    }
  }
}
