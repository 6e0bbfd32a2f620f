/** Candles and the sorted-by-timestamp view of a map, shared by every component that fills a
    dictionary keyed by timestamp and then reads it back in order. */
module Series {

  datatype Option<+T> = None | Some(value: T)

  datatype Candle = Candle(ts: int, open: real, high: real, low: real, close: real, volume: real)

  ghost predicate Ascending(s: seq<int>) {
    forall i, j :: 0 <= i < j < |s| ==> s[i] < s[j]
  }

  lemma Inhabited(s: set<int>)
    ensures s == {} || exists x :: x in s
  {
    if forall x :: x !in s { assert s == {}; }
  }

  lemma SomeLeast(ks: set<int>)
    requires ks != {}
    ensures exists m :: m in ks && forall k :: k in ks ==> m <= k
  {
    Inhabited(ks);
    var x :| x in ks;
    if ks != {x} {
      var rest := ks - {x};
      SomeLeast(rest);
      var m :| m in rest && forall k :: k in rest ==> m <= k;
      var least := if m < x then m else x;
      assert least in ks;
      forall k | k in ks ensures least <= k { assert k == x || k in rest; }
    } else {
      assert forall k :: k in ks ==> x <= k;
    }
  }

  function Least(ks: set<int>): (m: int)
    requires ks != {}
    ensures m in ks && forall k :: k in ks ==> m <= k
  {
    SomeLeast(ks);
    var m :| m in ks && forall k :: k in ks ==> m <= k;
    m
  }

  /** Python's `sorted` on the keys of a dictionary. */
  function Sorted(ks: set<int>): (r: seq<int>)
    ensures Ascending(r)
    ensures forall k :: k in r <==> k in ks
    ensures |r| == |ks|
    decreases |ks|
  {
    if ks == {} then []
    else
      var m := Least(ks);
      var rest := Sorted(ks - {m});
      assert forall i :: 0 <= i < |rest| ==> rest[i] in ks - {m};
      [m] + rest
  }

  lemma {:induction false} AscendingUnique(a: seq<int>, b: seq<int>)
    requires Ascending(a) && Ascending(b)
    requires forall k :: k in a <==> k in b
    ensures a == b
  {
    assert b != [] ==> b[0] in b;
    if a != [] {
      assert a[0] in a;
      var i :| 0 <= i < |b| && b[i] == a[0];
      assert b[0] in b;
      var j :| 0 <= j < |a| && a[j] == b[0];
      assert a[0] == b[0];
      forall k ensures k in a[1..] <==> k in b[1..] {
        if k in a[1..] { assert k in b && k != a[0]; }
        if k in b[1..] { assert k in a && k != b[0]; }
      }
      AscendingUnique(a[1..], b[1..]);
      assert a == [a[0]] + a[1..];
      assert b == [b[0]] + b[1..];
    }
  }

  function Stamps(s: seq<Candle>): (r: seq<int>)
    ensures |r| == |s| && forall i :: 0 <= i < |s| ==> r[i] == s[i].ts
  {
    seq(|s|, i requires 0 <= i < |s| => s[i].ts)
  }

  /** Strictly increasing timestamps: sorted and without duplicates. */
  ghost predicate Timeline(s: seq<Candle>) {
    forall i, j :: 0 <= i < j < |s| ==> s[i].ts < s[j].ts
  }

  ghost predicate SortedByTime(s: seq<Candle>) {
    forall i, j :: 0 <= i < j < |s| ==> s[i].ts <= s[j].ts
  }

  /** Every entry is stored under its own timestamp. */
  ghost predicate Keyed(m: map<int, Candle>) {
    forall k :: k in m ==> m[k].ts == k
  }

  /** `[m[k] for k in ks]`. */
  function Pick(m: map<int, Candle>, ks: seq<int>): (r: seq<Candle>)
    requires forall i :: 0 <= i < |ks| ==> ks[i] in m
    ensures |r| == |ks|
    ensures forall i :: 0 <= i < |ks| ==> r[i] == m[ks[i]]
  {
    seq(|ks|, i requires 0 <= i < |ks| => m[ks[i]])
  }

  /** `[m[k] for k in sorted(m)]`. */
  function Rows(m: map<int, Candle>): seq<Candle> {
    Pick(m, Sorted(m.Keys))
  }

  lemma PickAscending(m: map<int, Candle>, ks: seq<int>)
    requires Keyed(m) && Ascending(ks) && forall k :: k in ks <==> k in m
    ensures forall i :: 0 <= i < |ks| ==> ks[i] in m
    ensures Timeline(Pick(m, ks)) && Stamps(Pick(m, ks)) == ks
    ensures forall c :: c in Pick(m, ks) <==> c.ts in m && m[c.ts] == c
  {
    assert forall i :: 0 <= i < |ks| ==> ks[i] in ks;
    var r := Pick(m, ks);
    hide Pick;
    forall c: Candle | c.ts in m && m[c.ts] == c ensures c in r {
      var i :| 0 <= i < |ks| && ks[i] == c.ts;
      assert r[i] == c;
    }
  }

  lemma RowsOf(m: map<int, Candle>)
    requires Keyed(m)
    ensures |Rows(m)| == |m|
    ensures Timeline(Rows(m))
    ensures Stamps(Rows(m)) == Sorted(m.Keys)
    ensures forall c :: c in Rows(m) <==> c.ts in m && m[c.ts] == c
  {
    PickAscending(m, Sorted(m.Keys));
    assert |m| == |m.Keys|;
  }

  /** A dictionary filled from a list in order; a later row replaces an earlier one. */
  function Index(s: seq<Candle>): map<int, Candle> {
    if s == [] then map[]
    else
      var n := |s| - 1;
      Index(s[..n])[s[n].ts := s[n]]
  }

  lemma {:induction false} IndexOf(s: seq<Candle>)
    ensures Keyed(Index(s))
    ensures forall k :: k in Index(s) ==> Index(s)[k] in s
    ensures forall c :: c in s ==> c.ts in Index(s)
  {
    if s != [] {
      var n := |s| - 1;
      assert s == s[..n] + [s[n]];
      IndexOf(s[..n]);
    }
  }

  lemma TimelinesEqual(a: seq<Candle>, b: seq<Candle>)
    requires Timeline(a) && Timeline(b)
    requires forall c :: c in a <==> c in b
    ensures a == b
  {
    var x, y := Stamps(a), Stamps(b);
    forall k ensures k in x <==> k in y {
      if k in x {
        var i :| 0 <= i < |x| && x[i] == k;
        assert a[i] in b;
        var j :| 0 <= j < |b| && b[j] == a[i];
        assert y[j] == k;
      }
      if k in y {
        var i :| 0 <= i < |y| && y[i] == k;
        assert b[i] in a;
        var j :| 0 <= j < |a| && a[j] == b[i];
        assert x[j] == k;
      }
    }
    AscendingUnique(x, y);
    forall i | 0 <= i < |a| ensures a[i] == b[i] {
      assert a[i] in b;
      var j :| 0 <= j < |b| && b[j] == a[i];
      assert x[i] == y[j] == x[j];
    }
  }

  lemma IndexOfTimeline(s: seq<Candle>)
    requires Timeline(s)
    ensures Keyed(Index(s))
    ensures forall c :: c in s <==> c.ts in Index(s) && Index(s)[c.ts] == c
  {
    var m := Index(s);
    IndexOf(s);
    hide Index;
    forall c | c in s ensures c.ts in m && m[c.ts] == c {
      var i :| 0 <= i < |s| && s[i] == c;
      assert s[i].ts in m;
      assert m[c.ts] in s;
      var j :| 0 <= j < |s| && s[j] == m[c.ts];
      assert i == j;
    }
  }

  /** Filling a dictionary from a timeline and reading it back in order gives the timeline. */
  lemma RowsOfIndex(s: seq<Candle>)
    requires Timeline(s)
    ensures Rows(Index(s)) == s
  {
    IndexOfTimeline(s);
    RowsOf(Index(s));
    hide Rows, Index;
    TimelinesEqual(Rows(Index(s)), s);
  }

  lemma SameEntries(m: map<int, Candle>, n: map<int, Candle>)
    requires forall k :: k in m <==> k in n
    requires forall k :: k in m ==> m[k] == n[k]
    ensures m == n
  {
    assert forall k :: k in m <==> k in n;
    assert forall k :: k in m ==> m[k] == n[k];
  }

  lemma IndexOfRows(m: map<int, Candle>)
    requires Keyed(m)
    ensures Index(Rows(m)) == m
  {
    hide Rows, Index, Timeline, Ascending, Sorted;
    var r := Rows(m);
    RowsOf(m);
    IndexOfTimeline(r);
    var n := Index(r);
    forall k ensures (k in m <==> k in n) && (k in m ==> m[k] == n[k]) {
      if k in m { assert m[k] in r; }
      if k in n { assert n[k] in r; }
    }
    SameEntries(m, n);
  }

  lemma IndexAppend(s: seq<Candle>, c: Candle)
    ensures Index(s + [c]) == Index(s)[c.ts := c]
  {
    assert (s + [c])[..|s|] == s;
  }

  // ---- adding rows to a dictionary ----

  /** New rows replace old ones. */
  function Patched(rows: map<int, Candle>, cs: seq<Candle>): map<int, Candle> {
    if cs == [] then rows
    else
      var n := |cs| - 1;
      Patched(rows, cs[..n])[cs[n].ts := cs[n]]
  }

  /** A row that exists is never replaced. */
  function Appended(rows: map<int, Candle>, cs: seq<Candle>): map<int, Candle> {
    if cs == [] then rows
    else
      var n := |cs| - 1;
      var r := Appended(rows, cs[..n]);
      if cs[n].ts in r then r else r[cs[n].ts := cs[n]]
  }

  lemma {:induction false} PatchedFrom(rows: map<int, Candle>, cs: seq<Candle>)
    ensures forall k :: k in Patched(rows, cs) ==> (k in rows && Patched(rows, cs)[k] == rows[k]) || Patched(rows, cs)[k] in cs
    ensures forall k :: k in rows ==> k in Patched(rows, cs)
  {
    if cs != [] {
      var n := |cs| - 1;
      PatchedFrom(rows, cs[..n]);
      assert cs == cs[..n] + [cs[n]];
      assert cs[n] in cs;
      assert forall c :: c in cs[..n] ==> c in cs;
    }
  }

  lemma {:induction false} AppendedFrom(rows: map<int, Candle>, cs: seq<Candle>)
    ensures forall k :: k in Appended(rows, cs) ==> (k in rows && Appended(rows, cs)[k] == rows[k]) || Appended(rows, cs)[k] in cs
    ensures forall k :: k in rows ==> k in Appended(rows, cs) && Appended(rows, cs)[k] == rows[k]
  {
    if cs != [] {
      var n := |cs| - 1;
      AppendedFrom(rows, cs[..n]);
      assert cs == cs[..n] + [cs[n]];
      assert cs[n] in cs;
      assert forall c :: c in cs[..n] ==> c in cs;
    }
  }

  // ---- splitting a map of rows at a timestamp ----

  function Upto(m: map<int, Candle>, t: int): (r: map<int, Candle>)
    ensures forall k :: k in r <==> k in m && k <= t
    ensures forall k :: k in r ==> r[k] == m[k]
  {
    map k | k in m && k <= t :: m[k]
  }

  function Beyond(m: map<int, Candle>, t: int): (r: map<int, Candle>)
    ensures forall k :: k in r <==> k in m && k > t
    ensures forall k :: k in r ==> r[k] == m[k]
  {
    map k | k in m && k > t :: m[k]
  }

  lemma SameUpto(a: map<int, Candle>, b: map<int, Candle>, t: int)
    requires forall k :: k <= t ==> (k in a <==> k in b)
    requires forall k :: k <= t && k in a ==> a[k] == b[k]
    ensures Upto(a, t) == Upto(b, t)
  {}

  lemma Concatenated(a: seq<Candle>, b: seq<Candle>)
    requires Timeline(a) && Timeline(b)
    requires forall x, y :: x in a && y in b ==> x.ts < y.ts
    ensures Timeline(a + b)
    ensures forall c :: c in a + b <==> c in a || c in b
  {
    assert forall i :: 0 <= i < |a| ==> a[i] in a;
    assert forall i :: 0 <= i < |b| ==> b[i] in b;
  }

  /** Rows up to `t`, then rows after `t`. */
  lemma RowsSplit(m: map<int, Candle>, t: int)
    requires Keyed(m)
    ensures Keyed(Upto(m, t)) && Keyed(Beyond(m, t))
    ensures Rows(m) == Rows(Upto(m, t)) + Rows(Beyond(m, t))
  {
    var lo, hi := Upto(m, t), Beyond(m, t);
    RowsOf(m);
    RowsOf(lo);
    RowsOf(hi);
    hide Rows, Upto, Beyond;
    Concatenated(Rows(lo), Rows(hi));
    TimelinesEqual(Rows(m), Rows(lo) + Rows(hi));
  }
}
