/** Calendar months and the month-by-month walk used by the sync planner and the coverage rebuild. */
module Months {

  datatype Month = Month(year: int, month: int)

  predicate IsMonth(m: Month) {
    1 <= m.month <= 12
  }

  /** Python's tuple comparison `(y, m) <= (y2, m2)`. */
  predicate UpTo(a: Month, b: Month) {
    a.year < b.year || (a.year == b.year && a.month <= b.month)
  }

  /** Months numbered consecutively, twelve to a year. */
  function Number(m: Month): int {
    12 * m.year + m.month - 1
  }

  function FromNumber(n: int): (m: Month)
    ensures IsMonth(m) && Number(m) == n
  {
    Month(n / 12, n % 12 + 1)
  }

  lemma NumberOrders(a: Month, b: Month)
    requires IsMonth(a) && IsMonth(b)
    ensures UpTo(a, b) <==> Number(a) <= Number(b)
    ensures Number(a) == Number(b) <==> a == b
  {}

  ghost predicate Distinct<T>(s: seq<T>) {
    forall i, j :: 0 <= i < j < |s| ==> s[i] != s[j]
  }

  /** Every month from `a` to `b`, both included, in calendar order. */
  function Span(a: Month, b: Month): (r: seq<Month>)
    ensures forall i :: 0 <= i < |r| ==> r[i] == FromNumber(Number(a) + i)
  {
    if Number(a) <= Number(b)
    then seq(Number(b) - Number(a) + 1, i requires 0 <= i => FromNumber(Number(a) + i))
    else []
  }

  lemma SpanIsTheRange(a: Month, b: Month)
    requires IsMonth(a) && IsMonth(b)
    ensures Distinct(Span(a, b))
    ensures forall m :: m in Span(a, b) <==> IsMonth(m) && UpTo(a, m) && UpTo(m, b)
  {
    var r := Span(a, b);
    assert forall i :: 0 <= i < |r| ==> Number(r[i]) == Number(a) + i;
    forall m ensures m in r <==> IsMonth(m) && UpTo(a, m) && UpTo(m, b) {
      if IsMonth(m) && UpTo(a, m) && UpTo(m, b) {
        NumberOrders(a, m);
        NumberOrders(m, b);
        var i := Number(m) - Number(a);
        assert r[i] == FromNumber(Number(m));
        NumberOrders(r[i], m);
      }
      if m in r {
        var i :| 0 <= i < |r| && r[i] == m;
        NumberOrders(a, m);
        NumberOrders(m, b);
      }
    }
  }

  /** The walk `m += 1; if m > 12: m, y = 1, y + 1`. */
  method MonthsInRange(from: Month, to: Month) returns (months: seq<Month>)
    requires IsMonth(from) && IsMonth(to)
    ensures months == Span(from, to)
  {
    hide UpTo;
    months := [];
    var y, m := from.year, from.month;
    while UpTo(Month(y, m), to)
      invariant IsMonth(Month(y, m))
      invariant Number(Month(y, m)) == Number(from) + |months|
      invariant forall i :: 0 <= i < |months| ==> months[i] == FromNumber(Number(from) + i)
      invariant months == [] || Number(Month(y, m)) <= Number(to) + 1
      decreases Number(to) - Number(Month(y, m))
    {
      NumberOrders(Month(y, m), to);
      NumberOrders(Month(y, m), FromNumber(Number(Month(y, m))));
      months := months + [Month(y, m)];
      m := m + 1;
      if m > 12 {
        m, y := 1, y + 1;
      }
    }
    NumberOrders(Month(y, m), to);
  }

  /** Keeps the months outside `skip`, in order. */
  function Without(s: seq<Month>, skip: set<Month>): (r: seq<Month>)
    ensures forall m :: m in r <==> m in s && m !in skip
    ensures |r| <= |s|
  {
    if s == [] then []
    else
      assert s == [s[0]] + s[1..];
      (if s[0] in skip then [] else [s[0]]) + Without(s[1..], skip)
  }

  lemma {:induction false} WithoutDistinct(s: seq<Month>, skip: set<Month>)
    requires Distinct(s)
    ensures Distinct(Without(s, skip))
  {
    if s != [] {
      WithoutDistinct(s[1..], skip);
      var rest := Without(s[1..], skip);
      assert forall i :: 0 <= i < |rest| ==> rest[i] in s[1..];
    }
  }

  /** The months of `s` that are skipped. */
  function Among(s: seq<Month>, skip: set<Month>): (r: set<Month>)
    ensures forall m :: m in r <==> m in s && m in skip
  {
    set m | m in skip && m in s
  }

  /** The plan splits the range exactly: every month is either skipped or planned, never both. */
  lemma {:induction false} WithoutSplits(s: seq<Month>, skip: set<Month>)
    requires Distinct(s)
    ensures |Without(s, skip)| + |Among(s, skip)| == |s|
  {
    if s == [] {
      assert Among(s, skip) == {};
    } else {
      WithoutSplits(s[1..], skip);
      assert s == [s[0]] + s[1..];
      assert s[0] !in s[1..];
      assert Among(s, skip) == Among(s[1..], skip) + if s[0] in skip then {s[0]} else {};
    }
  }
}
