/** Rebuilding the coverage index from the partition files found on disk. */
module RebuildCoverage {
  import opened Series
  import opened Months
  import opened CoverageIndex

  /** A partition file: too small to be valid, not readable, or with its number of rows and first and last
      timestamp. */
  datatype PartFile = Truncated | Unreadable | Holding(rows: nat, from: int, to: int)

  datatype Listed = Listed(month: Month, file: PartFile)

  datatype MonthInfo = MonthInfo(month: Month, status: Status, rows: nat, from: int, to: int)

  /** The directory listing: with zero-padded months, name order is calendar order. */
  ghost predicate Calendar(ls: seq<Listed>) {
    && (forall i :: 0 <= i < |ls| ==> IsMonth(ls[i].month))
    && forall i, j :: 0 <= i < j < |ls| ==> Number(ls[i].month) < Number(ls[j].month)
  }

  predicate HoldsRows(f: PartFile) {
    f.Holding? && f.rows > 0
  }

  function InfoOf(l: Listed): MonthInfo {
    if HoldsRows(l.file) then MonthInfo(l.month, Done, l.file.rows, l.file.from, l.file.to)
    else MonthInfo(l.month, Empty, 0, 0, 0)
  }

  function Infos(ls: seq<Listed>): (r: seq<MonthInfo>)
    ensures |r| == |ls| && forall i :: 0 <= i < |r| ==> r[i] == InfoOf(ls[i])
  {
    seq(|ls|, i requires 0 <= i < |ls| => InfoOf(ls[i]))
  }

  method ScanFiles(ls: seq<Listed>) returns (infos: seq<MonthInfo>)
    ensures infos == Infos(ls)
  {
    infos := [];
    for i := 0 to |ls|
      invariant |infos| == i && forall k :: 0 <= k < i ==> infos[k] == InfoOf(ls[k])
    {
      var info := MonthInfo(ls[i].month, Empty, 0, 0, 0);
      match ls[i].file {
        case Truncated =>
        case Unreadable =>
        case Holding(rows, from, to) =>
          if rows != 0 { info := MonthInfo(ls[i].month, Done, rows, from, to); }
      }
      infos := infos + [info];
    }
  }

  // ---- missing months ----

  function DoneMonths(infos: seq<MonthInfo>): seq<Month> {
    if infos == [] then []
    else
      var n := |infos| - 1;
      DoneMonths(infos[..n]) + if infos[n].status == Done then [infos[n].month] else []
  }

  function OnDisk(infos: seq<MonthInfo>): set<Month> {
    set i | i in infos :: i.month
  }

  function Missing(infos: seq<MonthInfo>): seq<Month> {
    var done := DoneMonths(infos);
    if done == [] then [] else Without(Span(done[0], done[|done| - 1]), OnDisk(infos))
  }

  lemma WithoutUnfolds(s: seq<Month>, skip: set<Month>)
    ensures Without(s, skip) == if s == [] then [] else (if s[0] in skip then [] else [s[0]]) + Without(s[1..], skip)
  {}

  lemma {:induction false} WithoutLast(s: seq<Month>, m: Month, skip: set<Month>)
    ensures Without(s + [m], skip) == Without(s, skip) + (if m in skip then [] else [m])
  {
    hide Without;
    WithoutUnfolds(s + [m], skip);
    WithoutUnfolds(s, skip);
    if s == [] {
      assert ([] + [m])[1..] == [];
      WithoutUnfolds([], skip);
    } else {
      WithoutLast(s[1..], m, skip);
      assert (s + [m])[1..] == s[1..] + [m];
    }
  }

  method FindMissing(infos: seq<MonthInfo>) returns (missing: seq<Month>)
    requires forall i :: i in infos ==> IsMonth(i.month)
    ensures missing == Missing(infos)
  {
    hide Span, Without, IsMonth;
    var done: seq<Month> := [];
    for i := 0 to |infos|
      invariant done == DoneMonths(infos[..i])
    {
      assert infos[..i + 1][..i] == infos[..i];
      if infos[i].status == Done { done := done + [infos[i].month]; }
    }
    assert infos[..|infos|] == infos;
    missing := [];
    if done != [] {
      DoneAreListed(infos);
      assert done[0] in done && done[|done| - 1] in done;
      missing := WalkMonths(done[0], done[|done| - 1], set i | i in infos :: i.month);
    }
  }

  lemma {:induction false} DoneAreListed(infos: seq<MonthInfo>)
    ensures forall m :: m in DoneMonths(infos) <==> exists i :: i in infos && IsDoneInfo(i, m)
  {
    if infos != [] {
      var n := |infos| - 1;
      DoneAreListed(infos[..n]);
      assert infos == infos[..n] + [infos[n]];
      forall m ensures m in DoneMonths(infos) <==> exists i :: i in infos && IsDoneInfo(i, m) {
        if i :| i in infos[..n] && IsDoneInfo(i, m) { assert i in infos; }
        if IsDoneInfo(infos[n], m) { assert infos[n] in infos; }
      }
    }
  }

  predicate IsDoneInfo(i: MonthInfo, m: Month) {
    i.month == m && i.status == Done
  }

  /** From the first to the last month, collecting those not in `present`. */
  method WalkMonths(first: Month, last: Month, present: set<Month>) returns (missing: seq<Month>)
    requires IsMonth(first) && IsMonth(last)
    ensures missing == Without(Span(first, last), present)
  {
    hide Without;
    WithoutUnfolds([], present);
    missing := [];
    var y, mo := first.year, first.month;
    ghost var walked: seq<Month> := [];
    while UpTo(Month(y, mo), last)
      invariant IsMonth(Month(y, mo))
      invariant Number(Month(y, mo)) == Number(first) + |walked|
      invariant forall i :: 0 <= i < |walked| ==> walked[i] == FromNumber(Number(first) + i)
      invariant walked == [] || Number(Month(y, mo)) <= Number(last) + 1
      invariant missing == Without(walked, present)
      decreases Number(last) - Number(Month(y, mo))
    {
      NumberOrders(Month(y, mo), last);
      NumberOrders(Month(y, mo), FromNumber(Number(Month(y, mo))));
      WithoutLast(walked, Month(y, mo), present);
      walked := walked + [Month(y, mo)];
      if Month(y, mo) !in present {
        missing := missing + [Month(y, mo)];
      }
      mo := mo + 1;
      if mo > 12 {
        mo, y := 1, y + 1;
      }
    }
    NumberOrders(Month(y, mo), last);
    assert walked == Span(first, last);
  }

  predicate BetweenDone(infos: seq<MonthInfo>, m: Month) {
    exists a, b :: a in DoneMonths(infos) && b in DoneMonths(infos) && Encloses(a, b, m)
  }

  predicate Encloses(a: Month, b: Month, m: Month) {
    UpTo(a, m) && UpTo(m, b)
  }

  ghost predicate InOrder(ms: seq<Month>) {
    && (forall i :: 0 <= i < |ms| ==> IsMonth(ms[i]))
    && forall i, j :: 0 <= i < j < |ms| ==> Number(ms[i]) < Number(ms[j])
  }

  lemma DoneUnfolds(ls: seq<Listed>)
    requires ls != []
    ensures var n := |ls| - 1;
      DoneMonths(Infos(ls)) == DoneMonths(Infos(ls[..n])) + if HoldsRows(ls[n].file) then [ls[n].month] else []
  {
    assert Infos(ls)[..|ls| - 1] == Infos(ls[..|ls| - 1]);
  }

  lemma {:induction false} DoneInOrder(ls: seq<Listed>)
    requires Calendar(ls)
    ensures InOrder(DoneMonths(Infos(ls)))
    ensures forall m :: m in DoneMonths(Infos(ls)) ==> ls != [] && Number(m) <= Number(ls[|ls| - 1].month)
  {
    if ls != [] {
      var n := |ls| - 1;
      DoneInOrder(ls[..n]);
      DoneUnfolds(ls);
      var front := DoneMonths(Infos(ls[..n]));
      assert forall i :: 0 <= i < |front| ==> front[i] in front;
      assert n > 0 ==> ls[..n][n - 1] == ls[n - 1];
      hide Infos, DoneMonths, HoldsRows;
    }
  }

  /** For a listing in any order: a month is reported missing exactly when it is not on disk, in any state,
      and lies between the done month listed first and the one listed last. Each is reported once. */
  lemma MissingOfAnyListing(ls: seq<Listed>)
    requires forall i :: 0 <= i < |ls| ==> IsMonth(ls[i].month)
    ensures Distinct(Missing(Infos(ls)))
    ensures forall m :: m in Missing(Infos(ls)) <==>
      && IsMonth(m) && m !in OnDisk(Infos(ls))
      && var done := DoneMonths(Infos(ls)); done != [] && Encloses(done[0], done[|done| - 1], m)
  {
    var infos := Infos(ls);
    var done := DoneMonths(infos);
    InfosAreMonths(ls);
    DoneAreListed(infos);
    if done != [] {
      var first, last := done[0], done[|done| - 1];
      assert first in done && last in done;
      SpanIsTheRange(first, last);
      WithoutDistinct(Span(first, last), OnDisk(infos));
    }
  }

  /** A month without a file between two months with rows. */
  ghost predicate Hole(infos: seq<MonthInfo>, m: Month) {
    IsMonth(m) && m !in OnDisk(infos) && BetweenDone(infos, m)
  }

  /** A listing hides a hole exactly when the hole lies outside the done months listed first and last. */
  lemma HoleIsHiddenIff(ls: seq<Listed>, m: Month)
    requires (forall i :: 0 <= i < |ls| ==> IsMonth(ls[i].month)) && Hole(Infos(ls), m)
    ensures DoneMonths(Infos(ls)) != []
    ensures var done := DoneMonths(Infos(ls)); m !in Missing(Infos(ls)) <==> !Encloses(done[0], done[|done| - 1], m)
  {
    MissingOfAnyListing(ls);
    hide Infos, DoneMonths, OnDisk, Missing, Encloses, IsMonth;
  }

  /** With the listing in calendar order, a month is reported missing exactly when it is a hole. */
  lemma MissingIs(ls: seq<Listed>)
    requires Calendar(ls)
    ensures forall m :: m in Missing(Infos(ls)) <==> Hole(Infos(ls), m)
  {
    var infos := Infos(ls);
    MissingOfAnyListing(ls);
    DoneInOrder(ls);
    hide Infos, DoneMonths, OnDisk, Missing, Encloses;
    forall m | IsMonth(m) ensures m in Missing(infos) <==> Hole(infos, m) { BetweenIsOutermost(infos, m); }
  }

  /** In order, the months between some two are those between the first and the last. */
  lemma Outermost(done: seq<Month>, a: Month, b: Month, m: Month)
    requires InOrder(done) && a in done && b in done && IsMonth(m) && Encloses(a, b, m)
    ensures Encloses(done[0], done[|done| - 1], m)
  {
    NumberOrders(a, m);
    NumberOrders(m, b);
    NumberOrders(done[0], m);
    NumberOrders(m, done[|done| - 1]);
    hide Number;
  }

  lemma BetweenIsOutermost(infos: seq<MonthInfo>, m: Month)
    requires InOrder(DoneMonths(infos)) && IsMonth(m)
    ensures var done := DoneMonths(infos); BetweenDone(infos, m) <==> done != [] && Encloses(done[0], done[|done| - 1], m)
  {
    hide DoneMonths, InOrder, Encloses;
    var done := DoneMonths(infos);
    if BetweenDone(infos, m) {
      var a, b :| a in done && b in done && Encloses(a, b, m);
      Outermost(done, a, b, m);
    }
    if done != [] { assert done[0] in done && done[|done| - 1] in done; }
  }

  /** The calendar order matters: with names the store does not write itself, not padded with a zero,
      "month=10" sorts before "month=2" and the hole between February and October is not reported. */
  lemma UnpaddedMonthsHideAHole()
    ensures var infos := Infos([Listed(Month(2024, 10), Holding(5, 1, 2)), Listed(Month(2024, 2), Holding(5, 1, 2))]);
      Missing(infos) == [] && Hole(infos, Month(2024, 5))
  {
    var infos := Infos([Listed(Month(2024, 10), Holding(5, 1, 2)), Listed(Month(2024, 2), Holding(5, 1, 2))]);
    assert infos[..1][..0] == [] && infos[..1] == [infos[0]];
    assert DoneMonths([infos[0]]) == [Month(2024, 10)];
    assert DoneMonths(infos) == [Month(2024, 10), Month(2024, 2)];
    assert Encloses(Month(2024, 2), Month(2024, 10), Month(2024, 5));
  }

  // ---- the new index ----

  function EntryOf(i: MonthInfo, now: int): Entry {
    Entry(i.status, i.rows, i.from, i.to, now, 0)
  }

  function NewMonths(infos: seq<MonthInfo>, now: int): Coverage {
    if infos == [] then map[]
    else
      var n := |infos| - 1;
      NewMonths(infos[..n], now)[infos[n].month := EntryOf(infos[n], now)]
  }

  /** An entry without the fields that the comparison ignores. */
  function Signature(m: Coverage): map<Month, (Status, nat, int, int)> {
    map k | k in m :: (m[k].status, m[k].rows, m[k].from, m[k].to)
  }

  function Differs(file: File, latest: Coverage): bool {
    !(file.Saved? && Signature(file.months) == Signature(latest))
  }

  /** The file after a rebuild: rewritten only when it differs and there is something to replace or to say. */
  function Rewritten(file: File, latest: Coverage): File {
    if Differs(file, latest) && (latest != map[] || !file.Absent?) then Saved(latest) else file
  }

  datatype Report = Report(done: nat, empty: nat, missing: seq<Month>, rows: nat, from: Option<Month>, to: Option<Month>, changed: bool)

  function DoneNumbers(m: Coverage): seq<int> {
    Sorted(set k | k in WithStatus(m, Done) :: Number(k))
  }

  function FirstDone(m: Coverage): Option<Month> {
    var keys := DoneNumbers(m);
    if keys == [] then None else Some(FromNumber(keys[0]))
  }

  function LastDone(m: Coverage): Option<Month> {
    var keys := DoneNumbers(m);
    if keys == [] then None else Some(FromNumber(keys[|keys| - 1]))
  }

  /** The report on the new entries `m`. */
  ghost predicate Reports(r: Report, infos: seq<MonthInfo>, m: Coverage, file: File) {
    && r.missing == Missing(infos) && r.changed == Differs(file, m)
    && r.done == |WithStatus(m, Done)| && r.empty == |WithStatus(m, Empty)| && r.rows == Total(m)
    && r.from == FirstDone(m) && r.to == LastDone(m)
  }

  method RebuildCoverageIndex(ls: seq<Listed>, file: File, now: int) returns (r: Report, after: File)
    requires forall i :: 0 <= i < |ls| ==> IsMonth(ls[i].month)
    ensures after == Rewritten(file, NewMonths(Infos(ls), now))
    ensures Reports(r, Infos(ls), NewMonths(Infos(ls), now), file)
  {
    hide Infos, InfoOf, Missing, NewMonths, WithStatus, Total, Signature, DoneMonths, Sorted, IsMonth;
    var infos := ScanFiles(ls);
    InfosAreMonths(ls);
    var missing := FindMissing(infos);
    var newMonths := CollectMonths(infos, now);
    var changed := Differs(file, newMonths);
    after := file;
    if changed && (newMonths != map[] || !file.Absent?) {
      after := Saved(newMonths);
    }
    var counts := SummariseMonths(newMonths);
    r := Report(counts.done, counts.empty, missing, counts.rows, FirstDone(newMonths), LastDone(newMonths), changed);
  }

  lemma InfosAreMonths(ls: seq<Listed>)
    requires forall i :: 0 <= i < |ls| ==> IsMonth(ls[i].month)
    ensures forall i :: i in Infos(ls) ==> IsMonth(i.month)
  {
    hide IsMonth;
  }

  method CollectMonths(infos: seq<MonthInfo>, now: int) returns (newMonths: Coverage)
    ensures newMonths == NewMonths(infos, now)
  {
    newMonths := map[];
    for i := 0 to |infos|
      invariant newMonths == NewMonths(infos[..i], now)
    {
      assert infos[..i + 1][..i] == infos[..i];
      newMonths := newMonths[infos[i].month := Entry(infos[i].status, infos[i].rows, infos[i].from, infos[i].to, now, 0)];
    }
    assert infos[..|infos|] == infos;
  }

  method SummariseMonths(m: Coverage) returns (s: Summary)
    ensures s.done == |WithStatus(m, Done)| && s.empty == |WithStatus(m, Empty)| && s.rows == Total(m)
  {
    var index := new Index(Saved(m));
    s := index.Summarise();
  }

  // ---- the properties ----

  predicate IsListed(ls: seq<Listed>, k: Month) {
    exists i :: 0 <= i < |ls| && ls[i].month == k
  }

  lemma NewMonthsUnfold(ls: seq<Listed>, now: int)
    requires ls != []
    ensures var n := |ls| - 1;
      NewMonths(Infos(ls), now) == NewMonths(Infos(ls[..n]), now)[ls[n].month := EntryOf(InfoOf(ls[n]), now)]
  {
    assert Infos(ls)[..|ls| - 1] == Infos(ls[..|ls| - 1]);
  }

  lemma {:induction false} NewMonthsKey(ls: seq<Listed>, now: int, k: Month)
    ensures k in NewMonths(Infos(ls), now) <==> IsListed(ls, k)
  {
    if ls != [] {
      var n := |ls| - 1;
      NewMonthsKey(ls[..n], now, k);
      NewMonthsUnfold(ls, now);
      hide NewMonths, Infos;
      assert IsListed(ls, k) <==> IsListed(ls[..n], k) || ls[n].month == k by {
        if i :| 0 <= i < n && ls[..n][i].month == k { assert ls[i].month == k; }
        if ls[n].month == k { assert IsListed(ls, k); }
      }
    }
  }

  lemma {:induction false} NewMonthsValue(ls: seq<Listed>, now: int, i: nat)
    requires Calendar(ls) && i < |ls|
    ensures ls[i].month in NewMonths(Infos(ls), now)
    ensures NewMonths(Infos(ls), now)[ls[i].month] == EntryOf(InfoOf(ls[i]), now)
  {
    var n := |ls| - 1;
    NewMonthsUnfold(ls, now);
    hide NewMonths, Infos, InfoOf, EntryOf;
    if i < n {
      NewMonthsValue(ls[..n], now, i);
      assert Number(ls[i].month) < Number(ls[n].month);
    }
  }

  lemma {:induction false} NewMonthsIgnoreTheClock(infos: seq<MonthInfo>, now: int, later: int)
    ensures Signature(NewMonths(infos, now)) == Signature(NewMonths(infos, later))
    ensures NewMonths(infos, now).Keys == NewMonths(infos, later).Keys
  {
    if infos != [] {
      var n := |infos| - 1;
      NewMonthsIgnoreTheClock(infos[..n], now, later);
      SignatureUpdate(NewMonths(infos[..n], now), infos[n].month, EntryOf(infos[n], now));
      SignatureUpdate(NewMonths(infos[..n], later), infos[n].month, EntryOf(infos[n], later));
      hide Signature;
    }
  }

  lemma SignatureUpdate(m: Coverage, k: Month, e: Entry)
    ensures Signature(m[k := e]) == Signature(m)[k := (e.status, e.rows, e.from, e.to)]
  {}

  /** A second rebuild of the same disk, at any later time, writes nothing, and reports no change exactly
      when there was an index file before the first one or some month is on disk. */
  lemma SecondRebuild(ls: seq<Listed>, file: File, now: int, later: int)
    ensures var once := Rewritten(file, NewMonths(Infos(ls), now));
      && Rewritten(once, NewMonths(Infos(ls), later)) == once
      && (!Differs(once, NewMonths(Infos(ls), later)) <==> !file.Absent? || ls != [])
  {
    var infos := Infos(ls);
    NewMonthsIgnoreTheClock(infos, now, later);
    assert ls != [] ==> NewMonths(infos, now) != map[] by {
      if ls != [] { assert infos[|infos| - 1].month in NewMonths(infos, now); }
    }
    assert ls == [] ==> infos == [];
    hide Infos, Signature;
  }

  /** After a rebuild the index knows exactly the months on disk, and calls done exactly those whose file
      holds rows: a failed mark, or an empty mark without a file, is forgotten. */
  lemma OnlyFilesAreRemembered(ls: seq<Listed>, file: File, now: int)
    requires Calendar(ls) && Rewritten(file, NewMonths(Infos(ls), now)).Saved?
    ensures var months := Rewritten(file, NewMonths(Infos(ls), now)).months;
      && (forall k :: k in months <==> IsListed(ls, k))
      && forall i :: 0 <= i < |ls| ==> ls[i].month in months && months[ls[i].month].status == if HoldsRows(ls[i].file) then Done else Empty
  {
    var latest := NewMonths(Infos(ls), now);
    var months := Rewritten(file, latest).months;
    hide NewMonths, Infos;
    assert Signature(months) == Signature(latest);
    SameSignature(months, latest);
    hide Rewritten, Signature;
    forall k ensures k in months <==> IsListed(ls, k) { NewMonthsKey(ls, now, k); }
    forall i | 0 <= i < |ls|
      ensures ls[i].month in months && months[ls[i].month].status == if HoldsRows(ls[i].file) then Done else Empty
    {
      NewMonthsValue(ls, now, i);
    }
  }

  lemma SameSignature(a: Coverage, b: Coverage)
    requires Signature(a) == Signature(b)
    ensures forall k :: k in a <==> k in b
    ensures forall k :: k in a ==> a[k].status == b[k].status
  {
    forall k ensures (k in a <==> k in b) && (k in a ==> a[k].status == b[k].status) {
      assert k in a <==> k in Signature(a);
      assert k in b <==> k in Signature(b);
      if k in a { assert Signature(a)[k] == Signature(b)[k]; }
    }
  }

  function RowsOnDisk(ls: seq<Listed>): nat {
    if ls == [] then 0
    else
      var n := |ls| - 1;
      RowsOnDisk(ls[..n]) + if HoldsRows(ls[n].file) then ls[n].file.rows else 0
  }

  /** Every listed month is counted once, as done or as empty, and the total is the rows of all files. */
  lemma {:induction false} TotalsAreExact(ls: seq<Listed>, now: int)
    requires Calendar(ls)
    ensures var m := NewMonths(Infos(ls), now);
      Counts(|WithStatus(m, Done)|, 0, |ls| - |WithStatus(m, Done)|, RowsOnDisk(ls), m)
  {
    if ls == [] {
      assert NewMonths(Infos(ls), now) == map[];
      CountNone();
    } else {
      var n := |ls| - 1;
      TotalsAreExact(ls[..n], now);
      NewMonthsUnfold(ls, now);
      NewMonthsKey(ls[..n], now, ls[n].month);
      assert !IsListed(ls[..n], ls[n].month);
      var m := NewMonths(Infos(ls[..n]), now);
      var e := EntryOf(InfoOf(ls[n]), now);
      hide NewMonths, Infos, WithStatus, Counts;
      CountOne(|WithStatus(m, Done)|, 0, n - |WithStatus(m, Done)|, RowsOnDisk(ls[..n]), m, ls[n].month, e);
      StatusUpdate(m, ls[n].month, e);
    }
  }
}
