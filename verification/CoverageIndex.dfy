/** The coverage index: what is known about every month of a symbol, and its summary. */
module CoverageIndex {
  import opened Series
  import opened Months

  datatype Status = Done | Failed | Empty

  datatype Entry = Entry(status: Status, rows: nat, from: int, to: int, updated: int, retries: nat)

  type Coverage = map<Month, Entry>

  function WithStatus(m: Coverage, s: Status): (r: set<Month>)
    ensures forall k :: k in r <==> k in m && m[k].status == s
  {
    set k | k in m && m[k].status == s
  }

  /** Every month has exactly one status, so the three counts add up. */
  lemma StatusesAddUp(m: Coverage)
    ensures |WithStatus(m, Done)| + |WithStatus(m, Failed)| + |WithStatus(m, Empty)| == |m|
  {
    var d, f, e := WithStatus(m, Done), WithStatus(m, Failed), WithStatus(m, Empty);
    assert m.Keys == d + f + e;
    assert d !! f && (d + f) !! e;
    assert |m| == |m.Keys|;
  }

  // ---- the total number of rows ----

  /** `sum(v["rows"] for v in months.values())`, in any order. */
  ghost function Total(m: Coverage): nat
    decreases |m.Keys|
  {
    if m.Keys == {} then 0
    else
      var k :| k in m.Keys;
      m[k].rows + Total(m - {k})
  }

  lemma {:induction false} TotalTakesOut(m: Coverage, k: Month)
    requires k in m
    ensures Total(m) == m[k].rows + Total(m - {k})
    decreases |m.Keys|
  {
    var x :| x in m.Keys && Total(m) == m[x].rows + Total(m - {x});
    if x != k {
      TotalTakesOut(m - {x}, k);
      TotalTakesOut(m - {k}, x);
      assert m - {x} - {k} == m - {k} - {x};
    }
  }

  /** Recording a month changes the total by the difference in that month alone. */
  lemma TotalUpdate(m: Coverage, k: Month, e: Entry)
    ensures Total(m[k := e]) == Total(m - {k}) + e.rows
    ensures k !in m ==> Total(m - {k}) == Total(m)
  {
    TotalTakesOut(m[k := e], k);
    assert m[k := e] - {k} == m - {k};
    if k !in m { assert m - {k} == m; }
  }

  datatype Summary = Summary(total: nat, done: nat, failed: nat, empty: nat, rows: nat)

  /** The index file: absent, unreadable, or the months it holds. */
  datatype File = Absent | Corrupt | Saved(months: Coverage)

  function Loaded(f: File): Coverage {
    if f.Saved? then f.months else map[]
  }

  function DoneEntry(rows: nat, from: int, to: int, now: int, retries: nat): Entry {
    Entry(Done, rows, from, to, now, retries)
  }

  /** A failed month keeps what was known about its rows. */
  function FailedEntry(m: Coverage, k: Month, now: int, retries: nat): Entry {
    if k in m then Entry(Failed, m[k].rows, m[k].from, m[k].to, now, retries) else Entry(Failed, 0, 0, 0, now, retries)
  }

  function EmptyEntry(now: int): Entry {
    Entry(Empty, 0, 0, 0, now, 0)
  }

  class Index {
    var months: Coverage
    var file: File

    /** What a new process would load is what this one knows. */
    ghost predicate InStep()
      reads this
    {
      Loaded(file) == months
    }

    constructor (file: File)
      ensures this.file == file && months == Loaded(file) && InStep()
    {
      this.file := file;
      months := if file.Saved? then file.months else map[];
    }

    /** The change stays in memory even when saving raises. */
    method Save(written: bool)
      modifies this`file
      ensures file == if written then Saved(months) else old(file)
    {
      if written { file := Saved(months); }
    }

    method MarkDone(k: Month, rows: nat, from: int, to: int, retries: nat, now: int, written: bool)
      modifies this
      ensures months == old(months)[k := DoneEntry(rows, from, to, now, retries)]
      ensures written ==> InStep()
      ensures !written ==> file == old(file)
    {
      months := months[k := Entry(Done, rows, from, to, now, retries)];
      Save(written);
    }

    method MarkFailed(k: Month, retries: nat, now: int, written: bool)
      modifies this
      ensures months == old(months)[k := FailedEntry(old(months), k, now, retries)]
      ensures Total(months) == Total(old(months))
      ensures written ==> InStep()
      ensures !written ==> file == old(file)
    {
      var rows, from, to: int := 0, 0, 0;
      if k in months {
        rows, from, to := months[k].rows, months[k].from, months[k].to;
      }
      TotalUpdate(months, k, FailedEntry(months, k, now, retries));
      if k in months { TotalTakesOut(months, k); }
      months := months[k := Entry(Failed, rows, from, to, now, retries)];
      Save(written);
    }

    method MarkEmpty(k: Month, now: int, written: bool)
      modifies this
      ensures months == old(months)[k := EmptyEntry(now)]
      ensures written ==> InStep()
      ensures !written ==> file == old(file)
    {
      months := months[k := Entry(Empty, 0, 0, 0, now, 0)];
      Save(written);
    }

    method IsDone(k: Month) returns (r: bool)
      ensures r <==> k in WithStatus(months, Done)
    {
      r := k in months && months[k].status == Done;
    }

    method Summarise() returns (s: Summary)
      ensures s.total == |months| && Counts(s.done, s.failed, s.empty, s.rows, months)
      ensures s.done + s.failed + s.empty == s.total
    {
      hide *;
      var entries := months;
      var left := entries.Keys;
      var done, failed, empty, rows: nat := 0, 0, 0, 0;
      ghost var seen: Coverage := map[];
      CountNone();
      while left != {}
        invariant left <= entries.Keys
        invariant seen == entries - left
        invariant Counts(done, failed, empty, rows, seen)
        decreases |left|
      {
        var k :| k in left;
        var e := entries[k];
        PutBack(entries, left, k);
        CountOne(done, failed, empty, rows, seen, k, e);
        match e.status {
          case Done => done := done + 1;
          case Failed => failed := failed + 1;
          case Empty => empty := empty + 1;
        }
        rows := rows + e.rows;
        left := left - {k};
        seen := seen[k := e];
      }
      assert entries - {} == entries;
      CountsAddUp(done, failed, empty, rows, entries);
      return Summary(|entries|, done, failed, empty, rows);
    }
  }

  ghost predicate Counts(done: int, failed: int, empty: int, rows: int, m: Coverage) {
    && rows == Total(m)
    && done == |WithStatus(m, Done)| && failed == |WithStatus(m, Failed)| && empty == |WithStatus(m, Empty)|
  }

  lemma CountNone()
    ensures Counts(0, 0, 0, 0, map[])
  {
    assert WithStatus(map[], Done) == WithStatus(map[], Failed) == WithStatus(map[], Empty) == {};
  }

  lemma PutBack(m: Coverage, left: set<Month>, k: Month)
    requires k in left && left <= m.Keys
    ensures (m - left)[k := m[k]] == m - (left - {k})
    ensures k !in m - left
  {
    var a, b := (m - left)[k := m[k]], m - (left - {k});
    assert forall x :: x in a <==> x in b;
    assert forall x :: x in a ==> a[x] == b[x];
  }

  lemma CountsAddUp(done: int, failed: int, empty: int, rows: int, m: Coverage)
    requires Counts(done, failed, empty, rows, m)
    ensures done + failed + empty == |m|
  {
    StatusesAddUp(m);
  }

  lemma CountOne(done: int, failed: int, empty: int, rows: int, m: Coverage, k: Month, e: Entry)
    requires Counts(done, failed, empty, rows, m) && k !in m
    ensures e.status == Done ==> Counts(done + 1, failed, empty, rows + e.rows, m[k := e])
    ensures e.status == Failed ==> Counts(done, failed + 1, empty, rows + e.rows, m[k := e])
    ensures e.status == Empty ==> Counts(done, failed, empty + 1, rows + e.rows, m[k := e])
  {
    StatusUpdate(m, k, e);
    TotalUpdate(m, k, e);
    hide WithStatus, Total;
  }

  lemma StatusUpdate(m: Coverage, k: Month, e: Entry)
    requires k !in m
    ensures forall s :: |WithStatus(m[k := e], s)| == |WithStatus(m, s)| + (if e.status == s then 1 else 0)
  {
    forall s ensures |WithStatus(m[k := e], s)| == |WithStatus(m, s)| + (if e.status == s then 1 else 0) {
      assert WithStatus(m[k := e], s) == WithStatus(m, s) + if e.status == s then {k} else {};
    }
  }
}
