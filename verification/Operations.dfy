/** The operation store: a dictionary of operations in memory and an append-only log of every change,
    from which the store is rebuilt after a restart. */
module Operations {
  import opened Series

  /** "in_progress", "pending", "confirmed" and "error". */
  datatype Status = InProgress | Pending | Confirmed | Failed

  datatype Operation = Operation(id: string, kind: string, venue: string, symbol: string, positionId: string, txHash: string,
                                 status: Status, createdAt: int, lastUpdate: int, error: Option<string>)

  /** A line of the log: a JSON object with an id, a line that is skipped (blank, not JSON, or without an
      id), or JSON that is not an object, at which reading stops. */
  datatype Line = Event(op: Operation) | Skipped | NotAnObject

  type Store = map<string, Operation>

  datatype Book = Book(store: Store, log: seq<Line>)

  const REHYDRATE_MAX_LINES: nat := 5000

  // ---- reading the log back ----

  function ReplayOnto(store: Store, lines: seq<Line>): Store
    decreases |lines|
  {
    if lines == [] then store
    else
      match lines[0]
      case NotAnObject => store
      case Skipped => ReplayOnto(store, lines[1..])
      case Event(op) => ReplayOnto(if op.id != "" then store[op.id := op] else store, lines[1..])
  }

  function Replay(lines: seq<Line>): Store {
    ReplayOnto(map[], lines)
  }

  function Tail(log: seq<Line>): seq<Line> {
    if |log| > REHYDRATE_MAX_LINES then log[|log| - REHYDRATE_MAX_LINES..] else log
  }

  function Rehydrated(b: Book): Book {
    b.(store := ReplayOnto(b.store, Tail(b.log)))
  }

  /** No line stops the reading. The service itself writes only objects. */
  predicate Readable(lines: seq<Line>) {
    NotAnObject !in lines
  }

  predicate Mentions(lines: seq<Line>, id: string) {
    id != "" && exists i :: 0 <= i < |lines| && lines[i].Event? && lines[i].op.id == id
  }

  /** Reading a readable log overlays what it says on what was there. */
  lemma {:induction false} ReplayOverlays(store: Store, lines: seq<Line>)
    requires Readable(lines)
    ensures ReplayOnto(store, lines) == store + Replay(lines)
    decreases |lines|
  {
    if lines != [] {
      var rest := lines[1..];
      assert lines[0] in lines;
      if lines[0].Event? && lines[0].op.id != "" {
        var op := lines[0].op;
        ReplayOverlays(store[op.id := op], rest);
        ReplayOverlays(map[op.id := op], rest);
      } else {
        ReplayOverlays(store, rest);
      }
    }
  }

  lemma {:induction false} ReplayConcat(store: Store, a: seq<Line>, b: seq<Line>)
    requires Readable(a)
    ensures ReplayOnto(store, a + b) == ReplayOnto(ReplayOnto(store, a), b)
    decreases |a|
  {
    if a == [] {
      assert a + b == b;
    } else {
      assert (a + b)[1..] == a[1..] + b;
      assert a[0] in a;
      if a[0].Event? && a[0].op.id != "" {
        ReplayConcat(store[a[0].op.id := a[0].op], a[1..], b);
      } else {
        ReplayConcat(store, a[1..], b);
      }
    }
  }

  lemma ReplaySplits(a: seq<Line>, b: seq<Line>)
    requires Readable(a) && Readable(b)
    ensures Replay(a + b) == Replay(a) + Replay(b)
  {
    ReplayConcat(map[], a, b);
    ReplayOverlays(Replay(a), b);
  }

  lemma {:induction false} ReplayKeys(lines: seq<Line>, id: string)
    requires Readable(lines)
    ensures id in Replay(lines) <==> Mentions(lines, id)
    decreases |lines|
  {
    if lines != [] {
      assert lines == lines[..1] + lines[1..] && lines[0] in lines;
      ReplaySplits(lines[..1], lines[1..]);
      ReplayKeys(lines[1..], id);
      assert lines[..1][1..] == [];
      hide Replay, Readable;
      assert Mentions(lines, id) <==> Mentions(lines[1..], id) || (id != "" && lines[0].Event? && lines[0].op.id == id) by {
        if i :| 0 <= i < |lines[1..]| && lines[1..][i].Event? && lines[1..][i].op.id == id { assert lines[i + 1].op.id == id; }
        if i :| 0 <= i < |lines| && lines[i].Event? && lines[i].op.id == id { assert i > 0 ==> lines[1..][i - 1].op.id == id; }
      }
      HeadKey(lines[0], id);
      assert lines[..1] == [lines[0]];
    }
  }

  lemma ReplayOneLine(line: Line)
    ensures Replay([line]) == if line.Event? && line.op.id != "" then map[line.op.id := line.op] else map[]
  {
    var none: Store := map[];
    assert [line][1..] == [];
    if line.Event? && line.op.id != "" {
      assert Replay([line]) == ReplayOnto(none[line.op.id := line.op], []);
    } else if line != NotAnObject {
      assert Replay([line]) == ReplayOnto(none, []);
    }
  }

  lemma HeadKey(line: Line, id: string)
    ensures id in Replay([line]) <==> id != "" && line.Event? && line.op.id == id
  {
    ReplayOneLine(line);
  }

  // ---- changing an operation ----

  datatype Command =
    | Create(id: string, kind: string, venue: string, symbol: string, positionId: string, now: int, written: bool)
    | Update(id: string, status: Status, positionId: string, txHash: string, error: Option<string>, now: int, written: bool)

  function NewOperation(id: string, kind: string, venue: string, symbol: string, positionId: string, now: int): Operation {
    Operation(id, kind, venue, symbol, positionId, "", InProgress, now, now, None)
  }

  function Changed(op: Operation, status: Status, positionId: string, txHash: string, error: Option<string>, now: int): Operation {
    op.(lastUpdate := now, status := status,
        positionId := if positionId != "" then positionId else op.positionId,
        txHash := if txHash != "" then txHash else op.txHash,
        error := if error.Some? then error else op.error)
  }

  /** Store an operation under its own id, and log it if the append succeeds. */
  function Recorded(b: Book, op: Operation, written: bool): Book {
    Book(b.store[op.id := op], if written then b.log + [Event(op)] else b.log)
  }

  function Apply(b: Book, c: Command): Book {
    match c
    case Create(id, kind, venue, symbol, positionId, now, written) =>
      Recorded(b, NewOperation(id, kind, venue, symbol, positionId, now), written)
    case Update(id, status, positionId, txHash, error, now, written) =>
      if id !in b.store then b
      else Recorded(b, Changed(b.store[id], status, positionId, txHash, error, now), written)
  }

  function ApplyAll(b: Book, cs: seq<Command>): Book {
    if cs == [] then b else Apply(ApplyAll(b, cs[..|cs| - 1]), cs[|cs| - 1])
  }

  predicate AllWritten(cs: seq<Command>) {
    forall i :: 0 <= i < |cs| ==> cs[i].written
  }

  /** Every operation is stored under its own id, and every id can be read back. */
  predicate KeyedById(b: Book) {
    forall id :: id in b.store ==> b.store[id].id == id && id != ""
  }

  predicate Named(c: Command) {
    c.Create? ==> c.id != ""
  }

  /** Reading the log again would change nothing. */
  predicate InStep(b: Book) {
    Rehydrated(b).store == b.store
  }

  // ---- the properties ----

  lemma InStepIs(b: Book)
    requires Readable(Tail(b.log))
    ensures InStep(b) <==> b.store + Replay(Tail(b.log)) == b.store
    ensures InStep(b) <==> forall id :: id in Replay(Tail(b.log)) ==> id in b.store && b.store[id] == Replay(Tail(b.log))[id]
  {
    ReplayOverlays(b.store, Tail(b.log));
    var s, r := b.store, Replay(Tail(b.log));
    hide Replay, Tail, ReplayOnto;
    if s + r == s {
      forall id | id in r ensures id in s && s[id] == r[id] {
        assert id in s + r && (s + r)[id] == r[id];
      }
    }
  }

  lemma TailReadable(log: seq<Line>)
    requires Readable(log)
    ensures Readable(Tail(log))
  {}

  lemma TailOfAppend(log: seq<Line>, line: Line)
    ensures exists k :: 0 <= k <= |Tail(log)| && Tail(log + [line]) == Tail(log)[k..] + [line]
  {
    var k := if |log| >= REHYDRATE_MAX_LINES then 1 else 0;
    assert Tail(log + [line]) == Tail(log)[k..] + [line];
  }

  lemma RecordedInStep(b: Book, op: Operation)
    requires Readable(b.log) && InStep(b) && op.id != ""
    ensures Readable(Recorded(b, op, true).log) && InStep(Recorded(b, op, true))
  {
    var c := Recorded(b, op, true);
    var t := Tail(b.log);
    TailReadable(b.log);
    assert Readable(c.log);
    TailReadable(c.log);
    TailOfAppend(b.log, Event(op));
    var k :| 0 <= k <= |t| && Tail(c.log) == t[k..] + [Event(op)];
    assert t == t[..k] + t[k..];
    ReplaySplits(t[..k], t[k..]);
    ReplaySplits(t[k..], [Event(op)]);
    ReplayOne(op);
    InStepIs(b);
    InStepIs(c);
    hide *;
  }

  lemma ReplayOne(op: Operation)
    requires op.id != ""
    ensures Replay([Event(op)]) == map[op.id := op]
  {
    ReplayOneLine(Event(op));
  }

  lemma ApplyKeeps(b: Book, c: Command)
    requires Readable(b.log) && KeyedById(b) && InStep(b) && Named(c) && c.written
    ensures Readable(Apply(b, c).log) && KeyedById(Apply(b, c)) && InStep(Apply(b, c))
  {
    hide Readable, InStep;
    match c
    case Create(id, kind, venue, symbol, positionId, now, written) =>
      RecordedInStep(b, NewOperation(id, kind, venue, symbol, positionId, now));
    case Update(id, status, positionId, txHash, error, now, written) =>
      if id in b.store { RecordedInStep(b, Changed(b.store[id], status, positionId, txHash, error, now)); }
  }

  lemma {:induction false} ApplyAllKeeps(b: Book, cs: seq<Command>)
    requires Readable(b.log) && KeyedById(b) && InStep(b)
    requires AllWritten(cs) && forall i :: 0 <= i < |cs| ==> Named(cs[i])
    ensures Readable(ApplyAll(b, cs).log) && KeyedById(ApplyAll(b, cs)) && InStep(ApplyAll(b, cs))
  {
    if cs != [] {
      var n := |cs| - 1;
      hide Readable, KeyedById, InStep, Named;
      ApplyAllKeeps(b, cs[..n]);
      ApplyKeeps(ApplyAll(b, cs[..n]), cs[n]);
    }
  }

  /** A service that has just read its log. */
  function Started(log: seq<Line>): Book {
    Rehydrated(Book(map[], log))
  }

  lemma {:induction false} ReplayKeyed(lines: seq<Line>)
    requires Readable(lines)
    ensures forall id :: id in Replay(lines) ==> id != "" && Replay(lines)[id].id == id
    decreases |lines|
  {
    if lines != [] {
      assert lines == [lines[0]] + lines[1..] && lines[0] in lines;
      ReplaySplits([lines[0]], lines[1..]);
      ReplayKeyed(lines[1..]);
      ReplayOneLine(lines[0]);
    }
  }

  lemma StartedInStep(log: seq<Line>)
    requires Readable(log)
    ensures Readable(Started(log).log) && KeyedById(Started(log)) && InStep(Started(log))
  {
    TailReadable(log);
    ReplayKeyed(Tail(log));
    InStepIs(Started(log));
  }

  /** While appends succeed, rehydrating the live store changes nothing, whatever was created and updated. */
  lemma {:induction false} RehydratingLiveStoreChangesNothing(log: seq<Line>, cs: seq<Command>)
    requires Readable(log)
    requires AllWritten(cs) && forall i :: 0 <= i < |cs| ==> Named(cs[i])
    ensures Rehydrated(ApplyAll(Started(log), cs)) == ApplyAll(Started(log), cs)
  {
    StartedInStep(log);
    ApplyAllKeeps(Started(log), cs);
  }

  /** The later store is the earlier one overlaid with the replay of the lines written in between. */
  predicate GrewTo(b: Book, end: Book) {
    var k := |b.log|;
    k <= |end.log| && end.log[..k] == b.log && Readable(end.log[k..]) && end.store == b.store + Replay(end.log[k..])
  }

  lemma RecordedGrows(b: Book, mid: Book, op: Operation)
    requires GrewTo(b, mid) && op.id != ""
    ensures GrewTo(b, Recorded(mid, op, true))
  {
    var k := |b.log|;
    var end := Recorded(mid, op, true);
    var lines := mid.log[k..];
    assert end.log[k..] == lines + [Event(op)];
    assert end.log[..k] == mid.log[..k];
    ReplaySplits(lines, [Event(op)]);
    ReplayOne(op);
    hide Replay;
  }

  lemma {:induction false} LogOnlyGrows(b: Book, cs: seq<Command>)
    requires AllWritten(cs) && KeyedById(b) && forall i :: 0 <= i < |cs| ==> Named(cs[i])
    ensures KeyedById(ApplyAll(b, cs)) && GrewTo(b, ApplyAll(b, cs))
  {
    if cs == [] {
      assert b.log[|b.log|..] == [];
    } else {
      var n := |cs| - 1;
      LogOnlyGrows(b, cs[..n]);
      ApplyGrows(b, ApplyAll(b, cs[..n]), cs[n]);
    }
  }

  lemma ApplyGrows(b: Book, mid: Book, c: Command)
    requires KeyedById(mid) && GrewTo(b, mid) && Named(c) && c.written
    ensures KeyedById(Apply(mid, c)) && GrewTo(b, Apply(mid, c))
  {
    hide GrewTo;
    match c
    case Create(id, kind, venue, symbol, positionId, now, written) =>
      RecordedGrows(b, mid, NewOperation(id, kind, venue, symbol, positionId, now));
    case Update(id, status, positionId, txHash, error, now, written) =>
      if id in mid.store { RecordedGrows(b, mid, Changed(mid.store[id], status, positionId, txHash, error, now)); }
  }

  /** The live store is what was read at the start overlaid with the replay of everything logged since. */
  lemma {:induction false} LiveStoreIsReplay(log: seq<Line>, cs: seq<Command>)
    requires Readable(log)
    requires AllWritten(cs) && forall i :: 0 <= i < |cs| ==> Named(cs[i])
    ensures var end := ApplyAll(Started(log), cs);
      log <= end.log && end.store == Replay(Tail(log)) + Replay(end.log[|log|..])
  {
    StartedInStep(log);
    LogOnlyGrows(Started(log), cs);
  }

  /** From an empty log, or one short enough to be read whole, the live store is the replay of the log. */
  lemma {:induction false} LiveStoreIsWholeReplay(log: seq<Line>, cs: seq<Command>)
    requires Readable(log) && |log| <= REHYDRATE_MAX_LINES
    requires AllWritten(cs) && forall i :: 0 <= i < |cs| ==> Named(cs[i])
    ensures ApplyAll(Started(log), cs).store == Replay(ApplyAll(Started(log), cs).log)
  {
    var end := ApplyAll(Started(log), cs);
    StartedInStep(log);
    LogOnlyGrows(Started(log), cs);
    LiveStoreIsReplay(log, cs);
    assert end.log == log + end.log[|log|..];
    assert Tail(log) == log;
    hide ApplyAll, Replay, Started;
    ReplaySplits(log, end.log[|log|..]);
  }

  /** A restart recovers exactly the operations with a line among the last ones, each in its live state. */
  lemma {:induction false} RestartRecovers(log: seq<Line>, cs: seq<Command>)
    requires Readable(log)
    requires AllWritten(cs) && forall i :: 0 <= i < |cs| ==> Named(cs[i])
    ensures var live := ApplyAll(Started(log), cs);
      var restarted := Started(live.log).store;
      forall id :: (id in restarted <==> Mentions(Tail(live.log), id)) && (id in restarted ==> id in live.store && restarted[id] == live.store[id])
  {
    StartedInStep(log);
    ApplyAllKeeps(Started(log), cs);
    var live := ApplyAll(Started(log), cs);
    TailReadable(live.log);
    InStepIs(live);
    hide ApplyAll, InStep;
    forall id ensures id in Replay(Tail(live.log)) <==> Mentions(Tail(live.log), id) {
      ReplayKeys(Tail(live.log), id);
    }
    hide Tail, Mentions;
  }

  // ---- a failed append ----

  /** A change that never reached the log survives a rehydration exactly when the log, as far as it is
      read, does not mention the operation at all. */
  lemma LostUpdateSurvivesIff(b: Book, id: string, status: Status, positionId: string, txHash: string, error: Option<string>, now: int)
    requires Readable(b.log) && KeyedById(b) && InStep(b) && id in b.store
    requires Changed(b.store[id], status, positionId, txHash, error, now) != b.store[id]
    ensures InStep(Apply(b, Update(id, status, positionId, txHash, error, now, false))) <==> !Mentions(Tail(b.log), id)
  {
    var c := Apply(b, Update(id, status, positionId, txHash, error, now, false));
    TailReadable(b.log);
    InStepIs(b);
    InStepIs(c);
    ReplayKeys(Tail(b.log), id);
    assert c.log == b.log;
    assert c.store == b.store[id := Changed(b.store[id], status, positionId, txHash, error, now)];
    hide *;
  }

  /** The confirmation is lost, and a rehydration puts the operation back in progress. */
  lemma LostConfirmation()
    ensures var created := Apply(Started([]), Create("a1", "open", "ostium", "EURUSD", "", 10, true));
      var confirmed := Apply(created, Update("a1", Confirmed, "7", "", None, 20, false));
      && confirmed.store["a1"].status == Confirmed
      && Rehydrated(confirmed).store["a1"].status == InProgress
  {
    var op := NewOperation("a1", "open", "ostium", "EURUSD", "", 10);
    var created := Apply(Started([]), Create("a1", "open", "ostium", "EURUSD", "", 10, true));
    assert created.log == [Event(op)];
    assert [Event(op)][1..] == [];
  }

  // ---- the service ----

  class OperationService {
    var store: Store
    var log: seq<Line>

    ghost function Abs(): Book
      reads this
    {
      Book(store, log)
    }

    constructor (file: seq<Line>)
      ensures Abs() == Book(map[], file)
    {
      store := map[];
      log := file;
    }

    method Append(op: Operation, written: bool)
      modifies this`log
      ensures log == if written then old(log) + [Event(op)] else old(log)
    {
      if written { log := log + [Event(op)]; }
    }

    method Create(id: string, kind: string, venue: string, symbol: string, positionId: string, now: int, written: bool)
      modifies this
      ensures Abs() == Apply(old(Abs()), Command.Create(id, kind, venue, symbol, positionId, now, written))
    {
      var op := Operation(id, kind, venue, symbol, positionId, "", InProgress, now, now, None);
      store := store[id := op];
      Append(op, written);
    }

    /** The stored operation is changed field by field, then logged. */
    method Update(id: string, status: Status, positionId: string, txHash: string, error: Option<string>, now: int, written: bool)
      requires KeyedById(Abs())
      modifies this
      ensures Abs() == Apply(old(Abs()), Command.Update(id, status, positionId, txHash, error, now, written))
    {
      if id !in store {
        return;
      }
      var op := store[id];
      op := op.(lastUpdate := now);
      op := op.(status := status);
      if positionId != "" { op := op.(positionId := positionId); }
      if txHash != "" { op := op.(txHash := txHash); }
      if error.Some? { op := op.(error := error); }
      store := store[id := op];
      Append(op, written);
    }

    method Rehydrate()
      modifies this`store
      ensures Abs() == Rehydrated(old(Abs()))
    {
      var tail := if |log| > REHYDRATE_MAX_LINES then log[|log| - REHYDRATE_MAX_LINES..] else log;
      assert tail == Tail(log);
      var i := 0;
      while i < |tail|
        invariant 0 <= i <= |tail|
        invariant ReplayOnto(old(store), tail) == ReplayOnto(store, tail[i..])
      {
        assert tail[i..][1..] == tail[i + 1..];
        match tail[i] {
          case NotAnObject => return;
          case Skipped =>
          case Event(op) => if op.id != "" { store := store[op.id := op]; }
        }
        i := i + 1;
      }
    }
  }
}
