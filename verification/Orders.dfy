/** Opening and closing orders in the background over one shared operation store. Every `await` ends a
    step; a step is one request, one background task finishing, or one close handler resuming. */
module Orders {
  import opened Series
  import opened Operations

  /** How a background task ended: the venue's result, or an exception. */
  datatype End = Finished(success: bool, positionId: string, txHash: string) | Raised(error: string)

  datatype OpenTask = OpenTask(id: string, clientId: string, end: Option<End>)

  datatype Key = Key(venue: string, positionId: string, clientId: string)
  datatype CloseResult = CloseResult(success: bool, txHash: string, positionId: string)
  datatype CloseTask = CloseTask(id: string, key: Key, end: Option<End>, answered: bool)

  datatype Desk = Desk(book: Book, openCache: map<string, string>, opens: seq<OpenTask>,
                       closeCache: map<Key, CloseResult>, closes: seq<CloseTask>)

  // ---- what each step does ----

  /** The operation a client order id was answered with before; an empty id is never remembered. */
  function CachedOpen(d: Desk, clientId: string): Option<string> {
    if clientId == "" || clientId !in d.openCache then None
    else if d.openCache[clientId] !in d.book.store then None
    else Some(d.openCache[clientId])
  }

  function OpenAnswer(d: Desk, clientId: string, id: string): string {
    var cached := CachedOpen(d, clientId);
    if cached.Some? then cached.value else id
  }

  function OpenRequested(d: Desk, clientId: string, venue: string, symbol: string, id: string, now: int, written: bool): Desk {
    if CachedOpen(d, clientId).Some? then d
    else
      d.(book := Apply(d.book, Create(id, "open", venue, symbol, "", now, written)),
         openCache := if clientId != "" then d.openCache[clientId := id] else d.openCache,
         opens := d.opens + [OpenTask(id, clientId, None)])
  }

  function OpenUpdate(id: string, end: End, now: int, written: bool): Command {
    match end
    case Finished(_, positionId, txHash) => Update(id, Confirmed, positionId, txHash, None, now, written)
    case Raised(error) => Update(id, Failed, "", "", Some(error), now, written)
  }

  function OpenEnded(d: Desk, i: nat, end: End, now: int, written: bool): Desk
    requires i < |d.opens|
  {
    d.(book := Apply(d.book, OpenUpdate(d.opens[i].id, end, now, written)),
       opens := d.opens[i := d.opens[i].(end := Some(end))])
  }

  function CloseRequested(d: Desk, key: Key, id: string, now: int, written: bool): Desk {
    if key.clientId != "" && key in d.closeCache then d
    else
      d.(book := Apply(d.book, Create(id, "close", key.venue, "", key.positionId, now, written)),
         closes := d.closes + [CloseTask(id, key, None, false)])
  }

  function CloseUpdate(t: CloseTask, end: End, now: int, written: bool): Command {
    match end
    case Finished(_, _, _) => Update(t.id, Confirmed, t.key.positionId, "", None, now, written)
    case Raised(error) => Update(t.id, Failed, "", "", Some(error), now, written)
  }

  function CloseEnded(d: Desk, i: nat, end: End, now: int, written: bool): Desk
    requires i < |d.closes|
  {
    var t := d.closes[i];
    d.(book := Apply(d.book, CloseUpdate(t, end, now, written)),
       closeCache :=
         if end.Finished? && t.key.clientId != "" then d.closeCache[t.key := CloseResult(end.success, end.txHash, t.key.positionId)]
         else d.closeCache,
       closes := d.closes[i := t.(end := Some(end))])
  }

  /** The waiting handler looks at its task when it resumes, and only then writes "pending". */
  function CloseAnswered(d: Desk, i: nat, now: int, written: bool): Desk
    requires i < |d.closes|
  {
    var t := d.closes[i];
    d.(book := if t.end.Some? then d.book else Apply(d.book, Update(t.id, Pending, t.key.positionId, "", None, now, written)),
       closes := d.closes[i := t.(answered := true)])
  }

  datatype Step =
    | OpenRequest(clientId: string, venue: string, symbol: string, id: string, now: int, written: bool)
    | OpenEnds(i: nat, end: End, now: int, written: bool)
    | CloseRequest(key: Key, id: string, now: int, written: bool)
    | CloseEnds(i: nat, end: End, now: int, written: bool)
    | CloseAnswers(i: nat, now: int, written: bool)
    | Reread(written: bool)

  /** Generated ids are new and not empty; a task ends once and its handler answers once. */
  predicate Possible(d: Desk, s: Step) {
    match s
    case OpenRequest(_, _, _, id, _, _) => id != "" && id !in d.book.store
    case OpenEnds(i, _, _, _) => i < |d.opens| && d.opens[i].end.None?
    case CloseRequest(_, id, _, _) => id != "" && id !in d.book.store
    case CloseEnds(i, _, _, _) => i < |d.closes| && d.closes[i].end.None?
    case CloseAnswers(i, _, _) => i < |d.closes| && !d.closes[i].answered
    case Reread(_) => true
  }

  function Take(d: Desk, s: Step): Desk
    requires Possible(d, s)
  {
    match s
    case OpenRequest(clientId, venue, symbol, id, now, written) => OpenRequested(d, clientId, venue, symbol, id, now, written)
    case OpenEnds(i, end, now, written) => OpenEnded(d, i, end, now, written)
    case CloseRequest(key, id, now, written) => CloseRequested(d, key, id, now, written)
    case CloseEnds(i, end, now, written) => CloseEnded(d, i, end, now, written)
    case CloseAnswers(i, now, written) => CloseAnswered(d, i, now, written)
    case Reread(_) => d.(book := Rehydrated(d.book))
  }

  ghost predicate Run(d: Desk, steps: seq<Step>, end: Desk)
    decreases |steps|
  {
    if steps == [] then end == d
    else Possible(d, steps[0]) && Run(Take(d, steps[0]), steps[1..], end)
  }

  predicate Opening(b: Book) {
    Readable(b.log) && KeyedById(b) && InStep(b)
  }

  /** A process that has just started on a readable log. */
  function Fresh(log: seq<Line>): Desk {
    Desk(Started(log), map[], [], map[], [])
  }

  // ---- which client ids have started what ----

  predicate OpenedBy(d: Desk, i: int, clientId: string) {
    0 <= i < |d.opens| && d.opens[i].clientId == clientId
  }

  predicate ClosedBy(d: Desk, i: int, key: Key, r: CloseResult) {
    && 0 <= i < |d.closes| && d.closes[i].key == key
    && d.closes[i].end.Some? && d.closes[i].end.value.Finished?
    && r == CloseResult(d.closes[i].end.value.success, d.closes[i].end.value.txHash, key.positionId)
  }

  /** Every task has a stored operation. */
  predicate Known(d: Desk) {
    && (forall i :: 0 <= i < |d.opens| ==> d.opens[i].id in d.book.store)
    && (forall i :: 0 <= i < |d.closes| ==> d.closes[i].id in d.book.store)
    && (forall c :: c in d.openCache ==> c != "" && d.openCache[c] in d.book.store)
  }

  ghost predicate Traced(d: Desk) {
    && Known(d)
    && (forall i, c :: OpenedBy(d, i, c) && c != "" ==> c in d.openCache && d.openCache[c] == d.opens[i].id)
    && (forall i, j :: 0 <= i < j < |d.opens| ==> d.opens[i].id != d.opens[j].id)
  }

  ghost predicate CacheIsGenuine(d: Desk) {
    && (forall k :: k in d.closeCache ==> k.clientId != "" && exists i :: ClosedBy(d, i, k, d.closeCache[k]))
    && forall i, k, r :: ClosedBy(d, i, k, r) && k.clientId != "" ==> k in d.closeCache
  }

  lemma {:induction false} ReplayKeepsKeys(store: Store, lines: seq<Line>, id: string)
    requires id in store
    ensures id in ReplayOnto(store, lines)
    decreases |lines|
  {
    if lines != [] {
      match lines[0]
      case NotAnObject =>
      case Skipped => ReplayKeepsKeys(store, lines[1..], id);
      case Event(op) => ReplayKeepsKeys(if op.id != "" then store[op.id := op] else store, lines[1..], id);
    }
  }

  lemma {:induction false} ReplayKeepsKeyed(b: Book, lines: seq<Line>)
    requires KeyedById(b)
    ensures KeyedById(b.(store := ReplayOnto(b.store, lines)))
    decreases |lines|
  {
    if lines != [] {
      match lines[0]
      case NotAnObject =>
      case Skipped => ReplayKeepsKeyed(b, lines[1..]);
      case Event(op) => ReplayKeepsKeyed(b.(store := if op.id != "" then b.store[op.id := op] else b.store), lines[1..]);
    }
  }

  /** Every step keeps the store keyed and never forgets an operation. */
  lemma StoreOnlyGrows(d: Desk, s: Step)
    requires KeyedById(d.book) && Possible(d, s)
    ensures KeyedById(Take(d, s).book)
    ensures forall id :: id in d.book.store ==> id in Take(d, s).book.store
  {
    if s.Reread? {
      ReplayKeepsKeyed(d.book, Tail(d.book.log));
      forall id | id in d.book.store ensures id in Rehydrated(d.book).store {
        ReplayKeepsKeys(d.book.store, Tail(d.book.log), id);
      }
    }
  }

  lemma KnownStep(d: Desk, s: Step)
    requires KeyedById(d.book) && Known(d) && Possible(d, s)
    ensures Known(Take(d, s))
  {
    StoreOnlyGrows(d, s);
    hide Rehydrated, KeyedById;
    if s.OpenRequest? || s.CloseRequest? { TakesNewId(d, s); }
    hide Apply;
  }

  lemma TracedStep(d: Desk, s: Step)
    requires KeyedById(d.book) && Traced(d) && Possible(d, s)
    ensures Traced(Take(d, s))
  {
    KnownStep(d, s);
    var e := Take(d, s);
    hide Rehydrated, KeyedById, Apply;
    forall i, c | OpenedBy(e, i, c) && c != "" ensures c in e.openCache && e.openCache[c] == e.opens[i].id {
      if i < |d.opens| { assert OpenedBy(d, i, c); }
    }
  }

  lemma TakesNewId(d: Desk, s: Step)
    requires (s.OpenRequest? || s.CloseRequest?) && Possible(d, s)
    ensures Take(d, s) == d || s.id in Take(d, s).book.store
  {}

  lemma GenuineStep(d: Desk, s: Step)
    requires CacheIsGenuine(d) && Possible(d, s)
    ensures CacheIsGenuine(Take(d, s))
  {
    hide Apply, Rehydrated;
    var e := Take(d, s);
    forall k | k in e.closeCache ensures k.clientId != "" && exists i :: ClosedBy(e, i, k, e.closeCache[k]) {
      if s.CloseEnds? && s.end.Finished? && d.closes[s.i].key == k {
        assert ClosedBy(e, s.i, k, e.closeCache[k]);
      } else {
        var i :| ClosedBy(d, i, k, d.closeCache[k]);
        assert ClosedBy(e, i, k, e.closeCache[k]);
      }
    }
    forall i, k, r | ClosedBy(e, i, k, r) && k.clientId != "" ensures k in e.closeCache {
      if !(s.CloseEnds? && s.i == i) { assert ClosedBy(d, i, k, r); }
    }
  }

  lemma {:induction false} RunTraced(d: Desk, steps: seq<Step>, end: Desk)
    requires KeyedById(d.book) && Traced(d) && CacheIsGenuine(d) && Run(d, steps, end)
    ensures KeyedById(end.book) && Traced(end) && CacheIsGenuine(end)
    decreases |steps|
  {
    if steps != [] {
      hide KeyedById, Traced, CacheIsGenuine, Take, Possible;
      StoreOnlyGrows(d, steps[0]);
      TracedStep(d, steps[0]);
      GenuineStep(d, steps[0]);
      RunTraced(Take(d, steps[0]), steps[1..], end);
    }
  }

  /** Whatever the requests, completions, failures and lost log lines: a client order id starts at most one
      background open. */
  lemma OneOpenPerClientId(log: seq<Line>, steps: seq<Step>, d: Desk, i: int, j: int, clientId: string)
    requires Readable(log) && Run(Fresh(log), steps, d)
    requires clientId != "" && OpenedBy(d, i, clientId) && OpenedBy(d, j, clientId)
    ensures i == j
  {
    FreshIsTraced(log);
    RunTraced(Fresh(log), steps, d);
    assert d.opens[i].id == d.opens[j].id;
  }

  lemma {:induction false} AnswerStays(d: Desk, steps: seq<Step>, end: Desk, clientId: string)
    requires KeyedById(d.book) && Traced(d) && Run(d, steps, end)
    requires clientId != "" && clientId in d.openCache
    ensures CachedOpen(end, clientId) == Some(d.openCache[clientId])
    decreases |steps|
  {
    if steps != [] {
      StoreOnlyGrows(d, steps[0]);
      TracedStep(d, steps[0]);
      var e := Take(d, steps[0]);
      assert clientId in e.openCache && e.openCache[clientId] == d.openCache[clientId];
      hide KeyedById, Traced, Take, Possible;
      AnswerStays(e, steps[1..], end, clientId);
    }
  }

  /** Once a client order id has been answered, every later request with it gets the same operation id and
      starts nothing. */
  lemma RepeatsGetTheSameAnswer(log: seq<Line>, before: seq<Step>, d: Desk, first: Step, between: seq<Step>, end: Desk, again: Step)
    requires Readable(log) && Run(Fresh(log), before, d)
    requires first.OpenRequest? && first.clientId != "" && Possible(d, first)
    requires Run(Take(d, first), between, end)
    requires again.OpenRequest? && again.clientId == first.clientId && Possible(end, again)
    ensures OpenAnswer(end, again.clientId, again.id) == OpenAnswer(d, first.clientId, first.id)
    ensures Take(end, again) == end
  {
    hide *;
    FreshIsTraced(log);
    RunTraced(Fresh(log), before, d);
    StoreOnlyGrows(d, first);
    TracedStep(d, first);
    RequestIsCached(d, first);
    AnswerStays(Take(d, first), between, end, first.clientId);
    CachedRequest(end, again);
  }

  lemma FreshIsTraced(log: seq<Line>)
    requires Readable(log)
    ensures KeyedById(Fresh(log).book) && Traced(Fresh(log)) && CacheIsGenuine(Fresh(log))
  {
    StartedInStep(log);
    hide Started, KeyedById, Readable, InStep;
  }

  lemma RequestIsCached(d: Desk, s: Step)
    requires s.OpenRequest? && s.clientId != "" && Possible(d, s)
    ensures s.clientId in Take(d, s).openCache
    ensures Take(d, s).openCache[s.clientId] == OpenAnswer(d, s.clientId, s.id)
  {
    hide Apply;
  }

  lemma CachedRequest(d: Desk, s: Step)
    requires s.OpenRequest? && Possible(d, s) && CachedOpen(d, s.clientId).Some?
    ensures Take(d, s) == d && OpenAnswer(d, s.clientId, s.id) == CachedOpen(d, s.clientId).value
  {
    hide Apply, CachedOpen;
  }

  /** A close request is answered from memory exactly when an earlier close with the same venue, position
      and client id has already run to completion; otherwise it starts another one. */
  lemma CloseIsRepeatedUnlessCompleted(log: seq<Line>, steps: seq<Step>, d: Desk, key: Key, id: string, now: int, written: bool)
    requires Readable(log) && Run(Fresh(log), steps, d)
    ensures CloseRequested(d, key, id, now, written) == d <==> key.clientId != "" && exists i, r :: ClosedBy(d, i, key, r)
    ensures CloseRequested(d, key, id, now, written) != d ==>
      CloseRequested(d, key, id, now, written).closes == d.closes + [CloseTask(id, key, None, false)]
    ensures key in d.closeCache ==> exists i :: ClosedBy(d, i, key, d.closeCache[key])
  {
    FreshIsTraced(log);
    RunTraced(Fresh(log), steps, d);
    var e := CloseRequested(d, key, id, now, written);
    assert key.clientId != "" && key in d.closeCache ==> e == d;
    assert !(key.clientId != "" && key in d.closeCache) ==> |e.closes| == |d.closes| + 1;
    hide KeyedById, Apply, Fresh, ClosedBy;
  }

  predicate ClosedTwice(d: Desk) {
    && |d.closes| == 2 && d.closes[0].key == d.closes[1].key && d.closes[0].key.clientId != ""
    && d.closes[0].end == d.closes[1].end == Some(Finished(true, "", "0x1"))
  }

  /** Two closes of the same position with the same client id: the second request comes before the first
      has completed, and both run to confirmation. */
  lemma TwoConcurrentCloses()
    ensures exists steps, d :: Run(Fresh([]), steps, d) && ClosedTwice(d)
  {
    var key := Key("ostium", "7", "c");
    var ok := Finished(true, "", "0x1");
    var s0, s1 := CloseRequest(key, "a", 1, true), CloseRequest(key, "b", 2, true);
    var s2, s3 := CloseEnds(0, ok, 3, true), CloseEnds(1, ok, 4, true);
    var d0 := Fresh([]);
    var d1 := Take(d0, s0);
    var d2 := Take(d1, s1);
    var d3 := Take(d2, s2);
    var d4 := Take(d3, s3);
    assert ClosedTwice(d4);
    hide Apply, Fresh, CloseEnded, CloseRequested;
    var steps := [s0, s1, s2, s3];
    assert Run(d4, [], d4);
    assert [s3][1..] == [] && Run(d3, [s3], d4);
    assert [s2, s3][1..] == [s3] && Run(d2, [s2, s3], d4);
    assert [s1, s2, s3][1..] == [s2, s3] && Run(d1, [s1, s2, s3], d4);
    assert steps[1..] == [s1, s2, s3] && Run(d0, steps, d4);
  }

  // ---- a finished operation stays finished ----

  predicate Over(s: Status) {
    s == Confirmed || s == Failed
  }

  /** A task that has not ended has an operation of its own kind that is not over. */
  predicate Underway(b: Book, id: string, kind: string) {
    id in b.store && b.store[id].kind == kind && !Over(b.store[id].status)
  }

  ghost predicate OpensFit(d: Desk) {
    forall i :: 0 <= i < |d.opens| && d.opens[i].end.None? ==> Underway(d.book, d.opens[i].id, "open")
  }

  ghost predicate ClosesFit(d: Desk) {
    && (forall i :: 0 <= i < |d.closes| && d.closes[i].end.None? ==> Underway(d.book, d.closes[i].id, "close"))
    && forall i, j :: 0 <= i < j < |d.closes| ==> d.closes[i].id != d.closes[j].id
  }

  ghost predicate StatusesFit(d: Desk) {
    OpensFit(d) && ClosesFit(d)
  }

  ghost predicate Good(d: Desk) {
    Opening(d.book) && Traced(d) && StatusesFit(d)
  }

  lemma BookStep(d: Desk, s: Step)
    requires Good(d) && Possible(d, s) && s.written
    ensures Opening(Take(d, s).book)
    ensures s.Reread? ==> Take(d, s) == d
  {
    hide Apply, StatusesFit;
    match s
    case OpenRequest(clientId, venue, symbol, id, now, written) =>
      ApplyKeeps(d.book, Create(id, "open", venue, symbol, "", now, written));
    case OpenEnds(i, end, now, written) => ApplyKeeps(d.book, OpenUpdate(d.opens[i].id, end, now, written));
    case CloseRequest(key, id, now, written) =>
      ApplyKeeps(d.book, Create(id, "close", key.venue, "", key.positionId, now, written));
    case CloseEnds(i, end, now, written) => ApplyKeeps(d.book, CloseUpdate(d.closes[i], end, now, written));
    case CloseAnswers(i, now, written) =>
      ApplyKeeps(d.book, Update(d.closes[i].id, Pending, d.closes[i].key.positionId, "", None, now, written));
    case Reread(_) =>
  }

  /** A command leaves every operation alone but its own, whose kind it keeps. */
  lemma ApplyIs(b: Book, c: Command, id: string)
    requires KeyedById(b) && id in b.store && (c.Create? ==> c.id !in b.store)
    ensures id in Apply(b, c).store
    ensures id != c.id ==> Apply(b, c).store[id] == b.store[id]
    ensures id == c.id ==> Apply(b, c).store[id].kind == b.store[id].kind
    ensures id == c.id && c.Update? ==> Apply(b, c).store[id].status == c.status
  {}

  lemma CreatedIsUnderway(b: Book, id: string, kind: string, venue: string, symbol: string, positionId: string, now: int, written: bool)
    ensures Underway(Apply(b, Create(id, kind, venue, symbol, positionId, now, written)), id, kind)
  {}

  /** The command a step applies to the store, if it applies one. */
  function CommandOf(d: Desk, s: Step): Option<Command>
    requires Possible(d, s)
  {
    match s
    case OpenRequest(clientId, venue, symbol, id, now, written) =>
      if CachedOpen(d, clientId).Some? then None else Some(Create(id, "open", venue, symbol, "", now, written))
    case OpenEnds(i, end, now, written) => Some(OpenUpdate(d.opens[i].id, end, now, written))
    case CloseRequest(key, id, now, written) =>
      if key.clientId != "" && key in d.closeCache then None
      else Some(Create(id, "close", key.venue, "", key.positionId, now, written))
    case CloseEnds(i, end, now, written) => Some(CloseUpdate(d.closes[i], end, now, written))
    case CloseAnswers(i, now, written) =>
      if d.closes[i].end.Some? then None
      else Some(Update(d.closes[i].id, Pending, d.closes[i].key.positionId, "", None, now, written))
    case Reread(_) => None
  }

  lemma TakeApplies(d: Desk, s: Step)
    requires Possible(d, s)
    ensures s.Reread? || Take(d, s).book == if CommandOf(d, s).Some? then Apply(d.book, CommandOf(d, s).value) else d.book
  {}

  /** What is under way stays under way, unless the step is the end of that very operation. */
  lemma UnderwayStays(d: Desk, s: Step, id: string, kind: string)
    requires Good(d) && Possible(d, s) && s.written && Underway(d.book, id, kind)
    requires s.OpenEnds? ==> d.opens[s.i].id != id
    requires s.CloseEnds? ==> d.closes[s.i].id != id
    ensures Underway(Take(d, s).book, id, kind)
  {
    BookStep(d, s);
    TakeApplies(d, s);
    var c := CommandOf(d, s);
    if c.Some? { ApplyIs(d.book, c.value, id); }
    hide Apply, Take, Good;
  }

  lemma OpensFitStep(d: Desk, s: Step)
    requires Good(d) && Possible(d, s) && s.written
    ensures OpensFit(Take(d, s))
  {
    var e := Take(d, s);
    forall i | 0 <= i < |e.opens| && e.opens[i].end.None? ensures Underway(e.book, e.opens[i].id, "open") {
      if i < |d.opens| {
        assert d.opens[i].id == e.opens[i].id && d.opens[i].end.None?;
        assert s.OpenEnds? ==> d.opens[s.i].id != d.opens[i].id;
        assert s.CloseEnds? ==> Underway(d.book, d.closes[s.i].id, "close");
        UnderwayStays(d, s, d.opens[i].id, "open");
      } else {
        CreatedIsUnderway(d.book, s.id, "open", s.venue, s.symbol, "", s.now, s.written);
      }
      hide Apply, Underway, Good, InStep, Readable;
    }
  }

  lemma ClosesFitStep(d: Desk, s: Step)
    requires Good(d) && Possible(d, s) && s.written
    ensures ClosesFit(Take(d, s))
  {
    var e := Take(d, s);
    hide Apply, InStep, Readable, Rehydrated;
    forall i | 0 <= i < |e.closes| && e.closes[i].end.None? ensures Underway(e.book, e.closes[i].id, "close") {
      if i < |d.closes| {
        assert d.closes[i].id == e.closes[i].id && d.closes[i].end.None?;
        assert s.CloseEnds? ==> d.closes[s.i].id != d.closes[i].id;
        assert s.OpenEnds? ==> Underway(d.book, d.opens[s.i].id, "open");
        UnderwayStays(d, s, d.closes[i].id, "close");
      } else {
        CreatedIsUnderway(d.book, s.id, "close", s.key.venue, "", s.key.positionId, s.now, s.written);
      }
      hide Underway, Good;
    }
  }

  lemma GoodStep(d: Desk, s: Step)
    requires Good(d) && Possible(d, s) && s.written
    ensures Good(Take(d, s))
  {
    BookStep(d, s);
    OpensFitStep(d, s);
    ClosesFitStep(d, s);
    TracedStep(d, s) by { assert KeyedById(d.book); }
    hide Take, Traced, StatusesFit, Opening;
  }

  lemma FinishedStep(d: Desk, s: Step, id: string)
    requires Good(d) && Possible(d, s) && s.written
    requires id in d.book.store && Over(d.book.store[id].status)
    ensures id in Take(d, s).book.store && Take(d, s).book.store[id] == d.book.store[id]
  {
    BookStep(d, s);
    TakeApplies(d, s);
    var c := CommandOf(d, s);
    if c.Some? {
      assert c.value.Update? ==> Underway(d.book, c.value.id, "open") || Underway(d.book, c.value.id, "close");
      ApplyIs(d.book, c.value, id);
    }
    hide Apply, Take, InStep, Readable;
  }

  lemma {:induction false} FinishedRun(d: Desk, steps: seq<Step>, end: Desk, id: string)
    requires Good(d) && Run(d, steps, end) && forall i :: 0 <= i < |steps| ==> steps[i].written
    requires id in d.book.store && Over(d.book.store[id].status)
    ensures id in end.book.store && end.book.store[id] == d.book.store[id]
    decreases |steps|
  {
    if steps != [] {
      hide Good, Take, Possible;
      GoodStep(d, steps[0]);
      FinishedStep(d, steps[0], id);
      FinishedRun(Take(d, steps[0]), steps[1..], end, id);
    }
  }

  lemma {:induction false} GoodRun(d: Desk, steps: seq<Step>, end: Desk)
    requires Good(d) && Run(d, steps, end) && forall i :: 0 <= i < |steps| ==> steps[i].written
    ensures Good(end)
    decreases |steps|
  {
    if steps != [] {
      hide Good, Take, Possible;
      GoodStep(d, steps[0]);
      GoodRun(Take(d, steps[0]), steps[1..], end);
    }
  }

  lemma FreshIsGood(log: seq<Line>)
    requires Readable(log)
    ensures Good(Fresh(log))
  {
    StartedInStep(log);
  }

  /** While log appends succeed, an operation that reached "confirmed" or "error" keeps that record through
      every later request, completion, timeout and rehydration. */
  lemma FinishedNeverChanges(log: seq<Line>, before: seq<Step>, d: Desk, after: seq<Step>, end: Desk, id: string)
    requires Readable(log) && Run(Fresh(log), before, d) && Run(d, after, end)
    requires forall i :: 0 <= i < |before| ==> before[i].written
    requires forall i :: 0 <= i < |after| ==> after[i].written
    requires id in d.book.store && Over(d.book.store[id].status)
    ensures id in end.book.store && end.book.store[id] == d.book.store[id]
  {
    FreshIsGood(log);
    hide Good, Fresh, Run;
    GoodRun(Fresh(log), before, d);
    FinishedRun(d, after, end, id);
  }

  // ---- the services ----

  class OrderOpenService {
    const operations: OperationService
    var cache: map<string, string>
    var tasks: seq<OpenTask>

    constructor (operations: OperationService)
      ensures this.operations == operations && cache == map[] && tasks == []
    {
      this.operations := operations;
      cache := map[];
      tasks := [];
    }

    /** The desk as this service sees it, beside any close side. */
    ghost function Abs(closeCache: map<Key, CloseResult>, closes: seq<CloseTask>): Desk
      reads this, operations
    {
      Desk(operations.Abs(), cache, tasks, closeCache, closes)
    }

    method GetCachedIdempotentResponse(clientId: string) returns (r: Option<string>)
      ensures forall k, c :: r == CachedOpen(Abs(k, c), clientId)
    {
      if clientId == "" || clientId !in cache {
        return None;
      }
      var id := cache[clientId];
      if id !in operations.store {
        return None;
      }
      return Some(id);
    }

    method FastAckOpen(clientId: string, venue: string, symbol: string, newId: string, now: int, written: bool) returns (answer: string)
      modifies this, operations
      ensures forall k, c :: answer == OpenAnswer(old(Abs(k, c)), clientId, newId)
      ensures forall k, c :: Abs(k, c) == OpenRequested(old(Abs(k, c)), clientId, venue, symbol, newId, now, written)
    {
      hide Apply;
      var cached := GetCachedIdempotentResponse(clientId);
      forall k, c ensures CachedOpen(old(Abs(k, c)), clientId) == cached {
        assert Abs(k, c) == old(Abs(k, c));
      }
      if cached.Some? {
        return cached.value;
      }
      answer := newId;
      operations.Create(newId, "open", venue, symbol, "", now, written);
      if clientId != "" {
        cache := cache[clientId := newId];
      }
      tasks := tasks + [OpenTask(newId, clientId, None)];
    }

    method RunOpenOperation(i: nat, end: End, now: int, written: bool)
      requires i < |tasks| && KeyedById(operations.Abs())
      modifies this, operations
      ensures forall k, c :: Abs(k, c) == OpenEnded(old(Abs(k, c)), i, end, now, written)
    {
      hide Apply, KeyedById;
      match end {
        case Finished(_, positionId, txHash) => operations.Update(tasks[i].id, Confirmed, positionId, txHash, None, now, written);
        case Raised(error) => operations.Update(tasks[i].id, Failed, "", "", Some(error), now, written);
      }
      tasks := tasks[i := tasks[i].(end := Some(end))];
    }
  }

  class OrderCloseService {
    const operations: OperationService
    var cache: map<Key, CloseResult>
    var tasks: seq<CloseTask>

    constructor (operations: OperationService)
      ensures this.operations == operations && cache == map[] && tasks == []
    {
      this.operations := operations;
      cache := map[];
      tasks := [];
    }

    ghost function Abs(openCache: map<string, string>, opens: seq<OpenTask>): Desk
      reads this, operations
    {
      Desk(operations.Abs(), openCache, opens, cache, tasks)
    }

    /** The part of the handler before its first `await`: a cached answer, or a new background close. */
    method StartClose(key: Key, newId: string, now: int, written: bool) returns (cached: Option<CloseResult>)
      modifies this, operations
      ensures cached == if key.clientId != "" && key in old(cache) then Some(old(cache)[key]) else None
      ensures forall k, o :: Abs(k, o) == CloseRequested(old(Abs(k, o)), key, newId, now, written)
    {
      hide Apply;
      if key.clientId != "" {
        if key in cache {
          return Some(cache[key]);
        }
      }
      operations.Create(newId, "close", key.venue, "", key.positionId, now, written);
      tasks := tasks + [CloseTask(newId, key, None, false)];
      cached := None;
    }

    method RunClose(i: nat, end: End, now: int, written: bool)
      requires i < |tasks| && KeyedById(operations.Abs())
      modifies this, operations
      ensures forall k, o :: Abs(k, o) == CloseEnded(old(Abs(k, o)), i, end, now, written)
    {
      hide Apply, KeyedById;
      var t := tasks[i];
      match end {
        case Finished(success, _, txHash) =>
          operations.Update(t.id, Confirmed, t.key.positionId, "", None, now, written);
          if t.key.clientId != "" {
            cache := cache[t.key := CloseResult(success, txHash, t.key.positionId)];
          }
        case Raised(error) =>
          operations.Update(t.id, Failed, "", "", Some(error), now, written);
      }
      tasks := tasks[i := t.(end := Some(end))];
    }

    /** The part after the wait: the result of a task that is done, or "pending". */
    method AnswerClose(i: nat, now: int, written: bool) returns (result: Option<End>)
      requires i < |tasks| && KeyedById(operations.Abs())
      modifies this, operations
      ensures result == old(tasks)[i].end
      ensures forall k, o :: Abs(k, o) == CloseAnswered(old(Abs(k, o)), i, now, written)
    {
      hide Apply, KeyedById;
      var t := tasks[i];
      result := t.end;
      if t.end.None? {
        operations.Update(t.id, Pending, t.key.positionId, "", None, now, written);
      }
      tasks := tasks[i := t.(answered := true)];
    }
  }
}
