/**
 The locks of the plugin SDK: the client's lock, and per capture its lock and its two run-once guards,
 which make a second caller wait like locks do. `Program` lists the lock operations of each routine in
 the order in which its code performs them; the blocking sends in between are dealt with in
 SessionRequests, where they are shown never to block.
 */
module LockOrder {
  import SessionClients

  type CaptureId = SessionClients.CaptureId

  datatype Lock = ClientLock | CloseGuard(capture: CaptureId) | CaptureLock(capture: CaptureId) | StopGuard(capture: CaptureId)

  datatype LockOp = Take(lock: Lock) | Give(lock: Lock)

  /** A capture that a close reaches: with an error message or not, for the first time or not. */
  datatype Closing = Closing(capture: CaptureId, message: bool, first: bool)

  datatype Routine =
    | Request(registered: bool, forgotten: bool, cancelled: bool)
    | ReadResponse
    | RouteEvent(capture: CaptureId, found: bool, overflow: bool)
    | StatusStopped(closing: Closing)
    | StartCapture(capture: CaptureId, publishes: seq<bool>)  // per orphan: whether it overflows
    | Stop(capture: CaptureId)
    | StopRoutine(request: Routine, closing: Closing)
    | Attach(refused: bool, closings: seq<Closing>)           // a stream, from its start to its end
    | ReadError(capture: CaptureId)

  function Locked(lock: Lock): seq<LockOp> { [Take(lock), Give(lock)] }

  function BeginStop(capture: CaptureId, reason: bool): seq<LockOp> {
    (if reason then Locked(CaptureLock(capture)) else []) + Locked(StopGuard(capture))
  }

  function Publish(capture: CaptureId, overflow: bool): seq<LockOp> {
    Locked(CaptureLock(capture)) + (if overflow then BeginStop(capture, true) else [])
  }

  function PublishAll(capture: CaptureId, overflows: seq<bool>): seq<LockOp> {
    if overflows == [] then [] else Publish(capture, overflows[0]) + PublishAll(capture, overflows[1..])
  }

  function Close(c: Closing): seq<LockOp> {
    (if c.message then Locked(CaptureLock(c.capture)) else [])
    + ([Take(CloseGuard(c.capture))] + (if c.first then Locked(CaptureLock(c.capture)) else []) + [Give(CloseGuard(c.capture))])
  }

  function CloseAll(closings: seq<Closing>): seq<LockOp> {
    if closings == [] then [] else Close(closings[0]) + CloseAll(closings[1..])
  }

  function Disconnect(closings: seq<Closing>): seq<LockOp> {
    [Take(ClientLock)] + CloseAll(closings) + [Give(ClientLock)]
  }

  function Program(r: Routine): seq<LockOp> {
    match r
    case Request(registered, forgotten, cancelled) =>
      Locked(ClientLock)
      + (if registered then Locked(ClientLock) else [])
      + (if forgotten || cancelled then Locked(ClientLock) else [])
      + (if cancelled then Locked(ClientLock) else [])
    case ReadResponse => Locked(ClientLock)
    case RouteEvent(capture, found, overflow) =>
      Locked(ClientLock) + (if found then Publish(capture, overflow) else [])
    case StatusStopped(closing) => Locked(ClientLock) + Close(closing)
    case StartCapture(capture, publishes) => Locked(ClientLock) + PublishAll(capture, publishes)
    case Stop(capture) => BeginStop(capture, false) + Locked(CaptureLock(capture))
    case StopRoutine(request, closing) =>
      Program(request) + Locked(ClientLock) + Close(closing) + Locked(CaptureLock(closing.capture))
    case Attach(refused, closings) =>
      Locked(ClientLock) + (if refused then [] else Locked(ClientLock) + Disconnect(closings))
    case ReadError(capture) => Locked(CaptureLock(capture))
  }

  function Rank(lock: Lock): nat {
    match lock
    case ClientLock => 0
    case CloseGuard(_) => 1
    case CaptureLock(_) => 2
    case StopGuard(_) => 3
  }

  /** Run from `held`, the program takes locks in rising rank only and ends holding `end`. */
  predicate Ordered(program: seq<LockOp>, held: set<Lock>, end: set<Lock>) {
    if program == [] then held == end
    else
      match program[0]
      case Take(lock) => (forall h :: h in held ==> Rank(h) < Rank(lock)) && Ordered(program[1..], held + {lock}, end)
      case Give(lock) => lock in held && Ordered(program[1..], held - {lock}, end)
  }

  lemma {:induction false} OrderedConcat(p: seq<LockOp>, q: seq<LockOp>, held: set<Lock>, middle: set<Lock>, end: set<Lock>)
    requires Ordered(p, held, middle) && Ordered(q, middle, end)
    ensures Ordered(p + q, held, end)
  {
    if p == [] {
      assert p + q == q;
    } else {
      assert (p + q)[1..] == p[1..] + q;
      OrderedConcat(p[1..], q, match p[0] case Take(lock) => held + {lock} case Give(lock) => held - {lock}, middle, end);
    }
  }

  lemma LockedOrdered(lock: Lock, held: set<Lock>)
    requires forall h :: h in held ==> Rank(h) < Rank(lock)
    ensures Ordered(Locked(lock), held, held)
  {
    assert Locked(lock)[1..] == [Give(lock)] && [Give(lock)][1..] == [];
    assert held + {lock} - {lock} == held by {
      assert lock !in held;
    }
    assert Ordered([Give(lock)], held + {lock}, held);
  }

  lemma OptionalOrdered(condition: bool, p: seq<LockOp>, held: set<Lock>)
    requires Ordered(p, held, held)
    ensures Ordered(if condition then p else [], held, held)
  {
  }

  lemma BeginStopOrdered(capture: CaptureId, reason: bool)
    ensures Ordered(BeginStop(capture, reason), {}, {})
  {
    LockedOrdered(CaptureLock(capture), {});
    LockedOrdered(StopGuard(capture), {});
    OrderedConcat(if reason then Locked(CaptureLock(capture)) else [], Locked(StopGuard(capture)), {}, {}, {});
  }

  lemma PublishOrdered(capture: CaptureId, overflow: bool)
    ensures Ordered(Publish(capture, overflow), {}, {})
  {
    LockedOrdered(CaptureLock(capture), {});
    BeginStopOrdered(capture, true);
    OrderedConcat(Locked(CaptureLock(capture)), if overflow then BeginStop(capture, true) else [], {}, {}, {});
  }

  lemma {:induction false} PublishAllOrdered(capture: CaptureId, overflows: seq<bool>)
    ensures Ordered(PublishAll(capture, overflows), {}, {})
  {
    if overflows != [] {
      PublishOrdered(capture, overflows[0]);
      PublishAllOrdered(capture, overflows[1..]);
      OrderedConcat(Publish(capture, overflows[0]), PublishAll(capture, overflows[1..]), {}, {}, {});
    }
  }

  lemma CloseOrdered(c: Closing, held: set<Lock>)
    requires held <= {ClientLock}
    ensures Ordered(Close(c), held, held)
  {
    var guard, lock := CloseGuard(c.capture), CaptureLock(c.capture);
    var inner := if c.first then Locked(lock) else [];
    LockedOrdered(lock, held);
    LockedOrdered(lock, held + {guard});
    assert [Give(guard)][1..] == [] && [Take(guard)][1..] == [] && held + {guard} - {guard} == held;
    assert Ordered([Give(guard)], held + {guard}, held) && Ordered([Take(guard)], held, held + {guard});
    OrderedConcat([Take(guard)], inner, held, held + {guard}, held + {guard});
    OrderedConcat([Take(guard)] + inner, [Give(guard)], held, held + {guard}, held);
    OrderedConcat(if c.message then Locked(lock) else [], [Take(guard)] + inner + [Give(guard)], held, held, held);
  }

  lemma {:induction false} CloseAllOrdered(closings: seq<Closing>, held: set<Lock>)
    requires held <= {ClientLock}
    ensures Ordered(CloseAll(closings), held, held)
  {
    if closings != [] {
      CloseOrdered(closings[0], held);
      CloseAllOrdered(closings[1..], held);
      OrderedConcat(Close(closings[0]), CloseAll(closings[1..]), held, held, held);
    }
  }

  lemma DisconnectOrdered(closings: seq<Closing>)
    ensures Ordered(Disconnect(closings), {}, {})
  {
    var h := {ClientLock};
    CloseAllOrdered(closings, h);
    assert [Take(ClientLock)][1..] == [] && [Give(ClientLock)][1..] == [] && {} + h == h && h - {ClientLock} == {};
    OrderedConcat([Take(ClientLock)], CloseAll(closings), {}, h, h);
    OrderedConcat([Take(ClientLock)] + CloseAll(closings), [Give(ClientLock)], {}, h, {});
  }

  /** Every routine takes its locks in rising rank and gives all of them back. */
  lemma {:induction false} ProgramsOrdered(r: Routine)
    ensures Ordered(Program(r), {}, {})
    decreases r
  {
    var client := Locked(ClientLock);
    LockedOrdered(ClientLock, {});
    match r {
      case Request(registered, forgotten, cancelled) =>
        OptionalOrdered(registered, client, {});
        OptionalOrdered(forgotten || cancelled, client, {});
        OptionalOrdered(cancelled, client, {});
        OrderedConcat(client, if registered then client else [], {}, {}, {});
        OrderedConcat(client + (if registered then client else []), if forgotten || cancelled then client else [], {}, {}, {});
        OrderedConcat(client + (if registered then client else []) + (if forgotten || cancelled then client else []),
          if cancelled then client else [], {}, {}, {});
      case ReadResponse =>
      case RouteEvent(capture, found, overflow) =>
        PublishOrdered(capture, overflow);
        OrderedConcat(client, if found then Publish(capture, overflow) else [], {}, {}, {});
      case StatusStopped(closing) =>
        CloseOrdered(closing, {});
        OrderedConcat(client, Close(closing), {}, {}, {});
      case StartCapture(capture, publishes) =>
        PublishAllOrdered(capture, publishes);
        OrderedConcat(client, PublishAll(capture, publishes), {}, {}, {});
      case Stop(capture) =>
        BeginStopOrdered(capture, false);
        LockedOrdered(CaptureLock(capture), {});
        OrderedConcat(BeginStop(capture, false), Locked(CaptureLock(capture)), {}, {}, {});
      case StopRoutine(request, closing) =>
        ProgramsOrdered(request);
        CloseOrdered(closing, {});
        LockedOrdered(CaptureLock(closing.capture), {});
        OrderedConcat(Program(request), client, {}, {}, {});
        OrderedConcat(Program(request) + client, Close(closing), {}, {}, {});
        OrderedConcat(Program(request) + client + Close(closing), Locked(CaptureLock(closing.capture)), {}, {}, {});
      case Attach(refused, closings) =>
        DisconnectOrdered(closings);
        OrderedConcat(client, Disconnect(closings), {}, {}, {});
        OrderedConcat(client, if refused then [] else client + Disconnect(closings), {}, {}, {});
      case ReadError(capture) => LockedOrdered(CaptureLock(capture), {});
    }
  }

  // ----- Threads -----

  datatype Thread = Thread(rest: seq<LockOp>, held: set<Lock>)

  ghost predicate IsFree(threads: seq<Thread>, lock: Lock) {
    forall i :: 0 <= i < |threads| ==> lock !in threads[i].held
  }

  ghost predicate CanMove(threads: seq<Thread>, i: int) {
    && 0 <= i < |threads| && threads[i].rest != []
    && (threads[i].rest[0].Take? ==> IsFree(threads, threads[i].rest[0].lock))
  }

  ghost function Moved(threads: seq<Thread>, i: int): seq<Thread>
    requires CanMove(threads, i)
  {
    var Thread(rest, held) := threads[i];
    threads[i := Thread(rest[1..], match rest[0] case Take(lock) => held + {lock} case Give(lock) => held - {lock})]
  }

  /** Locks are exclusive, and every thread still follows the order and will give everything back. */
  ghost predicate Orderly(threads: seq<Thread>) {
    && (forall i :: 0 <= i < |threads| ==> Ordered(threads[i].rest, threads[i].held, {}))
    && (forall i, j :: 0 <= i < |threads| && 0 <= j < |threads| && i != j ==> threads[i].held !! threads[j].held)
  }

  lemma MoveKeepsOrder(threads: seq<Thread>, i: int)
    requires Orderly(threads) && CanMove(threads, i)
    ensures Orderly(Moved(threads, i))
  {
  }

  /** A thread that cannot move waits for a lock of higher rank than any it holds, and so on up. */
  lemma {:induction false} SomebodyMoves(threads: seq<Thread>, i: int)
    requires Orderly(threads) && 0 <= i < |threads| && threads[i].rest != []
    ensures exists j :: CanMove(threads, j)
    decreases if threads[i].rest[0].Take? then 4 - Rank(threads[i].rest[0].lock) else 0
  {
    if !CanMove(threads, i) {
      var lock := threads[i].rest[0].lock;
      var j :| 0 <= j < |threads| && lock in threads[j].held;
      if threads[j].rest[0].Give? {
        assert CanMove(threads, j);
      } else {
        SomebodyMoves(threads, j);
      }
    }
  }

  ghost predicate IsSchedule(threads: seq<Thread>, schedule: seq<int>)
    decreases |schedule|
  {
    schedule == [] || (CanMove(threads, schedule[0]) && IsSchedule(Moved(threads, schedule[0]), schedule[1..]))
  }

  ghost function Reached(threads: seq<Thread>, schedule: seq<int>): seq<Thread>
    requires IsSchedule(threads, schedule)
    decreases |schedule|
  {
    if schedule == [] then threads else Reached(Moved(threads, schedule[0]), schedule[1..])
  }

  lemma {:induction false} ScheduleKeepsOrder(threads: seq<Thread>, schedule: seq<int>)
    requires Orderly(threads) && IsSchedule(threads, schedule)
    ensures Orderly(Reached(threads, schedule))
    decreases |schedule|
  {
    if schedule != [] {
      MoveKeepsOrder(threads, schedule[0]);
      ScheduleKeepsOrder(Moved(threads, schedule[0]), schedule[1..]);
    }
  }

  ghost function Started(routines: seq<Routine>): seq<Thread> {
    seq(|routines|, i requires 0 <= i < |routines| => Thread(Program(routines[i]), {}))
  }

  /** Any number of routines, interleaved in any way, never deadlock, and no thread asks for the
      client's lock while it holds any other lock. */
  lemma NoDeadlock(routines: seq<Routine>, schedule: seq<int>)
    requires IsSchedule(Started(routines), schedule)
    ensures var threads := Reached(Started(routines), schedule);
      && ((exists i :: 0 <= i < |threads| && threads[i].rest != []) ==> exists j :: CanMove(threads, j))
      && forall i :: 0 <= i < |threads| && threads[i].rest != [] && threads[i].rest[0] == Take(ClientLock) ==>
           threads[i].held == {}
  {
    forall i | 0 <= i < |routines|
      ensures Ordered(Started(routines)[i].rest, {}, {})
    {
      ProgramsOrdered(routines[i]);
    }
    ScheduleKeepsOrder(Started(routines), schedule);
    var threads := Reached(Started(routines), schedule);
    if i :| 0 <= i < |threads| && threads[i].rest != [] {
      SomebodyMoves(threads, i);
    }
    forall i | 0 <= i < |threads| && threads[i].rest != [] && threads[i].rest[0] == Take(ClientLock)
      ensures threads[i].held == {}
    {
      assert forall h :: h in threads[i].held ==> Rank(h) < Rank(ClientLock);
      assert forall h :: h !in threads[i].held;
    }
  }
}
