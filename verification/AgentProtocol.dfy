/**
 Every interleaving of the actors around one agent connection: callers, the reader, whoever cancels,
 and whoever closes. A step is one region under the table's lock, or one action outside it.

 The reader leaves the lock before it answers on a channel, so an answer can be in delivery while any
 other actor moves. Closing shuts the socket first and empties the table later.
 */
module AgentProtocol {
  import opened Unicode
  import opened Wrappers
  import opened CommandTable
  import ResponseChunks

  datatype Outcome = Answered(response: Response) | WriteFailed | Cancelled

  /** Where a caller is: registered, command written and waiting, on its way out, or gone. */
  datatype Phase = Registered | Waiting | Leaving(outcome: Outcome) | Returned(outcome: Outcome)

  datatype Call = Call(channel: Channel, phase: Phase)

  /** A response channel with room for one value, and every value it ever accepted. */
  datatype Buffer = Buffer(content: Option<Response>, accepted: seq<Response>)

  datatype State = State(
    table: map<RequestId, Slot>,
    calls: map<RequestId, Call>,
    channels: map<Channel, Buffer>,
    delivering: Option<(Channel, Response)>,
    socketOpen: bool,
    drained: bool,
    dropped: bool)  // a send found its channel full and took the default arm

  datatype Step =
    | RegisterCall(id: RequestId, channel: Channel)
    | WriteCommand(id: RequestId, ok: bool)
    | TakeAnswer(id: RequestId)
    | Cancel(id: RequestId)
    | Leave(id: RequestId)
    | ReadResponse(id: RequestId, payload: Bytes, error: string)
    | ReadChunk(message: ChunkMessage)
    | Notify
    | CloseSocket
    | DrainTable(cause: string)

  const INITIAL := State(map[], map[], map[], None, true, false, false)

  ghost function SlotIn(table: map<RequestId, Slot>, id: RequestId): Slot {
    if id in table then table[id] else Free
  }

  ghost function Put(table: map<RequestId, Slot>, id: RequestId, slot: Slot): map<RequestId, Slot> {
    if slot.Free? then table - {id} else table[id := slot]
  }

  /** A non-blocking send. */
  ghost function Offer(b: Buffer, value: Response): Buffer {
    if b.content.None? then Buffer(Some(value), b.accepted + [value]) else b
  }

  ghost function Targets(table: map<RequestId, Slot>): set<Channel> {
    set id | id in table && !table[id].Free? :: table[id].channel
  }

  ghost predicate InPhase(s: State, id: RequestId, phase: Phase) { id in s.calls && s.calls[id].phase == phase }

  ghost function WithPhase(s: State, id: RequestId, phase: Phase): State
    requires id in s.calls
  {
    s.(calls := s.calls[id := s.calls[id].(phase := phase)])
  }

  ghost predicate Enabled(s: State, step: Step) {
    match step
    case RegisterCall(id, channel) => id !in s.calls && channel !in s.channels && id != ""
    case WriteCommand(id, ok) => InPhase(s, id, Registered) && (ok ==> s.socketOpen)
    case TakeAnswer(id) =>
      InPhase(s, id, Waiting) && s.calls[id].channel in s.channels && s.channels[s.calls[id].channel].content.Some?
    case Cancel(id) => InPhase(s, id, Waiting)
    case Leave(id) => id in s.calls && s.calls[id].phase.Leaving?
    case ReadResponse(_, _, _) => s.delivering.None?
    case ReadChunk(m) => s.delivering.None? && Accepted(m)
    case Notify => s.delivering.Some? && s.delivering.value.0 in s.channels
    case CloseSocket => s.socketOpen
    case DrainTable(_) => !s.socketOpen && !s.drained
  }

  ghost function Next(s: State, step: Step): State
    requires Enabled(s, step)
  {
    match step
    case RegisterCall(id, channel) =>
      s.(table := Put(s.table, id, Awaiting(channel)), calls := s.calls[id := Call(channel, Registered)],
         channels := s.channels[channel := Buffer(None, [])])
    case WriteCommand(id, ok) => WithPhase(s, id, if ok then Waiting else Leaving(WriteFailed))
    case TakeAnswer(id) =>
      var c := s.calls[id].channel;
      WithPhase(s, id, Leaving(Answered(s.channels[c].content.value)))
        .(channels := s.channels[c := s.channels[c].(content := None)])
    case Cancel(id) => WithPhase(s, id, Leaving(Cancelled))
    case Leave(id) =>
      WithPhase(s, id, Returned(s.calls[id].phase.outcome)).(table := Put(s.table, id, Free))
    case ReadResponse(id, payload, error) =>
      var slot := SlotIn(s.table, id);
      s.(table := Put(s.table, id, Free),
         delivering := if slot.Free? then None else Some((slot.channel, Reply(payload, error))))
    case ReadChunk(m) =>
      var (slot, response) := NextSlot(SlotIn(s.table, m.id), m);
      s.(table := Put(s.table, m.id, slot),
         delivering := if response.None? then None else Some((SlotIn(s.table, m.id).channel, response.value)))
    case Notify =>
      var (c, value) := s.delivering.value;
      s.(channels := s.channels[c := Offer(s.channels[c], value)], delivering := None,
         dropped := s.dropped || s.channels[c].content.Some?)
    case CloseSocket => s.(socketOpen := false)
    case DrainTable(cause) =>
      var targets := Targets(s.table);
      s.(table := map[], drained := true,
         channels := map c | c in s.channels ::
           if c in targets then Offer(s.channels[c], Failed(Disconnected(cause))) else s.channels[c],
         dropped := s.dropped || exists c :: c in targets && c in s.channels && s.channels[c].content.Some?)
  }

  ghost predicate IsRun(s: State, steps: seq<Step>)
    decreases |steps|
  {
    steps == [] || (Enabled(s, steps[0]) && IsRun(Next(s, steps[0]), steps[1..]))
  }

  ghost function After(s: State, steps: seq<Step>): State
    requires IsRun(s, steps)
    decreases |steps|
  {
    if steps == [] then s else After(Next(s, steps[0]), steps[1..])
  }

  // ----- What every step keeps -----

  /** A channel nobody has answered on yet, and nobody is about to. */
  ghost predicate Untouched(s: State, c: Channel) {
    && c in s.channels && s.channels[c] == Buffer(None, [])
    && (s.delivering.Some? ==> s.delivering.value.0 != c)
  }

  ghost predicate ChannelsPrivate(calls: map<RequestId, Call>, channels: map<Channel, Buffer>) {
    && (forall id :: id in calls ==> calls[id].channel in channels)
    && (forall id, other :: id in calls && other in calls && id != other ==> calls[id].channel != calls[other].channel)
  }

  /** Entries belong to callers still present, and their channels are unanswered. */
  ghost predicate TableSound(s: State) {
    forall id :: id in s.table ==>
      && !s.table[id].Free? && ValidSlot(s.table[id])
      && id in s.calls && !s.calls[id].phase.Returned?
      && s.calls[id].channel == s.table[id].channel && Untouched(s, s.table[id].channel)
  }

  /** Each channel accepts at most one value, and no send has ever found one full. */
  ghost predicate AnsweredOnce(s: State) {
    && !s.dropped
    && (forall c :: c in s.channels ==>
          |s.channels[c].accepted| <= 1 && (s.channels[c].content.Some? ==> s.channels[c].accepted == [s.channels[c].content.value]))
    && (s.delivering.Some? ==>
          s.delivering.value.0 in s.channels && s.channels[s.delivering.value.0] == Buffer(None, []))
  }

  /** An answer is in the channel or on its way there. */
  ghost predicate AnswerComing(s: State, id: RequestId)
    requires id in s.calls
  {
    var c := s.calls[id].channel;
    (c in s.channels && s.channels[c].content.Some?) || (s.delivering.Some? && s.delivering.value.0 == c)
  }

  /** No caller is stranded: one that waits is still in the table or has its answer coming, and once
      the table has been emptied nobody who waits is in it. */
  ghost predicate NobodyStranded(s: State) {
    && (s.drained ==> !s.socketOpen)
    && (s.drained ==> forall id :: id in s.table && id in s.calls ==> !s.calls[id].phase.Waiting?)
    && (forall id :: id in s.calls && (s.calls[id].phase.Registered? || s.calls[id].phase.Waiting?) ==>
          id in s.table || AnswerComing(s, id))
  }

  ghost predicate Inv(s: State) {
    ChannelsPrivate(s.calls, s.channels) && TableSound(s) && AnsweredOnce(s) && NobodyStranded(s)
  }

  lemma RegisterKeepsPrivate(s: State, id: RequestId, channel: Channel)
    requires Inv(s) && Enabled(s, RegisterCall(id, channel))
    ensures var t := Next(s, RegisterCall(id, channel)); ChannelsPrivate(t.calls, t.channels)
  {
    hide TableSound, AnsweredOnce, NobodyStranded;
  }

  lemma RegisterKeepsTable(s: State, id: RequestId, channel: Channel)
    requires Inv(s) && Enabled(s, RegisterCall(id, channel))
    ensures var t := Next(s, RegisterCall(id, channel)); TableSound(t)
  {
    var t := Next(s, RegisterCall(id, channel));
    assert forall other :: other in s.calls ==> t.calls[other] == s.calls[other];
    assert forall c :: c in s.channels ==> t.channels[c] == s.channels[c];
  }

  lemma RegisterKeepsAnswers(s: State, id: RequestId, channel: Channel)
    requires Inv(s) && Enabled(s, RegisterCall(id, channel))
    ensures var t := Next(s, RegisterCall(id, channel)); AnsweredOnce(t) && NobodyStranded(t)
  {
    var t := Next(s, RegisterCall(id, channel));
    assert forall other :: other in s.calls ==> t.calls[other] == s.calls[other];
    assert forall c :: c in s.channels ==> t.channels[c] == s.channels[c];
  }

  lemma RegisterKeeps(s: State, id: RequestId, channel: Channel)
    requires Inv(s) && Enabled(s, RegisterCall(id, channel))
    ensures Inv(Next(s, RegisterCall(id, channel)))
  {
    hide Next;
    RegisterKeepsPrivate(s, id, channel);
    RegisterKeepsTable(s, id, channel);
    RegisterKeepsAnswers(s, id, channel);
  }

  lemma WriteKeeps(s: State, id: RequestId, ok: bool)
    requires Inv(s) && Enabled(s, WriteCommand(id, ok))
    ensures Inv(Next(s, WriteCommand(id, ok)))
  {
    hide ValidSlot;
    var t := Next(s, WriteCommand(id, ok));
    assert forall other :: other in t.calls ==> t.calls[other].channel == s.calls[other].channel;
  }

  lemma CancelKeeps(s: State, id: RequestId)
    requires Inv(s) && Enabled(s, Cancel(id))
    ensures Inv(Next(s, Cancel(id)))
  {
    hide ValidSlot;
    var t := Next(s, Cancel(id));
    assert forall other :: other in t.calls ==> t.calls[other].channel == s.calls[other].channel;
  }

  lemma LeaveKeeps(s: State, id: RequestId)
    requires Inv(s) && Enabled(s, Leave(id))
    ensures Inv(Next(s, Leave(id)))
  {
    var t := Next(s, Leave(id));
    assert forall other :: other in t.calls ==> t.calls[other].channel == s.calls[other].channel;
  }

  lemma TakeAnswerKeeps(s: State, id: RequestId)
    requires Inv(s) && Enabled(s, TakeAnswer(id))
    ensures Inv(Next(s, TakeAnswer(id)))
  {
    var t := Next(s, TakeAnswer(id));
    assert forall other :: other in t.calls ==> t.calls[other].channel == s.calls[other].channel;
  }

  lemma ReaderStepKeeps(s: State, step: Step)
    requires Inv(s) && Enabled(s, step)
    requires step.ReadResponse? || step.ReadChunk?
    ensures Inv(Next(s, step))
  {
    var t := Next(s, step);
    assert t.channels == s.channels && t.calls == s.calls;
    if step.ReadChunk? {
      ChunkKeepsSlotValid(SlotIn(s.table, step.message.id), step.message);
    }
  }

  lemma NotifyKeeps(s: State)
    requires Inv(s) && Enabled(s, Notify)
    ensures Inv(Next(s, Notify))
  {
  }

  lemma ClosingStepKeeps(s: State, step: Step)
    requires Inv(s) && Enabled(s, step)
    requires step.CloseSocket? || step.DrainTable?
    ensures Inv(Next(s, step))
  {
    if step.DrainTable? {
      forall id | id in s.table
        ensures s.table[id].channel in Targets(s.table)
      {}
    }
  }

  lemma StepKeeps(s: State, step: Step)
    requires Inv(s) && Enabled(s, step)
    ensures Inv(Next(s, step))
  {
    match step
    case RegisterCall(id, channel) => RegisterKeeps(s, id, channel);
    case WriteCommand(id, ok) => WriteKeeps(s, id, ok);
    case TakeAnswer(id) => TakeAnswerKeeps(s, id);
    case Cancel(id) => CancelKeeps(s, id);
    case Leave(id) => LeaveKeeps(s, id);
    case CloseSocket => ClosingStepKeeps(s, step);
    case DrainTable(_) => ClosingStepKeeps(s, step);
    case Notify => NotifyKeeps(s);
    case _ => ReaderStepKeeps(s, step);
  }

  /** Over every interleaving the invariant holds. */
  lemma {:induction false} RunKeeps(s: State, steps: seq<Step>)
    requires Inv(s) && IsRun(s, steps)
    ensures Inv(After(s, steps))
    decreases |steps|
  {
    hide Inv, Enabled, Next;
    if steps != [] {
      StepKeeps(s, steps[0]);
      RunKeeps(Next(s, steps[0]), steps[1..]);
    }
  }

  // ----- Results about whole runs -----

  /** From the start of a connection, whatever the interleaving: stored assemblies stay within their
      limits, every channel accepts at most one value and no send finds it full, and a caller that
      has returned has left nothing behind. */
  lemma CommandTableSafety(steps: seq<Step>)
    requires IsRun(INITIAL, steps)
    ensures var s := After(INITIAL, steps);
      && !s.dropped
      && (forall c :: c in s.channels ==> |s.channels[c].accepted| <= 1)
      && (forall id :: id in s.table ==> id in s.calls && !s.calls[id].phase.Returned? && ValidSlot(s.table[id]))
  {
    RunKeeps(INITIAL, steps);
  }

  /** Once the table has been emptied, every caller that waits has its answer in its channel or on
      the way, and a caller that has not written its command yet can only fail to. */
  lemma NoCommandStrandedByClose(steps: seq<Step>, id: RequestId)
    requires IsRun(INITIAL, steps) && After(INITIAL, steps).drained
    requires id in After(INITIAL, steps).calls
    ensures var s := After(INITIAL, steps);
      && (s.calls[id].phase.Waiting? ==> AnswerComing(s, id) && (Enabled(s, TakeAnswer(id)) || Enabled(s, Notify)))
      && !Enabled(s, WriteCommand(id, true))
  {
    RunKeeps(INITIAL, steps);
  }

  /** The steps of a run that can change the slot of one command. */
  ghost predicate Touches(step: Step, id: RequestId) {
    match step
    case RegisterCall(i, _) => i == id
    case Leave(i) => i == id
    case ReadResponse(i, _, _) => i == id
    case ReadChunk(m) => m.id == id
    case DrainTable(_) => true
    case _ => false
  }

  ghost function Projection(steps: seq<Step>, id: RequestId): seq<Step> {
    if steps == [] then []
    else if Touches(steps[0], id) then [steps[0]] + Projection(steps[1..], id)
    else Projection(steps[1..], id)
  }

  /** The chunk messages the extension sends for `payloads`, from number k on. */
  ghost function ChunkSteps(id: RequestId, payloads: seq<Bytes>, k: nat): seq<Step>
    requires k <= |payloads|
    decreases |payloads| - k
  {
    if k == |payloads| then []
    else [ReadChunk(ChunkOf(id, payloads, k))] + ChunkSteps(id, payloads, k + 1)
  }

  /** Chunks of one command, among any steps of other commands and callers, are reassembled: the run
      ends with the joined payloads on their way to the caller. */
  lemma {:induction false} ChunksReassembled(
      s: State, steps: seq<Step>, id: RequestId, channel: Channel, payloads: seq<Bytes>, k: nat)
    requires IsRun(s, steps) && k < |payloads| <= MAX_RESPONSE_CHUNKS
    requires TotalSize(payloads) <= MAX_CHUNKED_RESPONSE_BYTES
    requires SlotIn(s.table, id) == SlotAfter(channel, payloads, k)
    requires Projection(steps, id) == ChunkSteps(id, payloads, k)
    requires Touches(steps[|steps| - 1], id)
    ensures SlotIn(After(s, steps).table, id) == Free
    ensures After(s, steps).delivering == Some((channel, Reply(ResponseChunks.Join(payloads), "")))
    decreases |steps|
  {
    var first, rest := steps[0], steps[1..];
    if Touches(first, id) {
      var chunks := ChunkSteps(id, payloads, k);
      assert first == chunks[0] && Projection(rest, id) == chunks[1..] == ChunkSteps(id, payloads, k + 1) by {
        assert Projection(steps, id)[1..] == Projection(rest, id);
      }
      ChunkTaken(s, id, channel, payloads, k);
      if rest == [] {
        assert k + 1 == |payloads|;
      } else {
        assert rest[|rest| - 1] == steps[|steps| - 1];
        if k + 1 == |payloads| {
          NothingLeftToTouch(rest, id);
          assert false;
        }
        ChunksReassembled(Next(s, first), rest, id, channel, payloads, k + 1);
      }
    } else {
      SlotUndisturbed(s, first, id);
      ChunksReassembled(Next(s, first), rest, id, channel, payloads, k);
    }
  }

  lemma ChunkTaken(s: State, id: RequestId, channel: Channel, payloads: seq<Bytes>, k: nat)
    requires k < |payloads| <= MAX_RESPONSE_CHUNKS
    requires TotalSize(payloads) <= MAX_CHUNKED_RESPONSE_BYTES
    requires SlotIn(s.table, id) == SlotAfter(channel, payloads, k)
    requires Enabled(s, ReadChunk(ChunkOf(id, payloads, k)))
    ensures var t := Next(s, ReadChunk(ChunkOf(id, payloads, k)));
      if k + 1 < |payloads| then SlotIn(t.table, id) == SlotAfter(channel, payloads, k + 1)
      else SlotIn(t.table, id) == Free && t.delivering == Some((channel, Reply(ResponseChunks.Join(payloads), "")))
  {
    hide TotalSize;
    hide NextSlot;
    hide ResponseChunks.Join;
    TotalSizePrefix(payloads, k + 1);
    ChunkAccepted(id, channel, payloads, k);
  }

  lemma SlotUndisturbed(s: State, step: Step, id: RequestId)
    requires Enabled(s, step) && !Touches(step, id)
    ensures SlotIn(Next(s, step).table, id) == SlotIn(s.table, id)
  {
  }

  lemma {:induction false} NothingLeftToTouch(steps: seq<Step>, id: RequestId)
    requires Projection(steps, id) == []
    ensures forall i :: 0 <= i < |steps| ==> !Touches(steps[i], id)
  {
    if steps != [] {
      NothingLeftToTouch(steps[1..], id);
      assert forall i :: 1 <= i < |steps| ==> steps[i] == steps[1..][i - 1];
    }
  }

  /** A text the extension sends in pieces, at most 64 MiB in UTF-8, is on its way to the caller as the
      UTF-8 form of the text, once, at the last piece, whatever else the connection does meanwhile. */
  lemma ChunkedResponseRoundTrip(
      before: seq<Step>, steps: seq<Step>, id: RequestId, channel: Channel, t: Text, cuts: seq<nat>)
    requires IsRun(INITIAL, before)
    requires SlotIn(After(INITIAL, before).table, id) == Awaiting(channel)
    requires ResponseChunks.ValidBoundaries(t, cuts) && 0 < |t| <= ResponseChunks.MAX_RESPONSE_SIZE
    requires |Utf8(t)| <= MAX_CHUNKED_RESPONSE_BYTES
    requires IsRun(After(INITIAL, before), steps)
    requires Projection(steps, id) == ChunkSteps(id, ResponseChunks.Payloads(t, cuts), 0)
    requires steps != [] && Touches(steps[|steps| - 1], id)
    ensures var s := After(After(INITIAL, before), steps);
      && s.delivering == Some((channel, Reply(Utf8(t), "")))
      && channel in s.channels && s.channels[channel].accepted == []
      && id !in s.table && Inv(s)
  {
    hide Next, Enabled, IsRun, After, ChunkSteps, Projection, Touches;
    hide ResponseChunks.ValidBoundaries, ResponseChunks.Payloads;
    var payloads := ResponseChunks.Payloads(t, cuts);
    ResponseChunks.PieceCount(t, cuts);
    ResponseChunks.JoinedPayloads(t, cuts);
    TotalSizePrefix(payloads, 0);
    ChunksReassembled(After(INITIAL, before), steps, id, channel, payloads, 0);
    RunKeeps(INITIAL, before);
    RunKeeps(After(INITIAL, before), steps);
  }
}
