/**
 Which answer a caller gets. Over whole runs of `AgentProtocol` the answer with which a caller leaves is
 traced to the messages that came for its command, and a message that answers a command is the answer with
 which its caller leaves.
 */
module AgentAnswers {
  import opened Unicode
  import opened Wrappers
  import opened CommandTable
  import opened AgentProtocol
  import ResponseChunks

  type Calls = map<RequestId, Call>

  /** The answer a caller has left with, if it has left with one. */
  function AnswerOf(call: Call): Option<Response> {
    match call.phase
    case Leaving(Answered(r)) => Some(r)
    case Returned(Answered(r)) => Some(r)
    case _ => None
  }

  // ----- From a message to the caller -----

  /** The command has been answered by r: it is on its way to the caller's channel, in it, or taken. */
  ghost predicate AnsweredBy(s: State, id: RequestId, r: Response) {
    && id in s.calls && id !in s.table && s.calls[id].channel in s.channels
    && (var c := s.calls[id].channel;
        if s.channels[c].accepted == [] then s.delivering == Some((c, r)) && s.channels[c] == Buffer(None, [])
        else s.channels[c].accepted == [r] && (s.channels[c].content.Some? ==> s.channels[c].content == Some(r)))
    && (AnswerOf(s.calls[id]).Some? ==> AnswerOf(s.calls[id]) == Some(r))
  }

  /** What the rest of the connection does leaves an answered command alone. */
  lemma OthersLeaveIt(s: State, step: Step, id: RequestId, r: Response)
    requires Inv(s) && Enabled(s, step) && AnsweredBy(s, id, r)
    requires step.ReadResponse? || step.ReadChunk? || step.DrainTable? || step.RegisterCall?
    ensures AnsweredBy(Next(s, step), id, r)
  {
    hide ValidSlot, NobodyStranded;
  }

  lemma AnsweredByStays(s: State, step: Step, id: RequestId, r: Response)
    requires Inv(s) && Enabled(s, step) && AnsweredBy(s, id, r)
    ensures AnsweredBy(Next(s, step), id, r)
  {
    hide TableSound, NobodyStranded;
    if step.ReadResponse? || step.ReadChunk? || step.DrainTable? || step.RegisterCall? {
      OthersLeaveIt(s, step, id, r);
    }
  }

  lemma {:induction false} AnsweredByOverRun(s: State, steps: seq<Step>, id: RequestId, r: Response)
    requires Inv(s) && IsRun(s, steps) && AnsweredBy(s, id, r)
    ensures AnsweredBy(After(s, steps), id, r) && Inv(After(s, steps))
    decreases |steps|
  {
    hide Inv, Enabled, Next, AnsweredBy;
    if steps != [] {
      StepKeeps(s, steps[0]);
      AnsweredByStays(s, steps[0], id, r);
      AnsweredByOverRun(Next(s, steps[0]), steps[1..], id, r);
    }
  }

  /** A caller leaves with no other answer than r, and one that still waits can only get r. */
  ghost predicate Gets(s: State, id: RequestId, r: Response) {
    && id in s.calls
    && (forall x :: s.calls[id].phase == Leaving(Answered(x)) || s.calls[id].phase == Returned(Answered(x)) ==> x == r)
    && (s.calls[id].phase == Waiting ==>
          var c := s.calls[id].channel;
          (c in s.channels && s.channels[c].content == Some(r)) || s.delivering == Some((c, r)))
  }

  lemma AnsweredGets(s: State, id: RequestId, r: Response)
    requires Inv(s) && AnsweredBy(s, id, r)
    ensures Gets(s, id, r)
  {
  }

  /** Who has left with an answer has taken it from its channel. */
  ghost predicate TakenFromChannel(s: State) {
    forall id :: id in s.calls && AnswerOf(s.calls[id]).Some? ==>
      s.calls[id].channel in s.channels && s.channels[s.calls[id].channel].accepted == [AnswerOf(s.calls[id]).value]
  }

  lemma StepKeepsTaken(s: State, step: Step)
    requires Inv(s) && Enabled(s, step) && TakenFromChannel(s)
    ensures TakenFromChannel(Next(s, step))
  {
    hide ValidSlot;
  }

  lemma {:induction false} RunKeepsTaken(s: State, steps: seq<Step>)
    requires Inv(s) && IsRun(s, steps) && TakenFromChannel(s)
    ensures Inv(After(s, steps)) && TakenFromChannel(After(s, steps))
    decreases |steps|
  {
    hide Inv, Enabled, Next, TakenFromChannel;
    if steps != [] {
      StepKeeps(s, steps[0]);
      StepKeepsTaken(s, steps[0]);
      RunKeepsTaken(Next(s, steps[0]), steps[1..]);
    }
  }

  lemma ReadAnswers(s: State, id: RequestId, payload: Bytes, error: string)
    requires Inv(s) && TakenFromChannel(s) && id in s.table && Enabled(s, ReadResponse(id, payload, error))
    ensures AnsweredBy(Next(s, ReadResponse(id, payload, error)), id, Reply(payload, error))
  {
  }

  /** A plain response is what the caller of its command gets, payload and error, whatever happens next. */
  lemma PlainResponseReachesCaller(before: seq<Step>, id: RequestId, payload: Bytes, error: string, after: seq<Step>)
    requires IsRun(INITIAL, before) && id in After(INITIAL, before).table
    requires Enabled(After(INITIAL, before), ReadResponse(id, payload, error))
    requires IsRun(Next(After(INITIAL, before), ReadResponse(id, payload, error)), after)
    ensures Gets(After(Next(After(INITIAL, before), ReadResponse(id, payload, error)), after), id, Reply(payload, error))
  {
    hide Next, Enabled, Inv, AnsweredBy, Gets;
    var s, step := After(INITIAL, before), ReadResponse(id, payload, error);
    StartsSound();
    RunKeepsTaken(INITIAL, before);
    StepKeeps(s, step);
    ReadAnswers(s, id, payload, error);
    AnsweredByOverRun(Next(s, step), after, id, Reply(payload, error));
    AnsweredGets(After(Next(s, step), after), id, Reply(payload, error));
  }

  lemma StartsSound()
    ensures Inv(INITIAL) && TakenFromChannel(INITIAL)
  {
  }

  /** The last chunk of a text answers its command. */
  lemma LastChunkAnswers(s: State, id: RequestId, channel: Channel, r: Response)
    requires Inv(s) && TakenFromChannel(s) && id in s.calls && s.calls[id].channel == channel && id !in s.table
    requires s.delivering == Some((channel, r))
    ensures AnsweredBy(s, id, r)
  {
  }

  lemma AwaitingIsCalled(s: State, id: RequestId, channel: Channel)
    requires Inv(s) && SlotIn(s.table, id) == Awaiting(channel)
    ensures id in s.calls && s.calls[id].channel == channel
  {
  }

  /** So is the text that the extension has sent in pieces. */
  lemma ChunkedResponseReachesCaller(
      before: seq<Step>, steps: seq<Step>, id: RequestId, channel: Channel, t: Text, cuts: seq<nat>, after: seq<Step>)
    requires IsRun(INITIAL, before)
    requires SlotIn(After(INITIAL, before).table, id) == Awaiting(channel)
    requires ResponseChunks.ValidBoundaries(t, cuts) && 0 < |t| <= ResponseChunks.MAX_RESPONSE_SIZE
    requires |Utf8(t)| <= MAX_CHUNKED_RESPONSE_BYTES
    requires IsRun(After(INITIAL, before), steps)
    requires Projection(steps, id) == ChunkSteps(id, ResponseChunks.Payloads(t, cuts), 0)
    requires steps != [] && Touches(steps[|steps| - 1], id)
    requires IsRun(After(After(INITIAL, before), steps), after)
    ensures Gets(After(After(After(INITIAL, before), steps), after), id, Reply(Utf8(t), ""))
  {
    hide Next, Enabled, Inv, AnsweredBy, Gets, IsRun, After, ChunkSteps, Projection, TakenFromChannel;
    hide ResponseChunks.ValidBoundaries, ResponseChunks.Payloads;
    var s0 := After(INITIAL, before);
    var s := After(s0, steps);
    StartsSound();
    RunKeepsTaken(INITIAL, before);
    RunKeepsTaken(s0, steps);
    ChunkedResponseRoundTrip(before, steps, id, channel, t, cuts);
    AwaitingIsCalled(s0, id, channel);
    OwnChannel(s0, steps, id, channel);
    LastChunkAnswers(s, id, channel, Reply(Utf8(t), ""));
    AnsweredByOverRun(s, after, id, Reply(Utf8(t), ""));
    AnsweredGets(After(s, after), id, Reply(Utf8(t), ""));
  }

  lemma {:induction false} OwnChannel(s: State, steps: seq<Step>, id: RequestId, channel: Channel)
    requires IsRun(s, steps) && id in s.calls && s.calls[id].channel == channel
    ensures id in After(s, steps).calls && After(s, steps).calls[id].channel == channel
    decreases |steps|
  {
    if steps != [] {
      OwnChannel(Next(s, steps[0]), steps[1..], id, channel);
    }
  }

  // ----- From the caller back to a message -----

  /** The chunks that have come for a command since it was registered. */
  ghost function ChunksFor(steps: seq<Step>, id: RequestId): seq<ChunkMessage> {
    if steps == [] then []
    else
      match steps[|steps| - 1]
      case RegisterCall(i, _) => if i == id then [] else ChunksFor(steps[..|steps| - 1], id)
      case ReadChunk(m) =>
        if m.id == id then ChunksFor(steps[..|steps| - 1], id) + [m] else ChunksFor(steps[..|steps| - 1], id)
      case _ => ChunksFor(steps[..|steps| - 1], id)
  }

  ghost function TextsOf(chunks: seq<ChunkMessage>): seq<Bytes> {
    seq(|chunks|, i requires 0 <= i < |chunks| => chunks[i].chunk)
  }

  ghost predicate GoodFirst(m: ChunkMessage) { m.sequence == 0 && 0 < m.total <= 128 }

  /** The chunks are numbered from zero, agree on how many there will be, and stay within the limits. */
  ghost predicate InOrder(chunks: seq<ChunkMessage>) {
    && (chunks != [] ==> 0 < chunks[0].total <= 128 && |chunks| <= chunks[0].total)
    && (forall i :: 0 <= i < |chunks| ==> chunks[i].sequence == i && chunks[i].total == chunks[0].total)
    && TotalSize(TextsOf(chunks)) <= 64 * 1024 * 1024
  }

  /** What a command is answered when the last of these chunks has come. */
  ghost predicate ChunksAnswer(chunks: seq<ChunkMessage>, r: Response) {
    chunks != [] &&
    match r
    case Reply(payload, error) =>
      InOrder(chunks) && |chunks| == chunks[0].total && payload == ResponseChunks.Join(TextsOf(chunks)) && error == ""
    case Failed(InvalidFirstChunk) => |chunks| == 1 && !GoodFirst(chunks[0])
    case Failed(LimitOrOrder) => GoodFirst(chunks[0]) && !InOrder(chunks)
    case Failed(Disconnected(_)) => false
  }

  /** The last of the steps answers the command with r. */
  ghost predicate Answering(steps: seq<Step>, id: RequestId, r: Response) {
    && steps != []
    && (exists j :: 0 <= j < |steps| && steps[j].RegisterCall? && steps[j].id == id)
    && match steps[|steps| - 1]
       case ReadResponse(i, payload, error) => i == id && r == Reply(payload, error)
       case ReadChunk(m) => m.id == id && ChunksAnswer(ChunksFor(steps, id), r)
       case DrainTable(cause) => r == Failed(Disconnected(cause))
       case _ => false
  }

  ghost predicate HasCause(steps: seq<Step>, id: RequestId, r: Response) {
    exists n :: 0 < n <= |steps| && Answering(steps[..n], id, r)
  }

  lemma CauseStays(steps: seq<Step>, step: Step, id: RequestId, r: Response)
    requires HasCause(steps, id, r)
    ensures HasCause(steps + [step], id, r)
  {
    var n :| 0 < n <= |steps| && Answering(steps[..n], id, r);
    assert (steps + [step])[..n] == steps[..n];
  }

  lemma NewCause(steps: seq<Step>, id: RequestId, r: Response)
    requires Answering(steps, id, r)
    ensures HasCause(steps, id, r)
  {
    assert steps[..|steps|] == steps;
  }

  /** A slot holds the chunks that have come for its command, and they are in order and not all. */
  ghost predicate Holds(slot: Slot, chunks: seq<ChunkMessage>) {
    match slot
    case Free => true
    case Awaiting(_) => chunks == []
    case Collecting(_, a) =>
      chunks != [] && InOrder(chunks) && |chunks| < chunks[0].total == a.total && a.parts == TextsOf(chunks)
  }

  lemma ChunkHeld(slot: Slot, chunks: seq<ChunkMessage>, m: ChunkMessage)
    requires ValidSlot(slot) && Holds(slot, chunks)
    ensures var (next, response) := NextSlot(slot, m);
      Holds(next, chunks + [m]) && (response.Some? ==> ChunksAnswer(chunks + [m], response.value))
  {
    var texts := TextsOf(chunks);
    assert TextsOf(chunks + [m]) == texts + [m.chunk];
    TotalSizeAppend(texts, m.chunk);
    assert chunks == [] ==> texts == [] && TotalSize(texts) == 0;
  }

  /** The answer on its way to the caller, in its channel, and taken. */
  ghost function Coming(s: State, id: RequestId): Option<Response> {
    if id in s.calls && s.delivering.Some? && s.delivering.value.0 == s.calls[id].channel then Some(s.delivering.value.1) else None
  }

  ghost function There(s: State, id: RequestId): Option<Response> {
    if id in s.calls && s.calls[id].channel in s.channels then s.channels[s.calls[id].channel].content else None
  }

  ghost function Taken(s: State, id: RequestId): Option<Response> {
    if id in s.calls then AnswerOf(s.calls[id]) else None
  }

  /** A step moves an answer on, or it answers the command. */
  lemma ComingMoves(s: State, step: Step, id: RequestId)
    requires Inv(s) && Enabled(s, step)
    ensures var t := Next(s, step);
      Coming(t, id).Some? && Coming(t, id) != Coming(s, id) ==>
        match step
        case ReadResponse(i, payload, error) => i == id && id in s.table && Coming(t, id) == Some(Reply(payload, error))
        case ReadChunk(m) => m.id == id && id in s.table && Coming(t, id) == NextSlot(SlotIn(s.table, id), m).1
        case _ => false
  {
    hide ValidSlot, NextSlot;
    if step.ReadChunk? {
      ChunkKeepsSlotValid(SlotIn(s.table, step.message.id), step.message);
    }
  }

  lemma ThereMoves(s: State, step: Step, id: RequestId)
    requires Inv(s) && Enabled(s, step)
    ensures var t := Next(s, step);
      There(t, id).Some? && There(t, id) != There(s, id) ==>
        There(t, id) == Coming(s, id) || (step.DrainTable? && id in s.table && There(t, id) == Some(Failed(Disconnected(step.cause))))
  {
    hide ValidSlot;
  }

  lemma TakenMoves(s: State, step: Step, id: RequestId)
    requires Inv(s) && Enabled(s, step)
    ensures var t := Next(s, step); Taken(t, id).Some? && Taken(t, id) != Taken(s, id) ==> Taken(t, id) == There(s, id)
  {
    hide Inv;
  }

  /** Every answer has its cause in the steps so far. */
  ghost predicate Traced(steps: seq<Step>, s: State, id: RequestId) {
    && (id in s.calls ==> exists j :: 0 <= j < |steps| && steps[j].RegisterCall? && steps[j].id == id)
    && Holds(SlotIn(s.table, id), ChunksFor(steps, id))
    && (Coming(s, id).Some? ==> HasCause(steps, id, Coming(s, id).value))
    && (There(s, id).Some? ==> HasCause(steps, id, There(s, id).value))
    && (Taken(s, id).Some? ==> HasCause(steps, id, Taken(s, id).value))
  }

  lemma RegisteredStays(steps: seq<Step>, s: State, step: Step, id: RequestId)
    requires Enabled(s, step)
    requires id in s.calls ==> exists j :: 0 <= j < |steps| && steps[j].RegisterCall? && steps[j].id == id
    requires id in Next(s, step).calls
    ensures exists j :: 0 <= j < |steps + [step]| && (steps + [step])[j].RegisterCall? && (steps + [step])[j].id == id
  {
    var all := steps + [step];
    if id in s.calls {
      var j :| 0 <= j < |steps| && steps[j].RegisterCall? && steps[j].id == id;
      assert all[j] == steps[j];
    } else {
      assert all[|steps|] == step;
    }
  }

  lemma HoldsStays(steps: seq<Step>, s: State, step: Step, id: RequestId)
    requires Inv(s) && Enabled(s, step) && Holds(SlotIn(s.table, id), ChunksFor(steps, id))
    ensures Holds(SlotIn(Next(s, step).table, id), ChunksFor(steps + [step], id))
    ensures step.ReadChunk? && step.message.id == id && NextSlot(SlotIn(s.table, id), step.message).1.Some? ==>
              ChunksAnswer(ChunksFor(steps + [step], id), NextSlot(SlotIn(s.table, id), step.message).1.value)
  {
    hide NextSlot, InOrder, ChunksAnswer;
    assert (steps + [step])[..|steps|] == steps;
    if step.ReadChunk? && step.message.id == id {
      ChunkHeld(SlotIn(s.table, id), ChunksFor(steps, id), step.message);
    }
  }

  lemma StepTraced(steps: seq<Step>, s: State, step: Step, id: RequestId)
    requires Inv(s) && Enabled(s, step) && Traced(steps, s, id)
    ensures Traced(steps + [step], Next(s, step), id)
  {
    hide Inv, Enabled, Next, NextSlot, Holds, HasCause, ChunksAnswer, ChunksFor;
    hide Coming, There, Taken;
    var t, all := Next(s, step), steps + [step];
    assert all[|all| - 1] == step;
    HoldsStays(steps, s, step, id);
    if id in t.calls { RegisteredStays(steps, s, step, id); }
    ComingMoves(s, step, id);
    ThereMoves(s, step, id);
    TakenMoves(s, step, id);
    InTableIsCalled(s, step, id);
    forall r | r == Coming(s, id) || r == There(s, id) || r == Taken(s, id)
      ensures r.Some? ==> HasCause(all, id, r.value)
    {
      if r.Some? { CauseStays(steps, step, id, r.value); }
    }
    if Coming(t, id).Some? && Coming(t, id) != Coming(s, id) {
      assert Answering(all, id, Coming(t, id).value);
      NewCause(all, id, Coming(t, id).value);
    }
    if There(t, id).Some? && There(t, id) != There(s, id) && There(t, id) != Coming(s, id) {
      assert Answering(all, id, There(t, id).value);
      NewCause(all, id, There(t, id).value);
    }
  }

  lemma InTableIsCalled(s: State, step: Step, id: RequestId)
    requires Inv(s) && Enabled(s, step)
    ensures id in s.table ==> id in s.calls
    ensures id in s.calls ==> id in Next(s, step).calls
  {
  }

  lemma {:induction false} RunTraced(before: seq<Step>, s: State, steps: seq<Step>, id: RequestId)
    requires Inv(s) && IsRun(s, steps) && Traced(before, s, id)
    ensures Traced(before + steps, After(s, steps), id)
    decreases |steps|
  {
    hide Inv, Enabled, Next, Traced;
    if steps == [] {
      assert before + steps == before;
    } else {
      StepKeeps(s, steps[0]);
      StepTraced(before, s, steps[0], id);
      RunTraced(before + [steps[0]], Next(s, steps[0]), steps[1..], id);
      assert before + [steps[0]] + steps[1..] == before + steps;
    }
  }

  /** Over every run, the answer with which a caller leaves has its cause: a response to this command, the
      chunks of this command, or the close of the connection, after the command was registered. */
  lemma AnswersHaveCauses(steps: seq<Step>, id: RequestId, r: Response)
    requires IsRun(INITIAL, steps) && id in After(INITIAL, steps).calls
    requires var phase := After(INITIAL, steps).calls[id].phase; phase == Leaving(Answered(r)) || phase == Returned(Answered(r))
    ensures HasCause(steps, id, r)
  {
    assert Traced([], INITIAL, id);
    RunTraced([], INITIAL, steps, id);
    assert [] + steps == steps;
  }

  // ----- A command that is answered -----

  lemma OneMoreStep(s: State, step: Step, rest: seq<Step>)
    requires Enabled(s, step) && IsRun(Next(s, step), rest)
    ensures IsRun(s, [step] + rest) && After(s, [step] + rest) == After(Next(s, step), rest)
  {
    assert ([step] + rest)[1..] == rest;
  }

  lemma NoMoreSteps(s: State)
    ensures IsRun(s, []) && After(s, []) == s
  {
  }

  lemma WaitingIsAnswered(s: State, id: RequestId, channel: Channel, payload: Bytes, error: string)
    requires id in s.calls && s.calls[id] == Call(channel, Waiting) && s.delivering.None?
    requires SlotIn(s.table, id) == Awaiting(channel) && channel in s.channels && s.channels[channel].content.None?
    ensures var steps := [ReadResponse(id, payload, error)] + ([Notify] + ([TakeAnswer(id)] + ([Leave(id)] + [])));
      IsRun(s, steps) && id in After(s, steps).calls && After(s, steps).calls[id].phase == Returned(Answered(Reply(payload, error)))
  {
    hide IsRun, After;
    var s1 := Next(s, ReadResponse(id, payload, error));
    var s2 := Next(s1, Notify);
    var s3 := Next(s2, TakeAnswer(id));
    NoMoreSteps(Next(s3, Leave(id)));
    OneMoreStep(s3, Leave(id), []);
    OneMoreStep(s2, TakeAnswer(id), [Leave(id)] + []);
    OneMoreStep(s1, Notify, [TakeAnswer(id)] + ([Leave(id)] + []));
    OneMoreStep(s, ReadResponse(id, payload, error), [Notify] + ([TakeAnswer(id)] + ([Leave(id)] + [])));
  }

  /** While the socket is open and the reader between two messages, a new command can be registered, written
      and answered, and its caller then returns with that very answer. */
  lemma NewCommandIsAnswered(s: State, id: RequestId, channel: Channel, payload: Bytes, error: string)
    requires s.socketOpen && s.delivering.None? && id !in s.calls && channel !in s.channels && id != ""
    ensures var steps := [RegisterCall(id, channel)] + ([WriteCommand(id, true)] + ([ReadResponse(id, payload, error)]
                         + ([Notify] + ([TakeAnswer(id)] + ([Leave(id)] + [])))));
      IsRun(s, steps) && id in After(s, steps).calls && After(s, steps).calls[id].phase == Returned(Answered(Reply(payload, error)))
  {
    hide IsRun, After;
    var s1 := Next(s, RegisterCall(id, channel));
    var s2 := Next(s1, WriteCommand(id, true));
    var answer := [ReadResponse(id, payload, error)] + ([Notify] + ([TakeAnswer(id)] + ([Leave(id)] + [])));
    WaitingIsAnswered(s2, id, channel, payload, error);
    OneMoreStep(s1, WriteCommand(id, true), answer);
    OneMoreStep(s, RegisterCall(id, channel), [WriteCommand(id, true)] + answer);
  }
}
