/**
 Which answer a plugin's request gets, over whole runs of `SessionRequests`: the response that a reader has for
 it, or the notice that its stream has ended.
 */
module RequestAnswers {
  import opened Wrappers
  import opened SessionClients
  import opened SessionRequests

  function AnswerOf(call: Call): Option<Envelope> {
    match call.phase
    case Leaving(Answered(r)) => Some(r)
    case Returned(Answered(r)) => Some(r)
    case _ => None
  }

  // ----- From a response to the caller -----

  /** Nothing but r is on its way to the channel. */
  ghost predicate OnlyComing(delivering: Deliveries, c: Channel, r: Envelope) {
    forall reader :: reader in delivering && delivering[reader].0 == c ==> delivering[reader].1 == r
  }

  /** The request has been answered by r, and by nothing else. */
  ghost predicate AnsweredWith(s: State, id: RequestId, r: Envelope) {
    && id in s.calls && id !in s.client.pending && s.calls[id].channel in s.channels
    && var c := s.calls[id].channel;
    && OnlyComing(s.delivering, c, r)
    && (s.channels[c].content.Some? ==> s.channels[c].content == Some(r))
    && (AnswerOf(s.calls[id]).Some? ==> AnswerOf(s.calls[id]) == Some(r))
    && (!s.calls[id].phase.Returned? ==> AnswerComing(s.channels, s.delivering, c))
  }

  /** Answers that are coming keep coming until the caller takes them. */
  lemma ComingStays(s: State, step: Step, id: RequestId)
    requires Inv(s) && Enabled(s, step) && id in s.calls && !Next(s, step).calls[id].phase.Returned?
    requires AnswerComing(s.channels, s.delivering, s.calls[id].channel)
    ensures AnswerComing(Next(s, step).channels, Next(s, step).delivering, s.calls[id].channel)
  {
    var t, c := Next(s, step), s.calls[id].channel;
    if !Unclaimed(s.delivering, c) {
      var r :| r in s.delivering && s.delivering[r].0 == c;
      assert step != Deliver(r) ==> r in t.delivering && t.delivering[r] == s.delivering[r];
    }
  }

  lemma NothingElseComes(s: State, step: Step, id: RequestId, r: Envelope)
    requires Inv(s) && Enabled(s, step) && AnsweredWith(s, id, r)
    ensures OnlyComing(Next(s, step).delivering, s.calls[id].channel, r)
    ensures step.EndStream? ==> s.calls[id].channel !in AnsweredBy(s.client, step.epoch)
  {
    hide AnsweredOnce, AnswerComing, NobodyStranded;
    forall other | other in s.client.pending
      ensures s.client.pending[other] != s.calls[id].channel
    {
      assert EntrySound(s, other, s.client.pending[other]);
    }
  }

  lemma AnsweredWithStays(s: State, step: Step, id: RequestId, r: Envelope)
    requires Inv(s) && Enabled(s, step) && AnsweredWith(s, id, r)
    ensures AnsweredWith(Next(s, step), id, r)
  {
    hide AnswerComing, TableSound, AnsweredOnce, NobodyStranded;
    NothingElseComes(s, step, id, r);
    if !Next(s, step).calls[id].phase.Returned? {
      ComingStays(s, step, id);
    }
  }

  lemma {:induction false} AnsweredWithOverRun(s: State, steps: seq<Step>, id: RequestId, r: Envelope)
    requires Inv(s) && IsRun(s, steps) && AnsweredWith(s, id, r)
    ensures AnsweredWith(After(s, steps), id, r) && Inv(After(s, steps))
    decreases |steps|
  {
    hide Inv, Enabled, Next, AnsweredWith;
    if steps != [] {
      StepKeeps(s, steps[0]);
      AnsweredWithStays(s, steps[0], id, r);
      AnsweredWithOverRun(Next(s, steps[0]), steps[1..], id, r);
    }
  }

  /** The caller returns with no other answer than r; it is cancelled, or sees the stream end, or gets r. */
  ghost predicate Gets(s: State, id: RequestId, r: Envelope) {
    && id in s.calls
    && (forall x :: s.calls[id].phase == Returned(Answered(x)) ==> x == r)
    && (s.calls[id].phase == Waiting ==>
          var c := s.calls[id].channel;
          (c in s.channels && s.channels[c].content == Some(r))
          || exists reader :: reader in s.delivering && s.delivering[reader] == (c, r))
  }

  lemma AnsweredGets(s: State, id: RequestId, r: Envelope)
    requires AnsweredWith(s, id, r)
    ensures Gets(s, id, r)
  {
    var c := s.calls[id].channel;
    if s.calls[id].phase == Waiting && s.channels[c].content.None? {
      var reader :| reader in s.delivering && s.delivering[reader].0 == c;
      assert s.delivering[reader] == (c, r);
    }
  }

  /** A caller whose request is in the table has no answer yet. */
  lemma NotYetAnswered(s: State, id: RequestId)
    requires Inv(s) && Unanswered(s) && id in s.client.pending
    ensures id in s.calls && AnswerOf(s.calls[id]).None?
  {
    assert EntrySound(s, id, s.client.pending[id]);
  }

  /** Who has returned with an answer has taken it from its channel. */
  ghost predicate Unanswered(s: State) {
    forall id :: id in s.calls && AnswerOf(s.calls[id]).Some? ==> s.calls[id].phase.Returned?
  }

  lemma {:induction false} RunKeepsUnanswered(s: State, steps: seq<Step>)
    requires Unanswered(s) && Inv(s) && IsRun(s, steps)
    ensures Unanswered(After(s, steps)) && Inv(After(s, steps))
    decreases |steps|
  {
    hide Inv, Enabled, Next, Unanswered;
    if steps != [] {
      StepKeeps(s, steps[0]);
      StepKeepsUnanswered(s, steps[0]);
      RunKeepsUnanswered(Next(s, steps[0]), steps[1..]);
    }
  }

  lemma StepKeepsUnanswered(s: State, step: Step)
    requires Unanswered(s) && Enabled(s, step)
    ensures Unanswered(Next(s, step))
  {
  }

  lemma ReadAnswers(s: State, reader: Epoch, id: RequestId, r: Envelope)
    requires Inv(s) && Unanswered(s) && id in s.client.pending && Enabled(s, ReadResponse(reader, id, r))
    ensures AnsweredWith(Next(s, ReadResponse(reader, id, r)), id, r)
  {
    NotYetAnswered(s, id);
    assert EntrySound(s, id, s.client.pending[id]);
    assert Next(s, ReadResponse(reader, id, r)).delivering[reader] == (s.calls[id].channel, r);
  }

  lemma EndAnswers(s: State, epoch: Epoch, id: RequestId)
    requires Inv(s) && Unanswered(s) && id in s.client.pending && Enabled(s, EndStream(epoch)) && s.client.stream == Some(epoch)
    ensures AnsweredWith(Next(s, EndStream(epoch)), id, "browser bridge disconnected")
  {
    NotYetAnswered(s, id);
    assert EntrySound(s, id, s.client.pending[id]);
  }

  lemma StartsSound()
    ensures Inv(INITIAL) && Unanswered(INITIAL)
  {
  }

  /** The response that a reader has for an outstanding request is what its caller gets, whatever happens next. */
  lemma ResponseReachesCaller(before: seq<Step>, reader: Epoch, id: RequestId, r: Envelope, after: seq<Step>)
    requires IsRun(INITIAL, before) && id in After(INITIAL, before).client.pending
    requires Enabled(After(INITIAL, before), ReadResponse(reader, id, r))
    requires IsRun(Next(After(INITIAL, before), ReadResponse(reader, id, r)), after)
    ensures Gets(After(Next(After(INITIAL, before), ReadResponse(reader, id, r)), after), id, r)
  {
    hide Next, Enabled, Inv, AnsweredWith, Gets, Unanswered;
    var s, step := After(INITIAL, before), ReadResponse(reader, id, r);
    StartsSound();
    RunKeepsUnanswered(INITIAL, before);
    StepKeeps(s, step);
    ReadAnswers(s, reader, id, r);
    AnsweredWithOverRun(Next(s, step), after, id, r);
    AnsweredGets(After(Next(s, step), after), id, r);
  }

  /** The end of its stream is what the caller of an outstanding request gets to know. */
  lemma EndReachesCaller(before: seq<Step>, epoch: Epoch, id: RequestId, after: seq<Step>)
    requires IsRun(INITIAL, before) && id in After(INITIAL, before).client.pending
    requires After(INITIAL, before).client.stream == Some(epoch) && Enabled(After(INITIAL, before), EndStream(epoch))
    requires IsRun(Next(After(INITIAL, before), EndStream(epoch)), after)
    ensures Gets(After(Next(After(INITIAL, before), EndStream(epoch)), after), id, "browser bridge disconnected")
  {
    hide Next, Enabled, Inv, AnsweredWith, Gets, Unanswered;
    var s, step := After(INITIAL, before), EndStream(epoch);
    StartsSound();
    RunKeepsUnanswered(INITIAL, before);
    StepKeeps(s, step);
    EndAnswers(s, epoch, id);
    AnsweredWithOverRun(Next(s, step), after, id, "browser bridge disconnected");
    AnsweredGets(After(Next(s, step), after), id, "browser bridge disconnected");
  }

  // ----- From the caller back to a response -----

  /** The last of the steps answers the request with r. */
  ghost predicate Answering(steps: seq<Step>, id: RequestId, r: Envelope) {
    && steps != []
    && (exists j :: 0 <= j < |steps| && steps[j].BeginRequest? && steps[j].id == id)
    && match steps[|steps| - 1]
       case ReadResponse(_, i, envelope) => i == id && r == envelope
       case EndStream(_) => r == "browser bridge disconnected"
       case _ => false
  }

  ghost predicate HasCause(steps: seq<Step>, id: RequestId, r: Envelope) {
    exists n :: 0 < n <= |steps| && Answering(steps[..n], id, r)
  }

  lemma CauseStays(steps: seq<Step>, step: Step, id: RequestId, r: Envelope)
    requires HasCause(steps, id, r)
    ensures HasCause(steps + [step], id, r)
  {
    var n :| 0 < n <= |steps| && Answering(steps[..n], id, r);
    assert (steps + [step])[..n] == steps[..n];
  }

  lemma NewCause(steps: seq<Step>, id: RequestId, r: Envelope)
    requires Answering(steps, id, r)
    ensures HasCause(steps, id, r)
  {
    assert steps[..|steps|] == steps;
  }

  ghost function Coming(s: State, reader: Epoch, id: RequestId): Option<Envelope> {
    if id in s.calls && reader in s.delivering && s.delivering[reader].0 == s.calls[id].channel
    then Some(s.delivering[reader].1) else None
  }

  ghost function There(s: State, id: RequestId): Option<Envelope> {
    if id in s.calls && s.calls[id].channel in s.channels then s.channels[s.calls[id].channel].content else None
  }

  ghost function Taken(s: State, id: RequestId): Option<Envelope> {
    if id in s.calls then AnswerOf(s.calls[id]) else None
  }

  /** A step moves an answer on, or it answers the request. */
  lemma ComingMoves(s: State, step: Step, reader: Epoch, id: RequestId)
    requires Inv(s) && Enabled(s, step)
    ensures var t := Next(s, step);
      Coming(t, reader, id).Some? && Coming(t, reader, id) != Coming(s, reader, id) ==>
        step == ReadResponse(reader, id, Coming(t, reader, id).value) && id in s.client.pending
  {
    hide AnswerComing, NobodyStranded;
    assert forall other :: other in s.client.pending ==> EntrySound(s, other, s.client.pending[other]);
  }

  lemma ThereMoves(s: State, step: Step, id: RequestId)
    requires Inv(s) && Enabled(s, step)
    ensures var t := Next(s, step);
      There(t, id).Some? && There(t, id) != There(s, id) ==>
        (step.Deliver? && There(t, id) == Coming(s, step.reader, id))
        || (step.EndStream? && id in s.calls && There(t, id) == Some("browser bridge disconnected"))
  {
    hide AnswerComing, AnsweredOnce, NobodyStranded;
    assert forall other :: other in s.client.pending ==> EntrySound(s, other, s.client.pending[other]);
  }

  lemma TakenMoves(s: State, step: Step, id: RequestId)
    requires Unanswered(s) && Enabled(s, step)
    ensures var t := Next(s, step); Taken(t, id).Some? && Taken(t, id) != Taken(s, id) ==> Taken(t, id) == There(s, id)
  {
    if step.Leave? {
      assert AnswerOf(s.calls[step.id]).None?;
    }
  }

  ghost predicate Begun(steps: seq<Step>, id: RequestId) {
    exists j :: 0 <= j < |steps| && steps[j].BeginRequest? && steps[j].id == id
  }

  lemma BegunStays(steps: seq<Step>, s: State, step: Step, id: RequestId)
    requires Enabled(s, step) && (id in s.calls ==> Begun(steps, id))
    ensures id in Next(s, step).calls ==> Begun(steps + [step], id)
  {
    var all := steps + [step];
    assert all[|steps|] == step;
    if id in s.calls {
      var j :| 0 <= j < |steps| && steps[j].BeginRequest? && steps[j].id == id;
      assert all[j] == steps[j];
    }
  }

  ghost predicate Traced(steps: seq<Step>, s: State, id: RequestId) {
    && (id in s.calls ==> Begun(steps, id))
    && (forall reader :: ComingTraced(steps, s, reader, id))
    && (There(s, id).Some? ==> HasCause(steps, id, There(s, id).value))
    && (Taken(s, id).Some? ==> HasCause(steps, id, Taken(s, id).value))
  }

  ghost predicate ComingTraced(steps: seq<Step>, s: State, reader: Epoch, id: RequestId) {
    Coming(s, reader, id).Some? ==> HasCause(steps, id, Coming(s, reader, id).value)
  }

  lemma InTableIsCalled(s: State, id: RequestId)
    requires Inv(s) && id in s.client.pending
    ensures id in s.calls
  {
    assert EntrySound(s, id, s.client.pending[id]);
  }

  lemma StaysCalled(s: State, step: Step, id: RequestId)
    requires Enabled(s, step) && id in s.calls
    ensures id in Next(s, step).calls
  {
  }

  lemma StepTraced(steps: seq<Step>, s: State, step: Step, id: RequestId)
    requires Inv(s) && Unanswered(s) && Enabled(s, step) && Traced(steps, s, id)
    ensures Traced(steps + [step], Next(s, step), id)
  {
    hide Inv, Unanswered, Enabled, Next, HasCause, Coming, There, Taken, Begun;
    var t, all := Next(s, step), steps + [step];
    assert all[|all| - 1] == step;
    BegunStays(steps, s, step, id);
    if id in s.calls {
      StaysCalled(s, step, id);
    }
    forall reader
      ensures ComingTraced(all, t, reader, id)
    {
      ComingMoves(s, step, reader, id);
      assert ComingTraced(steps, s, reader, id);
      if Coming(t, reader, id).Some? {
        if Coming(t, reader, id) == Coming(s, reader, id) {
          CauseStays(steps, step, id, Coming(t, reader, id).value);
        } else {
          InTableIsCalled(s, id);
          Caused(all, step, id, Coming(t, reader, id).value);
        }
      }
    }
    ThereMoves(s, step, id);
    if There(t, id).Some? {
      if There(t, id) == There(s, id) {
        CauseStays(steps, step, id, There(t, id).value);
      } else if step.Deliver? {
        assert ComingTraced(steps, s, step.reader, id);
        CauseStays(steps, step, id, There(t, id).value);
      } else {
        Caused(all, step, id, There(t, id).value);
      }
    }
    TakenMoves(s, step, id);
    if Taken(t, id).Some? {
      CauseStays(steps, step, id, Taken(t, id).value);
    }
  }

  lemma Caused(steps: seq<Step>, step: Step, id: RequestId, r: Envelope)
    requires steps != [] && steps[|steps| - 1] == step && Begun(steps, id)
    requires (step.ReadResponse? && step.id == id && step.envelope == r) || (step.EndStream? && r == "browser bridge disconnected")
    ensures HasCause(steps, id, r)
  {
    NewCause(steps, id, r);
  }

  lemma {:induction false} RunTraced(before: seq<Step>, s: State, steps: seq<Step>, id: RequestId)
    requires Inv(s) && Unanswered(s) && IsRun(s, steps) && Traced(before, s, id)
    ensures Traced(before + steps, After(s, steps), id)
    decreases |steps|
  {
    hide Inv, Enabled, Next, Traced, Unanswered;
    if steps == [] {
      assert before + steps == before;
    } else {
      StepKeeps(s, steps[0]);
      StepKeepsUnanswered(s, steps[0]);
      StepTraced(before, s, steps[0], id);
      RunTraced(before + [steps[0]], Next(s, steps[0]), steps[1..], id);
      assert before + [steps[0]] + steps[1..] == before + steps;
    }
  }

  /** Over every run, the answer with which a caller returns is a response to this very request, or the notice
      that a stream has ended, after the request was made. */
  lemma AnswersHaveCauses(steps: seq<Step>, id: RequestId, r: Envelope)
    requires IsRun(INITIAL, steps) && id in After(INITIAL, steps).calls
    requires After(INITIAL, steps).calls[id].phase == Returned(Answered(r))
    ensures HasCause(steps, id, r)
  {
    StartsSound();
    assert forall reader :: ComingTraced([], INITIAL, reader, id);
    assert Traced([], INITIAL, id);
    RunTraced([], INITIAL, steps, id);
    assert [] + steps == steps;
  }

  // ----- A request that is answered -----

  lemma OneMoreStep(s: State, step: Step, rest: seq<Step>)
    requires Enabled(s, step) && IsRun(Next(s, step), rest)
    ensures IsRun(s, [step] + rest) && After(s, [step] + rest) == After(Next(s, step), rest)
  {
    assert ([step] + rest)[1..] == rest;
  }

  lemma NoMoreSteps(s: State)
    ensures IsRun(s, []) && After(s, []) == s
  {
  }

  lemma WaitingIsAnswered(s: State, epoch: Epoch, id: RequestId, channel: Channel, r: Envelope)
    requires id in s.calls && s.calls[id].channel == channel && s.calls[id].phase == Waiting
    requires id in s.client.pending && s.client.pending[id] == channel && Empty(s, channel) && epoch !in s.delivering
    ensures var steps := [ReadResponse(epoch, id, r)] + ([Deliver(epoch)] + ([TakeAnswer(id)] + []));
      IsRun(s, steps) && id in After(s, steps).calls && After(s, steps).calls[id].phase == Returned(Answered(r))
  {
    hide IsRun, After;
    var s1 := Next(s, ReadResponse(epoch, id, r));
    var s2 := Next(s1, Deliver(epoch));
    NoMoreSteps(Next(s2, TakeAnswer(id)));
    OneMoreStep(s2, TakeAnswer(id), []);
    OneMoreStep(s1, Deliver(epoch), [TakeAnswer(id)] + []);
    OneMoreStep(s, ReadResponse(epoch, id, r), [Deliver(epoch)] + ([TakeAnswer(id)] + []));
  }

  /** Once a stream is attached a new request can be made, sent and answered, and its caller then returns with
      that very answer. */
  lemma NewRequestIsAnswered(s: State, epoch: Epoch, id: RequestId, channel: Channel, r: Envelope)
    requires s.client.stream.None? && epoch !in s.ended && epoch !in s.delivering && id !in s.calls && channel !in s.channels
    ensures var steps := [AttachStream(epoch)] + ([BeginRequest(id, channel)] + ([Enqueue(id, true)]
                         + ([ReadResponse(epoch, id, r)] + ([Deliver(epoch)] + ([TakeAnswer(id)] + [])))));
      IsRun(s, steps) && id in After(s, steps).calls && After(s, steps).calls[id].phase == Returned(Answered(r))
  {
    hide IsRun, After;
    var s1 := Next(s, AttachStream(epoch));
    var s2 := Next(s1, BeginRequest(id, channel));
    var s3 := Next(s2, Enqueue(id, true));
    var answer := [ReadResponse(epoch, id, r)] + ([Deliver(epoch)] + ([TakeAnswer(id)] + []));
    WaitingIsAnswered(s3, epoch, id, channel, r);
    OneMoreStep(s2, Enqueue(id, true), answer);
    OneMoreStep(s1, BeginRequest(id, channel), [Enqueue(id, true)] + answer);
    OneMoreStep(s, AttachStream(epoch), [BeginRequest(id, channel)] + ([Enqueue(id, true)] + answer));
  }
}
