/**
 Requests of a plugin to its host over one stream at a time: callers, the readers of old and new streams,
 and disconnects, in any order. A step is one region under the client's lock, whose effect on the tables
 is that of `SessionClients`, or one action between two of them.
 */
module SessionRequests {
  import opened Wrappers
  import Maps
  import opened SessionClients

  type Envelope = string

  datatype Outcome = Answered(envelope: Envelope) | NotSent | Cancelled | Disconnected

  /** A caller that gives up has yet to take its request out of the table. */
  datatype Phase = Registered | Waiting | Leaving(outcome: Outcome) | Returned(outcome: Outcome)

  datatype Call = Call(channel: Channel, epoch: Epoch, phase: Phase)

  datatype Buffer = Buffer(content: Option<Envelope>, accepted: nat)

  type Channels = map<Channel, Buffer>
  type Deliveries = map<Epoch, (Channel, Envelope)>

  /** Readers are named by their streams; several can be running, each between its lock and its send. */
  datatype State = State(
    client: Client,
    ended: set<Epoch>,
    calls: map<RequestId, Call>,
    channels: Channels,
    delivering: Deliveries)

  datatype Step =
    | AttachStream(epoch: Epoch)
    | BeginRequest(id: RequestId, channel: Channel)
    | Enqueue(id: RequestId, ok: bool)
    | CancelRequest(id: RequestId)
    | Leave(id: RequestId)
    | SeeDisconnect(id: RequestId)
    | TakeAnswer(id: RequestId)
    | ReadResponse(reader: Epoch, id: RequestId, envelope: Envelope)
    | Deliver(reader: Epoch)
    | EndStream(epoch: Epoch)
    | OnCaptures(region: Region)

  const INITIAL := State(DETACHED, {}, map[], map[], map[])

  const GONE: Envelope := "browser bridge disconnected"

  ghost predicate InPhase(s: State, id: RequestId, phase: Phase) { id in s.calls && s.calls[id].phase == phase }

  ghost function Entering(s: State, id: RequestId, phase: Phase): State
    requires id in s.calls
  {
    s.(calls := s.calls[id := s.calls[id].(phase := phase)])
  }

  ghost predicate Empty(s: State, c: Channel) { c in s.channels && s.channels[c].content.None? }

  /** A send on a full channel would block, so it is not enabled there. */
  ghost predicate Enabled(s: State, step: Step) {
    match step
    case AttachStream(epoch) => epoch !in s.ended
    case BeginRequest(id, channel) => id !in s.calls && channel !in s.channels
    case Enqueue(id, ok) => InPhase(s, id, Registered) && (ok ==> s.client.stream.Some?)
    case CancelRequest(id) => InPhase(s, id, Waiting)
    case Leave(id) => id in s.calls && s.calls[id].phase.Leaving?
    case SeeDisconnect(id) => InPhase(s, id, Waiting) && s.calls[id].epoch in s.ended
    case TakeAnswer(id) =>
      InPhase(s, id, Waiting) && s.calls[id].channel in s.channels && s.channels[s.calls[id].channel].content.Some?
    case ReadResponse(reader, _, _) => reader !in s.delivering
    case Deliver(reader) => reader in s.delivering && Empty(s, s.delivering[reader].0)
    case EndStream(epoch) => forall c :: c in AnsweredBy(s.client, epoch) ==> Empty(s, c)
    case OnCaptures(region) => region.Route? || region.Adopt? || region.Unregister?
  }

  ghost function In(s: State, region: Region): State { s.(client := Effect(s.client, region)) }

  ghost function Next(s: State, step: Step): State
    requires Enabled(s, step)
  {
    match step
    case AttachStream(epoch) => In(s, Attach(epoch))
    case BeginRequest(id, channel) =>
      if s.client.stream.None? then s
      else In(s, Begin(id, channel)).(calls := s.calls[id := Call(channel, s.client.stream.value, Registered)],
                                      channels := s.channels[channel := Buffer(None, 0)])
    case Enqueue(id, ok) => Entering(s, id, if ok then Waiting else Leaving(NotSent))
    case CancelRequest(id) => Entering(s, id, Leaving(Cancelled))
    case Leave(id) => Entering(In(s, Forget(id)), id, Returned(s.calls[id].phase.outcome))
    case SeeDisconnect(id) => Entering(s, id, Returned(Disconnected))
    case TakeAnswer(id) =>
      var c := s.calls[id].channel;
      Entering(s, id, Returned(Answered(s.channels[c].content.value))).(channels := s.channels[c := s.channels[c].(content := None)])
    case ReadResponse(reader, id, envelope) =>
      var channel := Maps.Find(s.client.pending, id);
      In(s, Respond(id)).(delivering := if channel.Some? then s.delivering[reader := (channel.value, envelope)] else s.delivering)
    case Deliver(reader) =>
      var (c, envelope) := s.delivering[reader];
      s.(channels := s.channels[c := Sent(s.channels[c], envelope)], delivering := s.delivering - {reader})
    case EndStream(epoch) =>
      var answered := AnsweredBy(s.client, epoch);
      In(s, Region.Disconnect(epoch)).(
        ended := if s.client.stream == Some(epoch) then s.ended + {epoch} else s.ended,
        channels := Answering(s.channels, answered))
    case OnCaptures(region) => In(s, region)
  }

  ghost function Sent(b: Buffer, envelope: Envelope): Buffer { Buffer(Some(envelope), b.accepted + 1) }

  ghost predicate IsRun(s: State, steps: seq<Step>)
    decreases |steps|
  {
    steps == [] || (Enabled(s, steps[0]) && IsRun(Next(s, steps[0]), steps[1..]))
  }

  ghost function After(s: State, steps: seq<Step>): State
    requires IsRun(s, steps)
    decreases |steps|
  {
    if steps == [] then s else After(Next(s, steps[0]), steps[1..])
  }

  ghost predicate ChannelsPrivate(calls: map<RequestId, Call>, channels: Channels) {
    && (forall id :: id in calls ==> calls[id].channel in channels)
    && (forall id, other :: id in calls && other in calls && id != other ==> calls[id].channel != calls[other].channel)
  }

  /** Requests in the table belong to the stream in force and to calls that have not returned, and nobody
      has answered them. */
  ghost predicate TableSound(s: State) {
    && (s.client.stream.Some? ==> s.client.stream.value !in s.ended)
    && forall id :: id in s.client.pending ==> EntrySound(s, id, s.client.pending[id])
  }

  ghost predicate EntrySound(s: State, id: RequestId, c: Channel) {
    && id in s.calls && s.calls[id].channel == c && !s.calls[id].phase.Returned?
    && s.client.stream == Some(s.calls[id].epoch)
    && c in s.channels && s.channels[c] == Buffer(None, 0)
    && Unclaimed(s.delivering, c)
  }

  /** No reader is about to send on the channel. */
  ghost predicate Unclaimed(delivering: Deliveries, c: Channel) {
    forall r :: r in delivering ==> delivering[r].0 != c
  }

  /** No channel is answered twice, and no send in progress can find its channel full. */
  ghost predicate AnsweredOnce(channels: Channels, delivering: Deliveries) {
    && (forall c :: c in channels ==> channels[c].accepted <= 1)
    && (forall r :: r in delivering ==> delivering[r].0 in channels && channels[delivering[r].0] == Buffer(None, 0))
    && (forall r, q :: r in delivering && q in delivering && r != q ==> delivering[r].0 != delivering[q].0)
  }

  ghost predicate AnswerComing(channels: Channels, delivering: Deliveries, c: Channel) {
    (c in channels && channels[c].content.Some?) || !Unclaimed(delivering, c)
  }

  /** Whoever has not returned is in the table, has its answer coming, or belongs to a stream that has ended. */
  ghost predicate NobodyStranded(s: State) {
    forall id :: id in s.calls && !s.calls[id].phase.Returned? ==>
      id in s.client.pending || s.calls[id].epoch in s.ended || AnswerComing(s.channels, s.delivering, s.calls[id].channel)
  }

  ghost predicate Inv(s: State) {
    ChannelsPrivate(s.calls, s.channels) && TableSound(s) && AnsweredOnce(s.channels, s.delivering) && NobodyStranded(s)
  }

  /** A new stream, while there is none, and a new state of the captures leave the requests alone. */
  lemma ClientKeeps(s: State, client: Client)
    requires Inv(s) && client.pending == s.client.pending
    requires client.stream == s.client.stream || (s.client.stream.None? && client.stream.Some? && client.stream.value !in s.ended)
    ensures Inv(s.(client := client))
  {
    hide ChannelsPrivate, AnsweredOnce, AnswerComing;
    var t := s.(client := client);
    assert forall id, c :: EntrySound(s, id, c) ==> EntrySound(t, id, c);
  }

  lemma BeginKeeps(s: State, id: RequestId, channel: Channel)
    requires Inv(s) && Enabled(s, BeginRequest(id, channel))
    ensures Inv(Next(s, BeginRequest(id, channel)))
  {
    hide ChannelsPrivate, AnsweredOnce, AnswerComing;
    var t := Next(s, BeginRequest(id, channel));
    if s.client.stream.Some? {
      BeginChannels(s, id, channel, t);
      BeginEntries(s, id, channel);
    }
  }

  lemma BeginChannels(s: State, id: RequestId, channel: Channel, t: State)
    requires ChannelsPrivate(s.calls, s.channels) && AnsweredOnce(s.channels, s.delivering)
    requires id !in s.calls && channel !in s.channels
    requires t.channels == s.channels[channel := Buffer(None, 0)] && t.delivering == s.delivering
    requires id in t.calls && t.calls[id].channel == channel && t.calls == s.calls[id := t.calls[id]]
    ensures ChannelsPrivate(t.calls, t.channels) && AnsweredOnce(t.channels, t.delivering)
    ensures Unclaimed(s.delivering, channel)
    ensures forall c :: AnswerComing(s.channels, s.delivering, c) ==> AnswerComing(t.channels, t.delivering, c)
  {
  }

  lemma BeginEntries(s: State, id: RequestId, channel: Channel)
    requires TableSound(s) && NobodyStranded(s) && Enabled(s, BeginRequest(id, channel)) && s.client.stream.Some?
    requires Unclaimed(s.delivering, channel)
    requires var t := Next(s, BeginRequest(id, channel));
      forall c :: AnswerComing(s.channels, s.delivering, c) ==> AnswerComing(t.channels, t.delivering, c)
    ensures var t := Next(s, BeginRequest(id, channel)); TableSound(t) && NobodyStranded(t)
  {
    hide Unclaimed, AnswerComing;
    var t := Next(s, BeginRequest(id, channel));
    assert forall other, c :: other != id && EntrySound(s, other, c) ==> EntrySound(t, other, c);
    assert EntrySound(t, id, channel);
  }

  /** A caller that moves on without returning changes only its phase. */
  lemma MovesOn(s: State, id: RequestId, phase: Phase)
    requires Inv(s) && id in s.calls && !s.calls[id].phase.Returned? && !phase.Returned?
    ensures Inv(Entering(s, id, phase))
  {
    var t := Entering(s, id, phase);
    assert forall c :: AnswerComing(s.channels, s.delivering, c) ==> AnswerComing(t.channels, t.delivering, c);
    assert forall other, c :: EntrySound(s, other, c) ==> EntrySound(t, other, c);
  }

  /** A caller that is not in the table may return. */
  lemma ReturnKeeps(s: State, id: RequestId, outcome: Outcome)
    requires Inv(s) && id in s.calls && id !in s.client.pending
    ensures Inv(Entering(s, id, Returned(outcome)))
  {
    var t := Entering(s, id, Returned(outcome));
    assert forall c :: AnswerComing(s.channels, s.delivering, c) ==> AnswerComing(t.channels, t.delivering, c);
    assert forall other, c :: other != id && EntrySound(s, other, c) ==> EntrySound(t, other, c);
  }

  lemma LeaveKeeps(s: State, id: RequestId)
    requires Inv(s) && Enabled(s, Leave(id))
    ensures Inv(Next(s, Leave(id)))
  {
    var t := Next(s, Leave(id));
    assert t.delivering == s.delivering && t.channels == s.channels;
    assert forall c :: AnswerComing(s.channels, s.delivering, c) ==> AnswerComing(t.channels, t.delivering, c);
    assert forall other, c :: other != id && EntrySound(s, other, c) ==> EntrySound(t, other, c);
  }

  /** The channel of a caller that takes its answer has been used up. */
  lemma TakeAnswerKeeps(s: State, id: RequestId)
    requires Inv(s) && Enabled(s, TakeAnswer(id))
    ensures Inv(Next(s, TakeAnswer(id)))
  {
    var t, own := Next(s, TakeAnswer(id)), s.calls[id].channel;
    assert t.delivering == s.delivering;
    assert forall c :: c != own && AnswerComing(s.channels, s.delivering, c) ==> AnswerComing(t.channels, t.delivering, c);
    assert forall other, c :: c != own && other != id && EntrySound(s, other, c) ==> EntrySound(t, other, c);
  }

  /** A response that has been taken out of the table is the only one under way to its channel. */
  lemma Claims(channels: Channels, delivering: Deliveries, reader: Epoch, own: Channel, envelope: Envelope)
    requires AnsweredOnce(channels, delivering) && reader !in delivering
    requires own in channels && channels[own] == Buffer(None, 0) && Unclaimed(delivering, own)
    ensures var d := delivering[reader := (own, envelope)];
      && AnsweredOnce(channels, d) && !Unclaimed(d, own)
      && forall c :: c != own ==> (Unclaimed(d, c) <==> Unclaimed(delivering, c))
  {
    var d := delivering[reader := (own, envelope)];
    assert d[reader].0 == own;
    forall c | c != own
      ensures Unclaimed(d, c) <==> Unclaimed(delivering, c)
    {
      assert forall r :: r in delivering ==> r in d && d[r] == delivering[r];
    }
  }

  lemma ReadKeeps(s: State, reader: Epoch, id: RequestId, envelope: Envelope)
    requires Inv(s) && Enabled(s, ReadResponse(reader, id, envelope))
    ensures Inv(Next(s, ReadResponse(reader, id, envelope)))
  {
    hide ChannelsPrivate, AnsweredOnce, Unclaimed;
    var t := Next(s, ReadResponse(reader, id, envelope));
    if id in s.client.pending {
      var own := s.client.pending[id];
      assert EntrySound(s, id, own);
      Claims(s.channels, s.delivering, reader, own, envelope);
      SameChannel(s, id);
      assert forall other, c :: c != own && EntrySound(s, other, c) ==> EntrySound(t, other, c);
    } else {
      assert t.client.pending == s.client.pending;
      assert t == s;
    }
  }

  /** Only the request itself has its channel in the table. */
  lemma SameChannel(s: State, id: RequestId)
    requires Inv(s) && id in s.client.pending
    ensures forall other :: other in s.client.pending && s.client.pending[other] == s.client.pending[id] ==> other == id
  {
    assert EntrySound(s, id, s.client.pending[id]);
    assert forall other :: other in s.client.pending ==> EntrySound(s, other, s.client.pending[other]);
  }

  lemma DeliverKeeps(s: State, reader: Epoch)
    requires Inv(s) && Enabled(s, Deliver(reader))
    ensures Inv(Next(s, Deliver(reader)))
  {
    var t, own := Next(s, Deliver(reader)), s.delivering[reader].0;
    assert forall r :: r in s.delivering && r != reader ==> r in t.delivering && t.delivering[r] == s.delivering[r];
    assert forall c :: AnswerComing(s.channels, s.delivering, c) ==> AnswerComing(t.channels, t.delivering, c);
    assert forall id, c :: EntrySound(s, id, c) ==> EntrySound(t, id, c);
  }

  ghost function Answering(channels: Channels, answered: set<Channel>): Channels {
    map c | c in channels :: if c in answered then Sent(channels[c], GONE) else channels[c]
  }

  lemma AnsweringKeeps(channels: Channels, delivering: Deliveries, answered: set<Channel>)
    requires AnsweredOnce(channels, delivering)
    requires forall c :: c in answered ==> c in channels && channels[c] == Buffer(None, 0) && Unclaimed(delivering, c)
    ensures var after := Answering(channels, answered);
      && AnsweredOnce(after, delivering)
      && (forall c :: c in answered || AnswerComing(channels, delivering, c) ==> AnswerComing(after, delivering, c))
  {
  }

  lemma EndKeeps(s: State, epoch: Epoch)
    requires Inv(s) && Enabled(s, EndStream(epoch))
    ensures Inv(Next(s, EndStream(epoch)))
  {
    hide Unclaimed, AnsweredOnce, AnswerComing;
    var t, answered := Next(s, EndStream(epoch)), AnsweredBy(s.client, epoch);
    assert forall id :: id in s.client.pending ==> EntrySound(s, id, s.client.pending[id]);
    AnsweringKeeps(s.channels, s.delivering, answered);
    assert s.client.stream != Some(epoch) ==> t.channels == s.channels;
  }

  lemma StepKeeps(s: State, step: Step)
    requires Inv(s) && Enabled(s, step)
    ensures Inv(Next(s, step))
  {
    match step
    case AttachStream(_) => ClientKeeps(s, Next(s, step).client);
    case OnCaptures(_) => ClientKeeps(s, Next(s, step).client);
    case BeginRequest(id, channel) => BeginKeeps(s, id, channel);
    case Enqueue(id, ok) => MovesOn(s, id, if ok then Waiting else Leaving(NotSent));
    case CancelRequest(id) => MovesOn(s, id, Leaving(Cancelled));
    case Leave(id) => LeaveKeeps(s, id);
    case SeeDisconnect(id) =>
      assert id in s.client.pending ==> EntrySound(s, id, s.client.pending[id]);
      ReturnKeeps(s, id, Disconnected);
    case TakeAnswer(id) => TakeAnswerKeeps(s, id);
    case ReadResponse(reader, id, envelope) => ReadKeeps(s, reader, id, envelope);
    case Deliver(reader) => DeliverKeeps(s, reader);
    case EndStream(epoch) => EndKeeps(s, epoch);
  }

  /** Over every interleaving the invariant holds. */
  lemma {:induction false} RunKeeps(s: State, steps: seq<Step>)
    requires Inv(s) && IsRun(s, steps)
    ensures Inv(After(s, steps))
    decreases |steps|
  {
    hide Inv, Enabled, Next;
    if steps != [] {
      StepKeeps(s, steps[0]);
      RunKeeps(Next(s, steps[0]), steps[1..]);
    }
  }

  lemma FromInitial(steps: seq<Step>)
    requires IsRun(INITIAL, steps)
    ensures Inv(After(INITIAL, steps))
  {
    RunKeeps(INITIAL, steps);
  }

  /** Over every interleaving: a non-empty table means an attached stream; a call that has returned has
      nothing in the table; every channel in the table is empty, so any stream can always end, though that
      sends while holding the lock; every reader can finish its send; and no channel is answered twice. */
  lemma RequestTableSafety(steps: seq<Step>)
    requires IsRun(INITIAL, steps)
    ensures var s := After(INITIAL, steps);
      && (s.client.pending != map[] ==> s.client.stream.Some?)
      && (forall id :: id in s.client.pending ==> id in s.calls && !s.calls[id].phase.Returned?)
      && (forall epoch :: Enabled(s, EndStream(epoch)))
      && (forall r :: r in s.delivering ==> Enabled(s, Deliver(r)))
      && (forall c :: c in s.channels ==> s.channels[c].accepted <= 1)
  {
    FromInitial(steps);
    var s := After(INITIAL, steps);
    assert forall id :: id in s.client.pending ==> EntrySound(s, id, s.client.pending[id]);
  }

  /** A request is never stranded: while its stream lasts it is in the table or its answer is on the
      way, and once its stream has ended it has left the table and a waiting caller can return. */
  lemma EveryRequestReleased(steps: seq<Step>, id: RequestId)
    requires IsRun(INITIAL, steps)
    requires id in After(INITIAL, steps).calls && !After(INITIAL, steps).calls[id].phase.Returned?
    ensures var s := After(INITIAL, steps); var call := s.calls[id];
      if call.epoch in s.ended then id !in s.client.pending && (call.phase.Waiting? ==> Enabled(s, SeeDisconnect(id)))
      else
        || (id in s.client.pending && s.client.stream == Some(call.epoch))
        || (call.channel in s.channels && s.channels[call.channel].content.Some? && (call.phase.Waiting? ==> Enabled(s, TakeAnswer(id))))
        || exists r :: r in s.delivering && s.delivering[r].0 == call.channel && Enabled(s, Deliver(r))
  {
    FromInitial(steps);
    var s := After(INITIAL, steps);
    assert id in s.client.pending ==> EntrySound(s, id, s.client.pending[id]);
  }
}
