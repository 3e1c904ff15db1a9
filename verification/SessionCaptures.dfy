/**
 Network captures in the plugin SDK. A capture owns an event channel that the reader fills, a consumer
 empties and several actors may close: a stop reported by the host, a disconnect, an overflow, and Stop.

 `SessionCapture` has one method per region under the capture's lock, specified by a function on `Capture`.
 The protocol below interleaves those regions with the regions under the client's lock, whose effects are
 those of `SessionClients`, in any order.
 */
module SessionCaptures {
  import opened Wrappers
  import opened SessionClients

  const EVENT_QUEUE_SIZE: nat := 128

  datatype StopPhase = NotStarted | Running | Done

  /** A capture: its flags, the events waiting in its channel, all events ever sent and received on it, and
      how often the two channels have been closed. */
  datatype Capture = Capture(closed: bool, onceDone: bool, error: Option<string>, queue: seq<Event>, sent: seq<Event>, received: seq<Event>,
                             stop: StopPhase, eventsCloses: nat, stopCloses: nat)

  const FRESH := Capture(false, false, None, [], [], [], NotStarted, 0, 0)
  const QUEUE_FULL: string := "browser network capture event queue is full"

  // ----- The regions under the capture's lock -----

  /** The flags tell exactly what has happened to the channels. */
  ghost predicate Sound(c: Capture) {
    && c.eventsCloses == (if c.closed then 1 else 0)
    && c.stopCloses == (if c.stop.Done? then 1 else 0)
    && (c.onceDone ==> c.closed)
    && |c.queue| <= EVENT_QUEUE_SIZE
    && c.received + c.queue == c.sent
    && (c.closed && !c.onceDone ==> c.error.Some?)
  }

  ghost predicate Sends(c: Capture) { !c.closed && |c.queue| < EVENT_QUEUE_SIZE }

  ghost predicate Overflows(c: Capture) { !c.closed && |c.queue| >= EVENT_QUEUE_SIZE }

  ghost function Published(c: Capture, e: Event): Capture {
    if c.closed then c
    else if Overflows(c) then c.(error := Some(QUEUE_FULL), closed := true, eventsCloses := c.eventsCloses + 1)
    else c.(queue := c.queue + [e], sent := c.sent + [e])
  }

  ghost function WithError(c: Capture, message: string): Capture {
    if message == "" then c else c.(error := Some(message))
  }

  ghost function ClosedOnce(c: Capture): Capture {
    if c.onceDone then c
    else if c.closed then c.(onceDone := true)
    else c.(onceDone := true, closed := true, eventsCloses := c.eventsCloses + 1)
  }

  ghost function StopBegun(c: Capture): Capture { if c.stop.NotStarted? then c.(stop := Running) else c }

  ghost function StopFinished(c: Capture): Capture { c.(stop := Done, stopCloses := c.stopCloses + 1) }

  ghost function Received(c: Capture): Capture {
    if c.queue == [] then c else c.(queue := c.queue[1..], received := c.received + [c.queue[0]])
  }

  class SessionCapture {
    var closed: bool
    var onceDone: bool
    var error: Option<string>
    var queue: seq<Event>
    var eventsClosed: bool
    var stopStarted: bool
    var stopDoneClosed: bool
    ghost var sent: seq<Event>
    ghost var received: seq<Event>

    ghost predicate Valid()
      reads this
    {
      && eventsClosed == closed && (onceDone ==> closed) && (stopDoneClosed ==> stopStarted)
      && |queue| <= EVENT_QUEUE_SIZE && received + queue == sent
    }

    ghost function View(): Capture
      reads this
    {
      Capture(closed, onceDone, error, queue, sent, received,
              if !stopStarted then NotStarted else if stopDoneClosed then Done else Running,
              if eventsClosed then 1 else 0, if stopDoneClosed then 1 else 0)
    }

    constructor ()
      ensures Valid() && View() == FRESH
    {
      closed, onceDone, error, queue, eventsClosed := false, false, None, [], false;
      stopStarted, stopDoneClosed, sent, received := false, false, [], [];
    }

    /** Closing a channel twice would crash the plugin. */
    method CloseEvents()
      requires !eventsClosed
      modifies this`eventsClosed
      ensures eventsClosed
    {
      eventsClosed := true;
    }

    /** Sending on a closed channel would crash the plugin. */
    method SendEvent(e: Event) returns (ok: bool)
      requires !eventsClosed
      modifies this`queue, this`sent
      ensures ok == (|old(queue)| < EVENT_QUEUE_SIZE)
      ensures queue == (if ok then old(queue) + [e] else old(queue))
      ensures sent == (if ok then old(sent) + [e] else old(sent))
    {
      ok := |queue| < EVENT_QUEUE_SIZE;
      if ok {
        queue := queue + [e];
        sent := sent + [e];
      }
    }

    /** Publishes an event; when the queue is full the capture is closed and must be stopped. */
    method Publish(e: Event) returns (overflow: bool)
      requires Valid()
      modifies this
      ensures Valid() && View() == Published(old(View()), e) && overflow == Overflows(old(View()))
    {
      if closed {
        return false;
      }
      var ok := SendEvent(e);
      if !ok {
        error := Some(QUEUE_FULL);
        closed := true;
        CloseEvents();
      }
      return !ok;
    }

    method SetError(message: string)
      requires Valid()
      modifies this
      ensures Valid() && View() == WithError(old(View()), message)
    {
      if message != "" {
        error := Some(message);
      }
    }

    /** The body of the close, which runs at most once; the overflow may have closed before. */
    method CloseOnce()
      requires Valid()
      modifies this
      ensures Valid() && View() == ClosedOnce(old(View()))
    {
      if !onceDone {
        onceDone := true;
        if !closed {
          closed := true;
          CloseEvents();
        }
      }
    }

    /** Starts the stopping routine unless it has been started before. */
    method BeginStop() returns (started: bool)
      requires Valid()
      modifies this
      ensures Valid() && View() == StopBegun(old(View())) && started == old(View()).stop.NotStarted?
    {
      started := !stopStarted;
      stopStarted := true;
    }

    /** The end of the stopping routine, which was started once and so ends once. */
    method FinishStop()
      requires Valid() && View().stop.Running?
      modifies this
      ensures Valid() && View() == StopFinished(old(View()))
    {
      stopDoneClosed := true;
    }

    /** A consumer takes the next event. */
    method Receive() returns (e: Option<Event>)
      requires Valid()
      modifies this
      ensures Valid() && View() == Received(old(View()))
      ensures received == old(received) + (if e.Some? then [e.value] else []) && (e.None? <==> old(queue) == [])
    {
      if queue == [] {
        return None;
      }
      e := Some(queue[0]);
      queue, received := queue[1..], received + [queue[0]];
    }
  }

  // ----- All actors together -----

  /** A reader is named by its stream; the start of a capture goes on after it has registered the capture. */
  datatype Thread = Reader(stream: Epoch) | Starter(capture: CaptureId)

  /** Events a thread has taken out of the client and is about to publish on a capture, in order. */
  datatype Flight = Flight(capture: CaptureId, events: seq<Event>)

  /** Where an event is. An event that nobody will publish any more is gone. */
  datatype Place = Orphaned(session: SessionId) | Flying(thread: Thread) | Sent(capture: CaptureId) | Gone

  type Captures = map<CaptureId, Capture>
  type Flights = map<Thread, Flight>
  type Places = map<Event, Place>

  /** `places` records where each event went. While the end of a stream still has captures to close, the
      client's lock is taken. */
  datatype State = State(
    client: Client,
    closing: set<CaptureId>,
    all: Captures,
    flights: Flights,
    places: Places)

  datatype Step =
    | Arrive(reader: Epoch, e: Event, session: SessionId)   // a reader routes an event
    | StartCapture(session: SessionId, capture: CaptureId)  // a capture is registered
    | PublishNext(thread: Thread)                           // one publish on a capture
    | TakeCapture(session: SessionId)                       // a stop, reported or requested
    | EndStream(epoch: Epoch)
    | CloseNext(capture: CaptureId)                         // the end of a stream closes one of its captures
    | OnRequests(region: Region)
    | Fail(capture: CaptureId, message: string)
    | Close(capture: CaptureId)
    | StartStop(capture: CaptureId)
    | EndStop(capture: CaptureId)
    | Consume(capture: CaptureId)

  const INITIAL := State(DETACHED, {}, map[], map[], map[])

  /** What a thread has still to publish. */
  ghost function EventsOf(flights: Flights, thread: Thread): seq<Event> {
    if thread in flights then flights[thread].events else []
  }

  /** A reader publishes one event before it routes the next. */
  ghost predicate Enabled(s: State, step: Step) {
    match step
    case Arrive(reader, e, _) => s.closing == {} && EventsOf(s.flights, Reader(reader)) == [] && forall other :: other in s.places ==> other < e
    case StartCapture(_, capture) => s.closing == {} && capture !in s.all
    case PublishNext(thread) => EventsOf(s.flights, thread) != [] && s.flights[thread].capture in s.all
    case TakeCapture(_) => s.closing == {}
    case EndStream(_) => s.closing == {}
    case CloseNext(capture) => capture in s.closing && capture in s.all
    case OnRequests(region) => s.closing == {} && (region.Attach? || region.Begin? || region.Forget? || region.Respond?)
    case EndStop(capture) => capture in s.all && s.all[capture].stop.Running?
    case _ => step.capture in s.all
  }

  ghost function In(s: State, region: Region): State { s.(client := Effect(s.client, region)) }

  ghost function On(s: State, capture: CaptureId, c: Capture): State { s.(all := s.all[capture := c]) }

  ghost function Next(s: State, step: Step): State
    requires Enabled(s, step)
  {
    match step
    case Arrive(reader, e, session) =>
      var thread, t := Reader(reader), In(s, Route(session, e));
      match RoutingOf(s.client, session) {
        case ToCapture(capture) => t.(flights := s.flights[thread := Flight(capture, [e])], places := s.places[e := Flying(thread)])
        case Kept => t.(places := s.places[e := Orphaned(session)])
        case Lost => t.(places := s.places[e := Gone])
      }
    case StartCapture(session, capture) =>
      var thread, taken := Starter(capture), OrphansOf(s.client, session);
      In(s, Adopt(session, capture)).(
        all := s.all[capture := FRESH], flights := s.flights[thread := Flight(capture, taken)],
        places := Moved(s.places, taken, Flying(thread)))
    case PublishNext(thread) =>
      var Flight(capture, events) := s.flights[thread];
      On(s, capture, Published(s.all[capture], events[0])).(
        flights := s.flights[thread := Flight(capture, events[1..])],
        places := s.places[events[0] := if Sends(s.all[capture]) then Sent(capture) else Gone])
    case TakeCapture(session) => In(s, Unregister(session))
    case EndStream(epoch) =>
      In(s, Disconnect(epoch)).(
        closing := ClosedBy(s.client, epoch),
        places := if s.client.stream == Some(epoch) then Forgotten(s.places) else s.places)
    case CloseNext(capture) => On(s, capture, ClosedOnce(s.all[capture])).(closing := s.closing - {capture})
    case OnRequests(region) => In(s, region)
    case Fail(capture, message) => On(s, capture, WithError(s.all[capture], message))
    case Close(capture) => On(s, capture, ClosedOnce(s.all[capture]))
    case StartStop(capture) => On(s, capture, StopBegun(s.all[capture]))
    case EndStop(capture) => On(s, capture, StopFinished(s.all[capture]))
    case Consume(capture) => On(s, capture, Received(s.all[capture]))
  }

  ghost function Moved(places: Places, events: seq<Event>, to: Place): Places {
    map e | e in places :: if e in events then to else places[e]
  }

  ghost function Forgotten(places: Places): Places {
    map e | e in places :: if places[e].Orphaned? then Gone else places[e]
  }

  ghost predicate IsRun(s: State, steps: seq<Step>)
    decreases |steps|
  {
    steps == [] || (Enabled(s, steps[0]) && IsRun(Next(s, steps[0]), steps[1..]))
  }

  ghost function After(s: State, steps: seq<Step>): State
    requires IsRun(s, steps)
    decreases |steps|
  {
    if steps == [] then s else After(Next(s, steps[0]), steps[1..])
  }

  ghost predicate NoRepeats(events: seq<Event>) {
    forall i, j :: 0 <= i < j < |events| ==> events[i] != events[j]
  }

  /** All of the events are in one place, each once. */
  ghost predicate Placed(places: Places, events: seq<Event>, at: Place) {
    NoRepeats(events) && forall i :: 0 <= i < |events| ==> events[i] in places && places[events[i]] == at
  }

  ghost predicate OrphansPlaced(orphans: map<SessionId, seq<Event>>, places: Places) {
    forall session :: session in orphans ==> Placed(places, orphans[session], Orphaned(session))
  }

  ghost predicate FlightsPlaced(flights: Flights, places: Places) {
    forall thread :: thread in flights ==> Placed(places, flights[thread].events, Flying(thread))
  }

  ghost predicate CapturesPlaced(all: Captures, places: Places) {
    forall c :: c in all ==> Sound(all[c]) && Placed(places, all[c].sent, Sent(c))
  }

  /** Only captures that have been started are mentioned, each under one session, and each start publishes on
      its own capture. */
  ghost predicate Known(started: set<CaptureId>, client: Client, closing: set<CaptureId>, flights: Flights) {
    && client.captures.Values <= started && closing <= started
    && (forall a, b :: a in client.captures && b in client.captures && a != b ==> client.captures[a] != client.captures[b])
    && (forall thread :: thread in flights ==> flights[thread].capture in started)
    && (forall c :: Starter(c) in flights ==> flights[Starter(c)].capture == c)
  }

  ghost predicate Inv(s: State) {
    && OrphansPlaced(s.client.orphans, s.places) && FlightsPlaced(s.flights, s.places) && CapturesPlaced(s.all, s.places)
    && Known(s.all.Keys, s.client, s.closing, s.flights)
  }

  // ----- Moving events between places -----

  lemma NonePlaced(places: Places, at: Place)
    ensures Placed(places, [], at)
  {
  }

  lemma OneMore(places: Places, events: seq<Event>, at: Place, e: Event)
    requires Placed(places, events, at) && (e !in places || places[e] != at)
    ensures Placed(places[e := at], events + [e], at)
  {
  }

  /** Changing the place of one event disturbs no list that belongs to other places. */
  lemma StillPlaced(places: Places, events: seq<Event>, at: Place, e: Event, to: Place)
    requires Placed(places, events, at) && (e in places ==> places[e] != at)
    ensures Placed(places[e := to], events, at)
  {
  }

  lemma OrphansStay(orphans: map<SessionId, seq<Event>>, places: Places, e: Event, to: Place)
    requires OrphansPlaced(orphans, places) && (e in places ==> !places[e].Orphaned?)
    ensures OrphansPlaced(orphans, places[e := to])
  {
    forall session | session in orphans
      ensures Placed(places[e := to], orphans[session], Orphaned(session))
    {
      StillPlaced(places, orphans[session], Orphaned(session), e, to);
    }
  }

  lemma FlightsStay(flights: Flights, places: Places, e: Event, to: Place)
    requires FlightsPlaced(flights, places) && (e in places ==> !places[e].Flying?)
    ensures FlightsPlaced(flights, places[e := to])
  {
    forall thread | thread in flights
      ensures Placed(places[e := to], flights[thread].events, Flying(thread))
    {
      StillPlaced(places, flights[thread].events, Flying(thread), e, to);
    }
  }

  lemma CapturesStay(all: Captures, places: Places, e: Event, to: Place)
    requires CapturesPlaced(all, places) && (e in places ==> !places[e].Sent?)
    ensures CapturesPlaced(all, places[e := to])
  {
    forall c | c in all
      ensures Sound(all[c]) && Placed(places[e := to], all[c].sent, Sent(c))
    {
      StillPlaced(places, all[c].sent, Sent(c), e, to);
    }
  }

  /** Moving all orphans of a session disturbs no other list. */
  lemma NotMoved(places: Places, events: seq<Event>, at: Place, taken: seq<Event>, from: Place, to: Place)
    requires Placed(places, events, at) && Placed(places, taken, from) && at != from
    ensures Placed(Moved(places, taken, to), events, at)
  {
  }

  lemma AllMoved(places: Places, taken: seq<Event>, from: Place, to: Place)
    requires Placed(places, taken, from)
    ensures Placed(Moved(places, taken, to), taken, to)
  {
  }

  lemma NotForgotten(places: Places, events: seq<Event>, at: Place)
    requires Placed(places, events, at) && !at.Orphaned?
    ensures Placed(Forgotten(places), events, at)
  {
  }

  // ----- The invariant -----

  lemma ArriveKeeps(s: State, reader: Epoch, e: Event, session: SessionId)
    requires Inv(s) && Enabled(s, Arrive(reader, e, session))
    ensures Inv(Next(s, Arrive(reader, e, session)))
  {
    hide Placed, Sound, Known;
    var t := Next(s, Arrive(reader, e, session));
    var to := t.places[e];
    OrphansStay(s.client.orphans, s.places, e, to);
    FlightsStay(s.flights, s.places, e, to);
    CapturesStay(s.all, s.places, e, to);
    NonePlaced(s.places, to);
    OneMore(s.places, if to.Orphaned? then OrphansOf(s.client, session) else [], to, e);
    assert [] + [e] == [e];
    ArriveKnown(s, reader, e, session);
  }

  lemma ArriveKnown(s: State, reader: Epoch, e: Event, session: SessionId)
    requires Inv(s) && Enabled(s, Arrive(reader, e, session))
    ensures var t := Next(s, Arrive(reader, e, session)); Known(t.all.Keys, t.client, t.closing, t.flights)
  {
    hide OrphansPlaced, FlightsPlaced, CapturesPlaced;
  }

  lemma StartKeeps(s: State, session: SessionId, capture: CaptureId)
    requires Inv(s) && Enabled(s, StartCapture(session, capture))
    ensures Inv(Next(s, StartCapture(session, capture)))
  {
    hide Placed, Known;
    var taken, from, to, t := OrphansOf(s.client, session), Orphaned(session), Flying(Starter(capture)), Next(s, StartCapture(session, capture));
    NonePlaced(s.places, from);
    AllMoved(s.places, taken, from, to);
    NonePlaced(t.places, Sent(capture));
    forall other | other in t.client.orphans
      ensures Placed(t.places, t.client.orphans[other], Orphaned(other))
    {
      NotMoved(s.places, s.client.orphans[other], Orphaned(other), taken, from, to);
    }
    forall thread | thread in s.flights
      ensures Placed(t.places, s.flights[thread].events, Flying(thread))
    {
      NotMoved(s.places, s.flights[thread].events, Flying(thread), taken, from, to);
    }
    forall c | c in s.all
      ensures Placed(t.places, s.all[c].sent, Sent(c))
    {
      NotMoved(s.places, s.all[c].sent, Sent(c), taken, from, to);
    }
    StartKnown(s, session, capture);
  }

  lemma StartKnown(s: State, session: SessionId, capture: CaptureId)
    requires Inv(s) && Enabled(s, StartCapture(session, capture))
    ensures var t := Next(s, StartCapture(session, capture)); Known(t.all.Keys, t.client, t.closing, t.flights)
  {
  }

  /** The first event of a flight moves: into the capture's channel or away. */
  lemma PublishPlaces(s: State, thread: Thread)
    requires Inv(s) && Enabled(s, PublishNext(thread))
    ensures var t := Next(s, PublishNext(thread));
      OrphansPlaced(t.client.orphans, t.places) && FlightsPlaced(t.flights, t.places)
  {
    hide Sound, Known, CapturesPlaced;
    var t, e := Next(s, PublishNext(thread)), s.flights[thread].events[0];
    assert e in s.places && s.places[e] == Flying(thread);
    OrphansStay(s.client.orphans, s.places, e, t.places[e]);
    forall other | other in s.flights && other != thread
      ensures Placed(t.places, s.flights[other].events, Flying(other))
    {
      StillPlaced(s.places, s.flights[other].events, Flying(other), e, t.places[e]);
    }
  }

  lemma PublishCaptures(s: State, thread: Thread)
    requires Inv(s) && Enabled(s, PublishNext(thread))
    ensures var t := Next(s, PublishNext(thread)); CapturesPlaced(t.all, t.places)
  {
    hide Known, OrphansPlaced;
    var t, e, capture := Next(s, PublishNext(thread)), s.flights[thread].events[0], s.flights[thread].capture;
    assert e in s.places && s.places[e] == Flying(thread);
    CapturesStay(s.all, s.places, e, t.places[e]);
    if Sends(s.all[capture]) {
      OneMore(s.places, s.all[capture].sent, Sent(capture), e);
    }
  }

  lemma PublishKnown(s: State, thread: Thread)
    requires Inv(s) && Enabled(s, PublishNext(thread))
    ensures var t := Next(s, PublishNext(thread)); Known(t.all.Keys, t.client, t.closing, t.flights)
  {
    hide OrphansPlaced, FlightsPlaced, CapturesPlaced;
    var t := Next(s, PublishNext(thread));
    assert t.all.Keys == s.all.Keys;
  }

  lemma EndKeeps(s: State, epoch: Epoch)
    requires Inv(s) && Enabled(s, EndStream(epoch))
    ensures Inv(Next(s, EndStream(epoch)))
  {
    hide Placed;
    forall thread | thread in s.flights
      ensures Placed(Forgotten(s.places), s.flights[thread].events, Flying(thread))
    {
      NotForgotten(s.places, s.flights[thread].events, Flying(thread));
    }
    forall c | c in s.all
      ensures Placed(Forgotten(s.places), s.all[c].sent, Sent(c))
    {
      NotForgotten(s.places, s.all[c].sent, Sent(c));
    }
  }

  /** A region under the lock of one capture that sends nothing. */
  lemma OnCaptureKeeps(s: State, capture: CaptureId, c: Capture)
    requires Inv(s) && capture in s.all && Sound(c) && c.sent == s.all[capture].sent
    ensures Inv(On(s, capture, c))
  {
    hide Placed, OrphansPlaced, FlightsPlaced, Sound;
    assert On(s, capture, c).all.Keys == s.all.Keys;
  }

  lemma ClientKeeps(s: State, client: Client)
    requires Inv(s) && client.orphans == s.client.orphans
    requires forall session :: session in client.captures ==>
               session in s.client.captures && client.captures[session] == s.client.captures[session]
    ensures Inv(s.(client := client))
  {
    hide OrphansPlaced, FlightsPlaced, CapturesPlaced;
  }

  /** No region under a capture's lock breaks its flags. */
  lemma RegionsSound(c: Capture, message: string)
    requires Sound(c)
    ensures Sound(WithError(c, message)) && Sound(ClosedOnce(c)) && Sound(StopBegun(c)) && Sound(Received(c))
    ensures c.stop.Running? ==> Sound(StopFinished(c))
  {
  }

  lemma OnCaptures(s: State, step: Step)
    requires Inv(s) && Enabled(s, step) && (step.Fail? || step.Close? || step.StartStop? || step.EndStop? || step.Consume?)
    ensures Inv(Next(s, step))
  {
    hide Sound;
    RegionsSound(s.all[step.capture], if step.Fail? then step.message else "");
    OnCaptureKeeps(s, step.capture, Next(s, step).all[step.capture]);
  }

  lemma StepKeeps(s: State, step: Step)
    requires Inv(s) && Enabled(s, step)
    ensures Inv(Next(s, step))
  {
    match step
    case Arrive(reader, e, session) => ArriveKeeps(s, reader, e, session);
    case StartCapture(session, capture) => StartKeeps(s, session, capture);
    case PublishNext(thread) => PublishPlaces(s, thread); PublishCaptures(s, thread); PublishKnown(s, thread);
    case EndStream(epoch) => EndKeeps(s, epoch);
    case TakeCapture(_) => ClientKeeps(s, Next(s, step).client);
    case OnRequests(_) => ClientKeeps(s, Next(s, step).client);
    case CloseNext(capture) =>
      RegionsSound(s.all[capture], "");
      OnCaptureKeeps(s, capture, ClosedOnce(s.all[capture]));
    case _ => OnCaptures(s, step);
  }

  lemma {:induction false} RunKeeps(s: State, steps: seq<Step>)
    requires Inv(s) && IsRun(s, steps)
    ensures Inv(After(s, steps))
    decreases |steps|
  {
    hide Inv, Enabled, Next;
    if steps != [] {
      StepKeeps(s, steps[0]);
      RunKeeps(Next(s, steps[0]), steps[1..]);
    }
  }

  /** Over every interleaving: the event channel has been closed exactly if the capture is marked
      closed, and then once; the stop channel at most once; no event has been sent to two captures
      or twice to one, whether it came to an open capture or waited as an orphan; and the consumer has
      received, in order, what was sent, except for what still waits in the channel; and a capture that nobody
      has closed but that is closed, by an overflow, has an error to report. */
  lemma CaptureSafety(steps: seq<Step>, c: CaptureId, d: CaptureId)
    requires IsRun(INITIAL, steps) && c in After(INITIAL, steps).all && d in After(INITIAL, steps).all
    ensures var s := After(INITIAL, steps);
      && s.all[c].eventsCloses == (if s.all[c].closed then 1 else 0)
      && s.all[c].stopCloses <= 1
      && NoRepeats(s.all[c].sent)
      && s.all[c].received + s.all[c].queue == s.all[c].sent
      && (s.all[c].closed && !s.all[c].onceDone ==> s.all[c].error.Some?)
      && (c != d ==> forall e :: e in s.all[c].sent ==> e !in s.all[d].sent)
  {
    RunKeeps(INITIAL, steps);
  }

  lemma ClosedStays(s: State, step: Step, c: CaptureId)
    requires Enabled(s, step) && c in s.all && s.all[c].closed
    ensures var t := Next(s, step);
      c in t.all && t.all[c].closed && t.all[c].sent == s.all[c].sent && t.all[c].eventsCloses == s.all[c].eventsCloses
  {
  }

  /** Nothing is sent on a capture after it has been closed, whatever happens next. */
  lemma {:induction false} ClosedIsFinal(s: State, steps: seq<Step>, c: CaptureId)
    requires IsRun(s, steps) && c in s.all && s.all[c].closed
    ensures var t := After(s, steps);
      c in t.all && t.all[c].closed && t.all[c].sent == s.all[c].sent && t.all[c].eventsCloses == s.all[c].eventsCloses
    decreases |steps|
  {
    if steps != [] {
      ClosedStays(s, steps[0], c);
      ClosedIsFinal(Next(s, steps[0]), steps[1..], c);
    }
  }


  // ----- What the end of a stream and a stop do -----

  ghost predicate Unregistered(captures: map<SessionId, CaptureId>, c: CaptureId) {
    forall session :: session in captures ==> captures[session] != c
  }

  ghost predicate Dead(s: State, c: CaptureId, before: set<Event>) {
    && c in s.all && Unregistered(s.client.captures, c)
    && (forall e :: e in s.all[c].sent ==> e in before)
    && (forall thread, e :: thread in s.flights && s.flights[thread].capture == c && e in s.flights[thread].events ==> e in before)
  }

  lemma UnregisteredStays(s: State, step: Step, c: CaptureId)
    requires Inv(s) && Enabled(s, step) && c in s.all && Unregistered(s.client.captures, c)
    ensures c in Next(s, step).all && Unregistered(Next(s, step).client.captures, c)
  {
    hide OrphansPlaced, FlightsPlaced, CapturesPlaced, Known, Sound, Published, ClosedOnce, WithError, StopBegun, StopFinished, Received;
    if step.StartCapture? {
      assert step.capture != c;
    }
  }

  lemma DeadStays(s: State, step: Step, c: CaptureId, before: set<Event>)
    requires Inv(s) && Enabled(s, step) && Dead(s, c, before)
    ensures Dead(Next(s, step), c, before)
  {
    hide OrphansPlaced, FlightsPlaced, CapturesPlaced;
    UnregisteredStays(s, step, c);
    assert step.Arrive? && step.session in s.client.captures ==> s.client.captures[step.session] != c;
  }

  /** A capture that has been taken out of the client's map gets no event that arrives later. */
  lemma {:induction false} TakenGetsNothingNew(s: State, steps: seq<Step>, c: CaptureId)
    requires Inv(s) && IsRun(s, steps) && c in s.all && Unregistered(s.client.captures, c)
    ensures var t := After(s, steps); c in t.all && forall e :: e in t.all[c].sent ==> e in s.places
  {
    assert Dead(s, c, s.places.Keys);
    DeadOverRun(s, steps, c, s.places.Keys);
  }

  lemma {:induction false} DeadOverRun(s: State, steps: seq<Step>, c: CaptureId, before: set<Event>)
    requires Inv(s) && IsRun(s, steps) && Dead(s, c, before)
    ensures Dead(After(s, steps), c, before)
    decreases |steps|
  {
    hide Inv, Enabled, Next, Dead;
    if steps != [] {
      StepKeeps(s, steps[0]);
      DeadStays(s, steps[0], c, before);
      DeadOverRun(Next(s, steps[0]), steps[1..], c, before);
    }
  }

  /** A stop, reported or requested, takes the capture of its session out of the client's map, so no event
      that arrives later reaches it; the captures of other sessions stay. */
  lemma StopEndsCapture(s: State, session: SessionId, steps: seq<Step>)
    requires Inv(s) && Enabled(s, TakeCapture(session)) && session in s.client.captures
    requires IsRun(Next(s, TakeCapture(session)), steps)
    ensures var c, t := s.client.captures[session], After(Next(s, TakeCapture(session)), steps);
      c in t.all && forall e :: e in t.all[c].sent ==> e in s.places
    ensures forall other :: other in s.client.captures && other != session ==>
      var captures := Next(s, TakeCapture(session)).client.captures;
      other in captures && captures[other] == s.client.captures[other]
  {
    var u := Next(s, TakeCapture(session));
    StepKeeps(s, TakeCapture(session));
    assert s.client.captures[session] in s.client.captures.Values;
    TakenGetsNothingNew(u, steps, s.client.captures[session]);
  }

  ghost predicate ClosedOrNext(s: State, c: CaptureId) {
    c in s.all && Unregistered(s.client.captures, c) && (s.all[c].closed || c in s.closing)
  }

  lemma ClosedOrNextStays(s: State, step: Step, c: CaptureId)
    requires Inv(s) && Enabled(s, step) && ClosedOrNext(s, c)
    ensures ClosedOrNext(Next(s, step), c)
  {
    hide OrphansPlaced, FlightsPlaced, Placed, Known, Unregistered, Effect;
    UnregisteredStays(s, step, c);
    assert Sound(s.all[c]);
  }

  lemma {:induction false} ClosedOverRun(s: State, steps: seq<Step>, c: CaptureId)
    requires Inv(s) && IsRun(s, steps) && ClosedOrNext(s, c)
    ensures ClosedOrNext(After(s, steps), c)
    decreases |steps|
  {
    hide Enabled, Next, ClosedOrNext;
    if steps != [] {
      StepKeeps(s, steps[0]);
      ClosedOrNextStays(s, steps[0], c);
      ClosedOverRun(Next(s, steps[0]), steps[1..], c);
    }
  }

  /** The end of the stream in force closes every capture in the map, before the client's lock is free
      again, and no event that arrives later reaches any of them. */
  lemma StreamEndCloses(s: State, epoch: Epoch, steps: seq<Step>, c: CaptureId)
    requires Inv(s) && Enabled(s, EndStream(epoch)) && s.client.stream == Some(epoch) && c in s.client.captures.Values
    requires IsRun(Next(s, EndStream(epoch)), steps)
    ensures var t := After(Next(s, EndStream(epoch)), steps);
      c in t.all && (t.closing == {} ==> t.all[c].closed) && forall e :: e in t.all[c].sent ==> e in s.places
  {
    var u := Next(s, EndStream(epoch));
    StepKeeps(s, EndStream(epoch));
    ClosedOverRun(u, steps, c);
    TakenGetsNothingNew(u, steps, c);
    assert u.places.Keys == s.places.Keys;
  }
}
