/**
 The order in which the events of a capture arrive at its consumer. Orphans are published by the thread that
 starts the capture, without the client's lock, while a reader may already publish later events: the order of
 arrival is kept exactly if no reader does.
 */
module CaptureOrder {
  import opened SessionClients
  import opened SessionCaptures

  ghost predicate Increasing(events: seq<Event>) {
    forall i, j :: 0 <= i < j < |events| ==> events[i] < events[j]
  }

  ghost function SentOn(s: State, c: CaptureId): seq<Event> {
    if c in s.all then s.all[c].sent else []
  }

  ghost predicate InFlight(s: State, c: CaptureId, e: Event) {
    exists thread :: thread in s.flights && s.flights[thread].capture == c && e in s.flights[thread].events
  }

  /** The step sends an event on the capture while an earlier one is still on its way there. */
  ghost predicate Overtakes(s: State, step: Step, c: CaptureId, late: Event)
    requires Enabled(s, step)
  {
    && step.PublishNext? && s.flights[step.thread].capture == c && Sends(s.all[c])
    && late < s.flights[step.thread].events[0] && InFlight(s, c, late)
  }

  /** At some step an event of `final` is overtaken. */
  ghost predicate Overtaken(s: State, steps: seq<Step>, c: CaptureId, final: seq<Event>)
    requires IsRun(s, steps)
    decreases |steps|
  {
    steps != [] && ((exists late :: late in final && Overtakes(s, steps[0], c, late)) || Overtaken(Next(s, steps[0]), steps[1..], c, final))
  }

  /** All events of `final` that are on their way are later than what has been sent. */
  ghost predicate Ahead(s: State, c: CaptureId, final: seq<Event>) {
    forall e, x :: InFlight(s, c, e) && e in final && x in SentOn(s, c) ==> x < e
  }

  /** One step adds at most one event, from a flight. */
  lemma SentByStep(s: State, step: Step, c: CaptureId)
    requires Inv(s) && Enabled(s, step)
    ensures var t := Next(s, step);
      SentOn(t, c) == if step.PublishNext? && s.flights[step.thread].capture == c && Sends(s.all[c])
                      then SentOn(s, c) + [s.flights[step.thread].events[0]] else SentOn(s, c)
  {
    hide OrphansPlaced, FlightsPlaced, CapturesPlaced;
  }

  lemma {:induction false} SentGrows(s: State, steps: seq<Step>, c: CaptureId)
    requires Inv(s) && IsRun(s, steps)
    ensures SentOn(s, c) <= SentOn(After(s, steps), c)
    decreases |steps|
  {
    hide Inv, Enabled, Next, SentOn;
    if steps != [] {
      StepKeeps(s, steps[0]);
      SentByStep(s, steps[0], c);
      SentGrows(Next(s, steps[0]), steps[1..], c);
    }
  }

  /** Flights to a capture gain only events that have just arrived, or the orphans of a capture that starts. */
  lemma FlightsByStep(s: State, step: Step, c: CaptureId, e: Event)
    requires Inv(s) && Enabled(s, step) && InFlight(Next(s, step), c, e)
    ensures InFlight(s, c, e) || (step.Arrive? && step.e == e) || (step.StartCapture? && c !in s.all)
  {
    hide OrphansPlaced, FlightsPlaced, CapturesPlaced;
  }

  lemma SentIsPlaced(s: State, c: CaptureId, e: Event)
    requires Inv(s) && e in SentOn(s, c)
    ensures e in s.places && s.places[e] == Sent(c)
  {
  }

  lemma FlyingIsPlaced(s: State, c: CaptureId, e: Event)
    requires Inv(s) && InFlight(s, c, e)
    ensures e in s.places && s.places[e].Flying?
  {
  }

  lemma OneMoreIncreasing(events: seq<Event>, e: Event)
    requires Increasing(events) && forall x :: x in events ==> x < e
    ensures Increasing(events + [e])
  {
    assert forall i :: 0 <= i < |events| ==> events[i] in events;
  }

  /** While nothing that will be sent is overtaken, what is sent stays behind what is to come. */
  lemma AheadStays(s: State, step: Step, c: CaptureId, final: seq<Event>)
    requires Inv(s) && Enabled(s, step) && Ahead(s, c, final) && Increasing(SentOn(s, c))
    requires forall e :: e in SentOn(Next(s, step), c) ==> e in final
    requires forall late :: late in final ==> !Overtakes(s, step, c, late)
    ensures Ahead(Next(s, step), c, final) && Increasing(SentOn(Next(s, step), c))
  {
    hide Inv, Next;
    var t := Next(s, step);
    StepKeeps(s, step);
    SentByStep(s, step, c);
    var sends := step.PublishNext? && s.flights[step.thread].capture == c && Sends(s.all[c]);
    if sends {
      var e := s.flights[step.thread].events[0];
      assert InFlight(s, c, e);
      assert SentOn(t, c)[|SentOn(s, c)|] == e;
      assert forall x :: x in SentOn(s, c) ==> x < e;
      OneMoreIncreasing(SentOn(s, c), e);
    }
    forall e, x | InFlight(t, c, e) && e in final && x in SentOn(t, c)
      ensures x < e
    {
      FlightsByStep(s, step, c, e);
      FlyingIsPlaced(t, c, e);
      SentIsPlaced(t, c, x);
      if x in SentOn(s, c) { SentIsPlaced(s, c, x); }
    }
  }

  lemma {:induction false} KeptInOrder(s: State, steps: seq<Step>, c: CaptureId, final: seq<Event>)
    requires Inv(s) && IsRun(s, steps) && final == SentOn(After(s, steps), c)
    requires Ahead(s, c, final) && Increasing(SentOn(s, c)) && !Overtaken(s, steps, c, final)
    ensures Increasing(final)
    decreases |steps|
  {
    hide Inv, Enabled, Next, Overtakes, Ahead, Increasing;
    if steps != [] {
      StepKeeps(s, steps[0]);
      SentGrows(Next(s, steps[0]), steps[1..], c);
      AheadStays(s, steps[0], c, final);
      KeptInOrder(Next(s, steps[0]), steps[1..], c, final);
    }
  }

  /** An event that has been overtaken comes out of order when it is sent. */
  lemma OvertakenIsLate(s: State, step: Step, c: CaptureId, late: Event, final: seq<Event>)
    requires Inv(s) && Enabled(s, step) && Overtakes(s, step, c, late) && late in final
    requires SentOn(Next(s, step), c) <= final
    ensures !Increasing(final)
  {
    hide Inv, Next;
    SentByStep(s, step, c);
    FlyingIsPlaced(s, c, late);
    if late in SentOn(s, c) { SentIsPlaced(s, c, late); }
    var k := |SentOn(s, c)|;
    assert final[k] == s.flights[step.thread].events[0];
    var i :| 0 <= i < |final| && final[i] == late;
    forall j | 0 <= j < k
      ensures final[j] != late
    {
      assert final[j] == SentOn(s, c)[j];
    }
  }

  lemma {:induction false} LostOrder(s: State, steps: seq<Step>, c: CaptureId, final: seq<Event>)
    requires Inv(s) && IsRun(s, steps) && final == SentOn(After(s, steps), c) && Overtaken(s, steps, c, final)
    ensures !Increasing(final)
    decreases |steps|
  {
    hide Inv, Enabled, Next, Overtakes, Increasing;
    var t := Next(s, steps[0]);
    StepKeeps(s, steps[0]);
    SentGrows(t, steps[1..], c);
    if late :| late in final && Overtakes(s, steps[0], c, late) {
      OvertakenIsLate(s, steps[0], c, late, final);
    } else {
      LostOrder(t, steps[1..], c, final);
    }
  }

  /** For every run, with any number of readers: what was sent on a capture is in the order of arrival if
      and only if no event of it was still on its way when a later one was sent. */
  lemma OrderKeptIff(steps: seq<Step>, c: CaptureId)
    requires IsRun(INITIAL, steps)
    ensures var final := SentOn(After(INITIAL, steps), c);
      Increasing(final) <==> !Overtaken(INITIAL, steps, c, final)
  {
    var final := SentOn(After(INITIAL, steps), c);
    if Overtaken(INITIAL, steps, c, final) {
      LostOrder(INITIAL, steps, c, final);
    } else {
      KeptInOrder(INITIAL, steps, c, final);
    }
  }

  // ----- One reader at a time -----

  /** At most one reader has an event that it has not yet published. */
  ghost predicate OneReader(s: State) {
    forall r, q :: EventsOf(s.flights, Reader(r)) != [] && EventsOf(s.flights, Reader(q)) != [] ==> r == q
  }

  ghost predicate OneReaderThroughout(s: State, steps: seq<Step>)
    requires IsRun(s, steps)
    decreases |steps|
  {
    OneReader(s) && (steps == [] || OneReaderThroughout(Next(s, steps[0]), steps[1..]))
  }

  /** A reader publishes on the capture while the start of the capture still has orphans to publish. */
  ghost predicate Hasty(s: State, step: Step, c: CaptureId)
    requires Enabled(s, step)
  {
    step.PublishNext? && step.thread.Reader? && s.flights[step.thread].capture == c && EventsOf(s.flights, Starter(c)) != []
  }

  ghost predicate HastyAtSomeStep(s: State, steps: seq<Step>, c: CaptureId)
    requires IsRun(s, steps)
    decreases |steps|
  {
    steps != [] && (Hasty(s, steps[0], c) || HastyAtSomeStep(Next(s, steps[0]), steps[1..], c))
  }

  /** Orphans are kept in order, a reader has one event at a time, and that came after all orphans of the
      capture it goes to. */
  ghost predicate Ordered(s: State) {
    OrphansOrdered(s.client.orphans) && FlightsOrdered(s.flights)
  }

  ghost predicate OrphansOrdered(orphans: map<SessionId, seq<Event>>) {
    forall session :: session in orphans ==> Increasing(orphans[session])
  }

  ghost predicate FlightsOrdered(flights: Flights) {
    && (forall c :: Increasing(EventsOf(flights, Starter(c))))
    && (forall r :: |EventsOf(flights, Reader(r))| <= 1)
    && (forall r :: ReaderLater(flights, r))
  }

  ghost predicate ReaderLater(flights: Flights, r: Epoch) {
    EventsOf(flights, Reader(r)) != [] ==>
      forall late :: late in EventsOf(flights, Starter(flights[Reader(r)].capture)) ==> late < EventsOf(flights, Reader(r))[0]
  }

  lemma ArriveOrdered(s: State, reader: Epoch, e: Event, session: SessionId)
    requires Inv(s) && Ordered(s) && Enabled(s, Arrive(reader, e, session))
    ensures Ordered(Next(s, Arrive(reader, e, session)))
  {
    hide CapturesPlaced, Known, FlightsOrdered;
    var orphans := OrphansOf(s.client, session);
    assert session in s.client.orphans ==> Placed(s.places, orphans, Orphaned(session));
    assert forall i :: 0 <= i < |orphans| ==> orphans[i] in s.places;
    assert forall x :: x in orphans ==> x < e;
    OneMoreIncreasing(orphans, e);
    forall thread, x | x in EventsOf(s.flights, thread)
      ensures x < e
    {
      assert Placed(s.places, s.flights[thread].events, Flying(thread));
    }
    if session in s.client.captures {
      LiveFlightOrdered(s.flights, reader, s.client.captures[session], e);
    }
  }

  lemma LiveFlightOrdered(flights: Flights, reader: Epoch, c: CaptureId, e: Event)
    requires FlightsOrdered(flights) && forall thread, x :: x in EventsOf(flights, thread) ==> x < e
    ensures FlightsOrdered(flights[Reader(reader) := Flight(c, [e])])
  {
    var after := flights[Reader(reader) := Flight(c, [e])];
    assert forall thread :: thread != Reader(reader) ==> EventsOf(after, thread) == EventsOf(flights, thread);
    forall r
      ensures ReaderLater(after, r)
    {
      assert ReaderLater(flights, r);
    }
  }

  lemma StartOrdered(s: State, session: SessionId, capture: CaptureId)
    requires Inv(s) && Ordered(s) && Enabled(s, StartCapture(session, capture))
    ensures Ordered(Next(s, StartCapture(session, capture)))
  {
    hide OrphansPlaced, FlightsPlaced, CapturesPlaced;
    var t := Next(s, StartCapture(session, capture));
    assert forall thread :: thread != Starter(capture) ==> EventsOf(t.flights, thread) == EventsOf(s.flights, thread);
    forall r
      ensures ReaderLater(t.flights, r)
    {
      assert ReaderLater(s.flights, r);
    }
  }

  lemma PublishOrdered(flights: Flights, thread: Thread)
    requires FlightsOrdered(flights) && EventsOf(flights, thread) != []
    ensures FlightsOrdered(flights[thread := Flight(flights[thread].capture, flights[thread].events[1..])])
  {
    var after := flights[thread := Flight(flights[thread].capture, flights[thread].events[1..])];
    assert forall other :: other != thread ==> EventsOf(after, other) == EventsOf(flights, other);
    assert EventsOf(after, thread) == EventsOf(flights, thread)[1..];
    forall r
      ensures ReaderLater(after, r)
    {
      assert ReaderLater(flights, r);
      assert forall other, x :: x in EventsOf(after, other) ==> x in EventsOf(flights, other);
    }
  }

  lemma StepOrdered(s: State, step: Step)
    requires Inv(s) && Ordered(s) && Enabled(s, step)
    ensures Ordered(Next(s, step))
  {
    hide OrphansPlaced, FlightsPlaced, CapturesPlaced, Known, FlightsOrdered;
    match step
    case Arrive(reader, e, session) => ArriveOrdered(s, reader, e, session);
    case StartCapture(session, capture) => StartOrdered(s, session, capture);
    case PublishNext(thread) => PublishOrdered(s.flights, thread);
    case _ =>
  }

  /** With one reader, an event can be overtaken only by a hasty reader. */
  lemma OvertakingIsHasty(s: State, step: Step, c: CaptureId, late: Event)
    requires Inv(s) && Ordered(s) && OneReader(s) && Enabled(s, step) && Overtakes(s, step, c, late)
    ensures Hasty(s, step, c)
  {
    hide OrphansPlaced, FlightsPlaced, CapturesPlaced;
    var thread :| thread in s.flights && s.flights[thread].capture == c && late in s.flights[thread].events;
    var events := EventsOf(s.flights, step.thread);
    assert late in EventsOf(s.flights, thread);
    assert thread.Starter? ==> thread == Starter(c);
    assert step.thread.Starter? ==> step.thread == Starter(c);
    FirstIsLeast(s.flights, thread, late);
    if thread.Reader? {
      assert thread == Reader(thread.stream);
      assert ReaderLater(s.flights, thread.stream) && |EventsOf(s.flights, Reader(thread.stream))| <= 1;
    }
    assert step.thread.Reader? ==> step.thread == Reader(step.thread.stream);
    assert events[0] in events;
  }

  lemma FirstIsLeast(flights: Flights, thread: Thread, late: Event)
    requires FlightsOrdered(flights) && late in EventsOf(flights, thread)
    ensures EventsOf(flights, thread)[0] <= late
  {
    var events := EventsOf(flights, thread);
    var i :| 0 <= i < |events| && events[i] == late;
    match thread
    case Starter(c) => assert Increasing(EventsOf(flights, Starter(c)));
    case Reader(r) => assert |EventsOf(flights, Reader(r))| <= 1;
  }

  /** In the end the capture is open and nothing is on its way to it. */
  ghost predicate Settled(s: State, c: CaptureId) {
    c in s.all && !s.all[c].closed && forall e :: !InFlight(s, c, e)
  }

  /** If a capture stays open, what is on its way to it arrives. */
  lemma {:induction false} Arrives(s: State, steps: seq<Step>, c: CaptureId, e: Event)
    requires Inv(s) && IsRun(s, steps) && Settled(After(s, steps), c) && InFlight(s, c, e)
    ensures e in SentOn(After(s, steps), c)
    decreases |steps|
  {
    hide Inv, Enabled, Next, InFlight;
    if steps != [] {
      var t := Next(s, steps[0]);
      StepKeeps(s, steps[0]);
      SentGrows(t, steps[1..], c);
      OnItsWay(s, steps[0], c, e);
      if InFlight(t, c, e) {
        Arrives(t, steps[1..], c, e);
      } else if e !in SentOn(t, c) {
        ClosedIsFinal(t, steps[1..], c);
      }
    }
  }

  lemma OnItsWay(s: State, step: Step, c: CaptureId, e: Event)
    requires Inv(s) && Enabled(s, step) && InFlight(s, c, e)
    ensures var t := Next(s, step); InFlight(t, c, e) || e in SentOn(t, c) || (c in t.all && t.all[c].closed)
  {
    hide OrphansPlaced, FlightsPlaced, CapturesPlaced;
    var t := Next(s, step);
    var thread :| thread in s.flights && s.flights[thread].capture == c && e in s.flights[thread].events;
    if step == PublishNext(thread) {
      var events := s.flights[thread].events;
      assert events == [events[0]] + events[1..];
      assert t.flights[thread] == Flight(c, events[1..]);
    } else {
      assert thread in t.flights && t.flights[thread] == s.flights[thread];
    }
  }

  /** On a capture that stays open a hasty reader overtakes the orphans. */
  lemma HasteOvertakes(s: State, steps: seq<Step>, c: CaptureId)
    requires Inv(s) && Ordered(s) && IsRun(s, steps) && Settled(After(s, steps), c)
    requires steps != [] && Hasty(s, steps[0], c)
    ensures var late := EventsOf(s.flights, Starter(c))[0]; late in SentOn(After(s, steps), c) && Overtakes(s, steps[0], c, late)
  {
    hide OrphansPlaced, FlightsPlaced, CapturesPlaced;
    var step, late := steps[0], EventsOf(s.flights, Starter(c))[0];
    assert InFlight(s, c, late);
    Arrives(s, steps, c, late);
    assert ReaderLater(s.flights, step.thread.stream);
    StaysOpen(s, steps, c);
  }

  lemma StaysOpen(s: State, steps: seq<Step>, c: CaptureId)
    requires IsRun(s, steps) && Settled(After(s, steps), c) && steps != [] && c in s.all && c in Next(s, steps[0]).all
    ensures !s.all[c].closed && !Next(s, steps[0]).all[c].closed
  {
    if s.all[c].closed {
      ClosedIsFinal(s, steps, c);
    } else if Next(s, steps[0]).all[c].closed {
      ClosedIsFinal(Next(s, steps[0]), steps[1..], c);
    }
  }

  lemma {:induction false} NoHasteOverRun(s: State, steps: seq<Step>, c: CaptureId, final: seq<Event>)
    requires Inv(s) && Ordered(s) && IsRun(s, steps) && OneReaderThroughout(s, steps)
    requires final == SentOn(After(s, steps), c)
    ensures Overtaken(s, steps, c, final) ==> HastyAtSomeStep(s, steps, c)
    ensures Settled(After(s, steps), c) && HastyAtSomeStep(s, steps, c) ==> Overtaken(s, steps, c, final)
    decreases |steps|
  {
    hide Inv, Ordered, OneReader, Enabled, Next, Overtakes, Hasty, Settled;
    if steps != [] {
      StepKeeps(s, steps[0]);
      StepOrdered(s, steps[0]);
      NoHasteOverRun(Next(s, steps[0]), steps[1..], c, final);
      if late :| late in final && Overtakes(s, steps[0], c, late) {
        OvertakingIsHasty(s, steps[0], c, late);
      }
      if Hasty(s, steps[0], c) && Settled(After(s, steps), c) {
        HasteOvertakes(s, steps, c);
      }
    }
  }

  /** With one reader at a time: if no reader publishes on a capture while the start of the capture still
      has orphans to publish, the events come in the order of arrival. */
  lemma OrderKeptWithoutHaste(steps: seq<Step>, c: CaptureId)
    requires IsRun(INITIAL, steps) && OneReaderThroughout(INITIAL, steps) && !HastyAtSomeStep(INITIAL, steps, c)
    ensures Increasing(SentOn(After(INITIAL, steps), c))
  {
    NoHasteOverRun(INITIAL, steps, c, SentOn(After(INITIAL, steps), c));
    OrderKeptIff(steps, c);
  }

  /** And on a capture that has stayed open and got all its events they do so in no other case. */
  lemma OrderKeptIffNoHaste(steps: seq<Step>, c: CaptureId)
    requires IsRun(INITIAL, steps) && OneReaderThroughout(INITIAL, steps) && Settled(After(INITIAL, steps), c)
    ensures Increasing(After(INITIAL, steps).all[c].sent) <==> !HastyAtSomeStep(INITIAL, steps, c)
  {
    NoHasteOverRun(INITIAL, steps, c, SentOn(After(INITIAL, steps), c));
    OrderKeptIff(steps, c);
  }

  // ----- No event is lost on a capture that stays open -----

  /** An event that arrives for a session with a capture is sent on that capture, whatever happens next, if
      in the end the capture is open and nothing is on its way to it. */
  lemma LiveEventReaches(s: State, reader: Epoch, e: Event, session: SessionId, steps: seq<Step>)
    requires Inv(s) && Enabled(s, Arrive(reader, e, session)) && session in s.client.captures
    requires IsRun(Next(s, Arrive(reader, e, session)), steps)
    requires Settled(After(Next(s, Arrive(reader, e, session)), steps), s.client.captures[session])
    ensures e in SentOn(After(Next(s, Arrive(reader, e, session)), steps), s.client.captures[session])
  {
    var t, c := Next(s, Arrive(reader, e, session)), s.client.captures[session];
    StepKeeps(s, Arrive(reader, e, session));
    assert t.flights[Reader(reader)] == Flight(c, [e]);
    assert InFlight(t, c, e);
    Arrives(t, steps, c, e);
  }

  /** So is each event that waited for the capture when it was started. */
  lemma WaitingEventReaches(s: State, session: SessionId, c: CaptureId, e: Event, steps: seq<Step>)
    requires Inv(s) && Enabled(s, StartCapture(session, c)) && e in OrphansOf(s.client, session)
    requires IsRun(Next(s, StartCapture(session, c)), steps) && Settled(After(Next(s, StartCapture(session, c)), steps), c)
    ensures e in SentOn(After(Next(s, StartCapture(session, c)), steps), c)
  {
    var t := Next(s, StartCapture(session, c));
    StepKeeps(s, StartCapture(session, c));
    assert t.flights[Starter(c)] == Flight(c, OrphansOf(s.client, session));
    assert InFlight(t, c, e);
    Arrives(t, steps, c, e);
  }

  // ----- An event that is overtaken -----

  lemma OneMoreStep(s: State, step: Step, rest: seq<Step>)
    requires Enabled(s, step) && IsRun(Next(s, step), rest)
    ensures IsRun(s, [step] + rest) && After(s, [step] + rest) == After(Next(s, step), rest)
  {
    assert ([step] + rest)[1..] == rest;
  }

  /** An event that came early and waited as an orphan reaches the capture after one that came later. */
  lemma OrderIsNotKept(session: SessionId)
    ensures var steps := [Arrive(0, 0, session)] + ([StartCapture(session, 0)] + ([Arrive(0, 1, session)]
                         + ([PublishNext(Reader(0))] + ([PublishNext(Starter(0))] + []))));
      IsRun(INITIAL, steps) && SentOn(After(INITIAL, steps), 0) == [1, 0]
  {
    hide IsRun, After;
    var s1 := Next(INITIAL, Arrive(0, 0, session));
    assert OrphansOf(s1.client, session) == [0];
    var s2 := Next(s1, StartCapture(session, 0));
    assert EventsOf(s2.flights, Starter(0)) == [0];
    var s3 := Next(s2, Arrive(0, 1, session));
    assert EventsOf(s3.flights, Reader(0)) == [1] && EventsOf(s3.flights, Starter(0)) == [0];
    var s4 := Next(s3, PublishNext(Reader(0)));
    assert s4.all[0].sent == [1] && EventsOf(s4.flights, Starter(0)) == [0];
    var s5 := Next(s4, PublishNext(Starter(0)));
    assert s5.all[0].sent == [1, 0];
    Nothing(s5);
    OneMoreStep(s4, PublishNext(Starter(0)), []);
    OneMoreStep(s3, PublishNext(Reader(0)), [PublishNext(Starter(0))] + []);
    OneMoreStep(s2, Arrive(0, 1, session), [PublishNext(Reader(0))] + ([PublishNext(Starter(0))] + []));
    OneMoreStep(s1, StartCapture(session, 0), [Arrive(0, 1, session)] + ([PublishNext(Reader(0))] + ([PublishNext(Starter(0))] + [])));
    OneMoreStep(INITIAL, Arrive(0, 0, session), [StartCapture(session, 0)] + ([Arrive(0, 1, session)]
                + ([PublishNext(Reader(0))] + ([PublishNext(Starter(0))] + []))));
  }

  lemma Nothing(s: State)
    ensures IsRun(s, []) && After(s, []) == s
  {
  }
}
