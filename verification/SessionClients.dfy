/**
 The client by which a plugin reaches its host over one stream at a time: its tables, and the regions of
 code that run under its lock. `Effect` says what each region does to the tables. It specifies the methods
 of `SessionClient`, and the protocols of requests and of captures are built from it.
 */
module SessionClients {
  import opened Wrappers
  import Maps

  type RequestId = nat
  type Channel = nat
  /** A stream and the channel that is closed when it ends. */
  type Epoch = nat
  type SessionId = string
  type CaptureId = nat
  /** Network events are numbered in the order in which they arrive. */
  type Event = nat

  const ORPHAN_LIMIT: nat := 128

  datatype Client = Client(stream: Option<Epoch>, pending: map<RequestId, Channel>, captures: map<SessionId, CaptureId>,
                           orphans: map<SessionId, seq<Event>>)

  const DETACHED := Client(None, map[], map[], map[])

  datatype Region =
    | Attach(epoch: Epoch)                               // a new stream
    | Begin(id: RequestId, channel: Channel)             // a caller registers its request
    | Forget(id: RequestId)                              // a caller gives up
    | Respond(id: RequestId)                             // a reader has a response
    | Route(session: SessionId, e: Event)                // a reader has an event
    | Adopt(session: SessionId, capture: CaptureId)      // a capture has been started
    | Unregister(session: SessionId)                     // a capture is being stopped
    | Disconnect(epoch: Epoch)                           // the end of a stream

  datatype Routing = ToCapture(capture: CaptureId) | Kept | Lost

  ghost function OrphansOf(c: Client, session: SessionId): seq<Event> {
    if session in c.orphans then c.orphans[session] else []
  }

  ghost function RoutingOf(c: Client, session: SessionId): Routing {
    if session in c.captures then ToCapture(c.captures[session])
    else if |OrphansOf(c, session)| < ORPHAN_LIMIT then Kept
    else Lost
  }

  /** Whom the end of a stream answers, and what it closes. Only the stream in force can end. */
  ghost function AnsweredBy(c: Client, epoch: Epoch): set<Channel> {
    if c.stream == Some(epoch) then c.pending.Values else {}
  }

  ghost function ClosedBy(c: Client, epoch: Epoch): set<CaptureId> {
    if c.stream == Some(epoch) then c.captures.Values else {}
  }

  ghost function Effect(c: Client, region: Region): Client {
    match region
    case Attach(epoch) => if c.stream.Some? then c else c.(stream := Some(epoch))
    case Begin(id, channel) => if c.stream.None? then c else c.(pending := c.pending[id := channel])
    case Forget(id) => c.(pending := c.pending - {id})
    case Respond(id) => c.(pending := c.pending - {id})
    case Route(session, e) =>
      if RoutingOf(c, session).Kept? then c.(orphans := c.orphans[session := OrphansOf(c, session) + [e]]) else c
    case Adopt(session, capture) => c.(captures := c.captures[session := capture], orphans := c.orphans - {session})
    case Unregister(session) => c.(captures := c.captures - {session})
    case Disconnect(epoch) => if c.stream == Some(epoch) then DETACHED else c
  }

  class SessionClient {
    var stream: Option<Epoch>
    var pending: map<RequestId, Channel>
    var captures: map<SessionId, CaptureId>
    var orphanEvents: map<SessionId, seq<Event>>

    ghost function Now(): Client
      reads this
    {
      Client(stream, pending, captures, orphanEvents)
    }

    constructor ()
      ensures Now() == DETACHED
    {
      stream, pending, captures, orphanEvents := None, map[], map[], map[];
    }

    method Attach(epoch: Epoch) returns (ok: bool)
      modifies this`stream
      ensures Now() == Effect(old(Now()), Region.Attach(epoch)) && ok == old(stream).None?
    {
      if stream.Some? {
        return false;
      }
      stream := Some(epoch);
      return true;
    }

    /** A caller registers its request and learns the epoch it belongs to. */
    method Begin(id: RequestId, channel: Channel) returns (epoch: Option<Epoch>)
      modifies this`pending
      ensures Now() == Effect(old(Now()), Region.Begin(id, channel)) && epoch == stream
    {
      if stream.None? {
        return None;
      }
      pending := pending[id := channel];
      return stream;
    }

    /** A caller gives up: its request could not be sent, or it was cancelled. */
    method Forget(id: RequestId)
      modifies this`pending
      ensures Now() == Effect(old(Now()), Region.Forget(id))
    {
      pending := pending - {id};
    }

    method TakeResponse(id: RequestId) returns (channel: Option<Channel>)
      modifies this`pending
      ensures Now() == Effect(old(Now()), Region.Respond(id))
      ensures channel == Maps.Find(old(pending), id)
    {
      channel := Maps.Find(pending, id);
      pending := pending - {id};
    }

    /** The reader finds the capture of an event, or keeps the event until the capture is known. */
    method RouteEvent(session: SessionId, e: Event) returns (routing: Routing)
      modifies this`orphanEvents
      ensures Now() == Effect(old(Now()), Region.Route(session, e)) && routing == RoutingOf(old(Now()), session)
    {
      if session in captures {
        return ToCapture(captures[session]);
      }
      var waiting := if session in orphanEvents then orphanEvents[session] else [];
      if |waiting| >= ORPHAN_LIMIT {
        return Lost;
      }
      orphanEvents := orphanEvents[session := waiting + [e]];
      return Kept;
    }

    /** A new capture enters the map and takes over the events that came before it. */
    method Adopt(session: SessionId, capture: CaptureId) returns (orphans: seq<Event>)
      modifies this`captures, this`orphanEvents
      ensures Now() == Effect(old(Now()), Region.Adopt(session, capture)) && orphans == OrphansOf(old(Now()), session)
    {
      captures := captures[session := capture];
      orphans := if session in orphanEvents then orphanEvents[session] else [];
      orphanEvents := orphanEvents - {session};
    }

    method TakeCapture(session: SessionId) returns (capture: Option<CaptureId>)
      modifies this`captures
      ensures Now() == Effect(old(Now()), Region.Unregister(session))
      ensures capture == Maps.Find(old(captures), session)
    {
      capture := Maps.Find(captures, session);
      captures := captures - {session};
    }

    /** The end of a stream: the channels of all its requests are answered and all captures closed while
        the lock is held. */
    method Disconnect(epoch: Epoch) returns (answered: set<Channel>, closing: set<CaptureId>)
      modifies this
      ensures Now() == Effect(old(Now()), Region.Disconnect(epoch))
      ensures answered == AnsweredBy(old(Now()), epoch) && closing == ClosedBy(old(Now()), epoch)
    {
      answered, closing := {}, {};
      if stream != Some(epoch) {
        return;
      }
      stream := None;
      answered := Maps.TakeValues(pending);
      pending := map[];
      closing := Maps.TakeValues(captures);
      captures := map[];
      orphanEvents := map[];
    }
  }

  // ----- Events that wait for their capture -----

  ghost function AfterRegions(c: Client, regions: seq<Region>): Client {
    if regions == [] then c else Effect(AfterRegions(c, regions[..|regions| - 1]), regions[|regions| - 1])
  }

  /** The events of a session that readers route, in the order in which they do. */
  ghost function Routed(regions: seq<Region>, session: SessionId): seq<Event> {
    if regions == [] then []
    else
      var last := regions[|regions| - 1];
      Routed(regions[..|regions| - 1], session) + if last.Route? && last.session == session then [last.e] else []
  }

  function FirstOf(events: seq<Event>): seq<Event> {
    if |events| <= ORPHAN_LIMIT then events else events[..ORPHAN_LIMIT]
  }

  ghost predicate LeavesWaiting(region: Region, session: SessionId) {
    !region.Disconnect? && (region.Adopt? ==> region.session != session)
  }

  /** Until a capture for it is started or the stream ends, a session without a capture keeps the first 128
      of its events, in order, whatever else happens to the client; so this is what the capture takes over. */
  lemma {:induction false} FirstAreKept(c: Client, regions: seq<Region>, session: SessionId)
    requires session !in c.captures && |OrphansOf(c, session)| <= ORPHAN_LIMIT
    requires forall i :: 0 <= i < |regions| ==> LeavesWaiting(regions[i], session)
    ensures var after := AfterRegions(c, regions);
      session !in after.captures && OrphansOf(after, session) == FirstOf(OrphansOf(c, session) + Routed(regions, session))
  {
    if regions == [] {
      assert OrphansOf(c, session) + [] == OrphansOf(c, session);
    } else {
      var front, last := regions[..|regions| - 1], regions[|regions| - 1];
      FirstAreKept(c, front, session);
      assert LeavesWaiting(last, session);
      var before := OrphansOf(c, session) + Routed(front, session);
      if last.Route? && last.session == session {
        assert OrphansOf(c, session) + Routed(regions, session) == before + [last.e];
      } else {
        assert Routed(regions, session) == Routed(front, session);
      }
    }
  }
}
