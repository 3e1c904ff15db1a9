/**
 The host's table of commands awaiting a browser response, with the assembler for chunked ones.

 `AgentConnection` keeps the two maps of the host and updates them in place. Each method is one
 region under the table's lock. Seen from outside, the two maps together are one slot per command id,
 and `NextSlot` says what a chunk does to a slot.
 */
module CommandTable {
  import opened Unicode
  import opened Wrappers
  import Maps
  import ResponseChunks

  const PROTOCOL_VERSION: int := 1
  const MAX_CHUNKED_RESPONSE_BYTES: nat := 64 * 1024 * 1024
  const MAX_RESPONSE_CHUNKS: nat := 128

  type RequestId = string
  /** The identity of the buffered response channel a caller made for its command. */
  type Channel = nat

  datatype Fault = InvalidFirstChunk | LimitOrOrder | Disconnected(cause: string)

  datatype Response = Reply(payload: Bytes, error: string) | Failed(fault: Fault)

  datatype ChunkMessage = ChunkMessage(protocol: int, id: RequestId, sequence: int, total: int, chunk: Bytes)

  datatype Assembly = Assembly(total: int, next: int, size: int, parts: seq<Bytes>)

  /** What the table holds for a command id. */
  datatype Slot = Free | Awaiting(channel: Channel) | Collecting(channel: Channel, assembly: Assembly)

  function TotalSize(parts: seq<Bytes>): (n: nat) {
    if parts == [] then 0 else TotalSize(parts[..|parts| - 1]) + |parts[|parts| - 1]|
  }

  lemma TotalSizeAppend(parts: seq<Bytes>, chunk: Bytes)
    ensures TotalSize(parts + [chunk]) == TotalSize(parts) + |chunk|
  {
    assert (parts + [chunk])[..|parts|] == parts;
  }

  /** A stored assembly: some parts have come, not all, in order, within both limits. */
  ghost predicate ValidAssembly(a: Assembly) {
    && 0 < a.next == |a.parts| < a.total <= MAX_RESPONSE_CHUNKS
    && a.size == TotalSize(a.parts) <= MAX_CHUNKED_RESPONSE_BYTES
  }

  lemma CountsParts(a: Assembly)
    requires ValidAssembly(a)
    ensures a.next == |a.parts|
  {
  }

  /** An assembly, new or stored, with one more part. */
  lemma GrowKeepsValid(a: Assembly, chunk: Bytes)
    requires ValidAssembly(a) || (a == Assembly(a.total, 0, 0, []) && 0 < a.total <= MAX_RESPONSE_CHUNKS)
    requires a.size + |chunk| <= MAX_CHUNKED_RESPONSE_BYTES
    ensures a.next + 1 != a.total ==> ValidAssembly(Assembly(a.total, a.next + 1, a.size + |chunk|, a.parts + [chunk]))
  {
    TotalSizeAppend(a.parts, chunk);
  }

  ghost predicate ValidSlot(slot: Slot) { slot.Collecting? ==> ValidAssembly(slot.assembly) }

  /** The effect of a chunk on the slot of its command, and the response it completes, if any. */
  ghost function NextSlot(slot: Slot, m: ChunkMessage): (Slot, Option<Response>) {
    match slot
    case Free => (Free, None)
    case Awaiting(channel) =>
      if m.sequence != 0 || !(0 < m.total <= MAX_RESPONSE_CHUNKS)
      then (Free, Some(Failed(InvalidFirstChunk)))
      else Extend(channel, Assembly(m.total, 0, 0, []), m)
    case Collecting(channel, assembly) => Extend(channel, assembly, m)
  }

  ghost function Extend(channel: Channel, a: Assembly, m: ChunkMessage): (Slot, Option<Response>) {
    if m.total != a.total || m.sequence != a.next || a.size + |m.chunk| > MAX_CHUNKED_RESPONSE_BYTES
    then (Free, Some(Failed(LimitOrOrder)))
    else
      var parts := a.parts + [m.chunk];
      if |parts| == a.total
      then (Free, Some(Reply(ResponseChunks.Join(parts), "")))
      else (Collecting(channel, Assembly(a.total, |parts|, a.size + |m.chunk|, parts)), None)
  }

  ghost predicate Accepted(m: ChunkMessage) { m.protocol == PROTOCOL_VERSION && m.id != "" }

  class AgentConnection {
    var pending: map<RequestId, Channel>
    var chunks: map<RequestId, Assembly>

    ghost predicate Valid()
      reads this
    {
      chunks.Keys <= pending.Keys && forall id :: id in chunks ==> ValidAssembly(chunks[id])
    }

    ghost function SlotOf(id: RequestId): (slot: Slot)
      reads this
    {
      if id !in pending then Free
      else if id !in chunks then Awaiting(pending[id])
      else Collecting(pending[id], chunks[id])
    }

    constructor ()
      ensures Valid() && forall id :: SlotOf(id) == Free
    {
      pending := map[];
      chunks := map[];
    }

    /** A caller puts its new channel into the table; command ids are fresh. */
    method Register(id: RequestId, channel: Channel)
      requires Valid() && SlotOf(id) == Free
      modifies this
      ensures Valid() && SlotOf(id) == Awaiting(channel)
      ensures forall other :: other != id ==> SlotOf(other) == old(SlotOf(other))
    {
      pending := pending[id := channel];
    }

    /** A caller leaves, whatever the reason. */
    method Release(id: RequestId)
      requires Valid()
      modifies this
      ensures Valid() && SlotOf(id) == Free && id !in pending && id !in chunks
      ensures forall other :: other != id ==> SlotOf(other) == old(SlotOf(other))
    {
      pending := pending - {id};
      chunks := chunks - {id};
    }

    /** The reader takes the channel of a completed command out of the table before answering on it. */
    method TakeResponse(id: RequestId) returns (channel: Option<Channel>)
      requires Valid()
      modifies this
      ensures Valid() && SlotOf(id) == Free
      ensures channel == if old(SlotOf(id)).Free? then None else Some(old(SlotOf(id)).channel)
      ensures forall other :: other != id ==> SlotOf(other) == old(SlotOf(other))
    {
      channel := if id in pending then Some(pending[id]) else None;
      pending := pending - {id};
      chunks := chunks - {id};
    }

    /** One chunk of a response. When it completes or spoils the response, the method hands back the
        channel to notify and the value for it, and the command has left the table. */
    method HandleResponseChunk(message: ChunkMessage) returns (notice: Option<(Channel, Response)>)
      requires Valid()
      modifies this
      ensures Valid()
      ensures !Accepted(message) ==> pending == old(pending) && chunks == old(chunks) && notice == None
      ensures Accepted(message) ==>
                var (slot, response) := NextSlot(old(SlotOf(message.id)), message);
                && SlotOf(message.id) == slot
                && notice == (if response.None? then None
                              else Some((old(SlotOf(message.id)).channel, response.value)))
      ensures forall other :: other != message.id ==> SlotOf(other) == old(SlotOf(other))
    {
      hide ValidAssembly;
      hide ResponseChunks.Join;
      if message.protocol != PROTOCOL_VERSION || message.id == "" {
        return None;
      }
      if message.id !in pending {
        chunks := chunks - {message.id};
        return None;
      }
      var response := pending[message.id];
      var assembly;
      if message.id !in chunks {
        assembly := Assembly(message.total, 0, 0, []);
        if message.sequence != 0 || message.total <= 0 || message.total > MAX_RESPONSE_CHUNKS {
          pending := pending - {message.id};
          return Some((response, Failed(InvalidFirstChunk)));
        }
      } else {
        assembly := chunks[message.id];
        CountsParts(assembly);
      }
      if message.total != assembly.total || message.sequence != assembly.next
         || assembly.size + |message.chunk| > MAX_CHUNKED_RESPONSE_BYTES
      {
        chunks := chunks - {message.id};
        pending := pending - {message.id};
        return Some((response, Failed(LimitOrOrder)));
      }
      GrowKeepsValid(assembly, message.chunk);
      assembly := assembly.(parts := assembly.parts + [message.chunk],
        size := assembly.size + |message.chunk|, next := assembly.next + 1);
      chunks := chunks[message.id := assembly];
      if assembly.next != assembly.total {
        return None;
      }
      chunks := chunks - {message.id};
      pending := pending - {message.id};
      return Some((response, Reply(ResponseChunks.Join(assembly.parts), "")));
    }

    /** The closing thread empties the table; the channels it held are the ones it notifies. */
    method Drain() returns (notified: set<Channel>)
      requires Valid()
      modifies this
      ensures Valid() && notified == old(pending.Values) && forall id :: SlotOf(id) == Free
    {
      notified := Maps.TakeValues(pending);
      pending := map[];
      chunks := map[];
    }
  }

  /** A chunk keeps a slot valid, and answers exactly when the command leaves the table. */
  lemma ChunkKeepsSlotValid(slot: Slot, m: ChunkMessage)
    requires ValidSlot(slot)
    ensures ValidSlot(NextSlot(slot, m).0)
    ensures NextSlot(slot, m).1.Some? <==> slot != Free && NextSlot(slot, m).0 == Free
    ensures NextSlot(slot, m).0 != Free ==> NextSlot(slot, m).0.channel == slot.channel
  {
    TotalSizeAppend(if slot.Collecting? then slot.assembly.parts else [], m.chunk);
  }

  // ----- Feeding the chunks of one response in order -----

  function ChunkOf(id: RequestId, payloads: seq<Bytes>, k: nat): ChunkMessage
    requires k < |payloads|
  {
    ChunkMessage(PROTOCOL_VERSION, id, k, |payloads|, payloads[k])
  }

  /** The slot after the first k chunks have been accepted. */
  ghost function SlotAfter(channel: Channel, payloads: seq<Bytes>, k: nat): Slot
    requires k <= |payloads|
  {
    if k == 0 then Awaiting(channel)
    else Collecting(channel, Assembly(|payloads|, k, TotalSize(payloads[..k]), payloads[..k]))
  }

  /** The answers given while the chunks from number k on arrive. */
  ghost function Answers(slot: Slot, id: RequestId, payloads: seq<Bytes>, k: nat): seq<Response>
    requires k <= |payloads|
    decreases |payloads| - k
  {
    if k == |payloads| then []
    else
      var (next, response) := NextSlot(slot, ChunkOf(id, payloads, k));
      (if response.Some? then [response.value] else []) + Answers(next, id, payloads, k + 1)
  }

  lemma {:induction false} TotalSizePrefix(parts: seq<Bytes>, k: nat)
    requires k <= |parts|
    ensures TotalSize(parts[..k]) <= TotalSize(parts) == |ResponseChunks.Join(parts)|
  {
    if parts != [] {
      var front := parts[..|parts| - 1];
      TotalSizePrefix(front, if k < |parts| then k else k - 1);
      if k < |parts| {
        assert parts[..k] == front[..k];
      } else {
        assert parts[..k] == parts;
      }
    }
  }

  lemma ExtendBy(id: RequestId, channel: Channel, payloads: seq<Bytes>, k: nat)
    requires k < |payloads| <= MAX_RESPONSE_CHUNKS
    ensures TotalSize(payloads[..k + 1]) == TotalSize(payloads[..k]) + |payloads[k]|
    ensures NextSlot(SlotAfter(channel, payloads, k), ChunkOf(id, payloads, k)) ==
            Extend(channel, Assembly(|payloads|, k, TotalSize(payloads[..k]), payloads[..k]), ChunkOf(id, payloads, k))
  {
    assert payloads[..k + 1] == payloads[..k] + [payloads[k]];
    TotalSizeAppend(payloads[..k], payloads[k]);
    assert payloads[..0] == [] && TotalSize([]) == 0;
  }

  lemma ChunkAccepted(id: RequestId, channel: Channel, payloads: seq<Bytes>, k: nat)
    requires k < |payloads| <= MAX_RESPONSE_CHUNKS
    requires TotalSize(payloads[..k + 1]) <= MAX_CHUNKED_RESPONSE_BYTES
    ensures NextSlot(SlotAfter(channel, payloads, k), ChunkOf(id, payloads, k)) ==
        if k + 1 < |payloads| then (SlotAfter(channel, payloads, k + 1), None)
        else (Free, Some(Reply(ResponseChunks.Join(payloads), "")))
  {
    hide TotalSize;
    hide NextSlot;
    hide ResponseChunks.Join;
    ExtendBy(id, channel, payloads, k);
    assert payloads[..k] + [payloads[k]] == payloads[..k + 1];
    assert payloads[..|payloads|] == payloads;
  }

  lemma {:induction false} FreeSlotIgnoresChunks(id: RequestId, payloads: seq<Bytes>, k: nat)
    requires k <= |payloads|
    ensures Answers(Free, id, payloads, k) == []
    decreases |payloads| - k
  {
    if k < |payloads| {
      FreeSlotIgnoresChunks(id, payloads, k + 1);
    }
  }

  lemma {:induction false} AnswersFrom(id: RequestId, channel: Channel, payloads: seq<Bytes>, k: nat)
    requires k < |payloads| <= MAX_RESPONSE_CHUNKS
    requires TotalSize(payloads[..k]) <= MAX_CHUNKED_RESPONSE_BYTES
    ensures Answers(SlotAfter(channel, payloads, k), id, payloads, k) ==
      if TotalSize(payloads) <= MAX_CHUNKED_RESPONSE_BYTES
      then [Reply(ResponseChunks.Join(payloads), "")] else [Failed(LimitOrOrder)]
    decreases |payloads| - k
  {
    TotalSizePrefix(payloads, k + 1);
    ExtendBy(id, channel, payloads, k);
    if TotalSize(payloads[..k + 1]) <= MAX_CHUNKED_RESPONSE_BYTES {
      ChunkAccepted(id, channel, payloads, k);
      if k + 1 < |payloads| {
        AnswersFrom(id, channel, payloads, k + 1);
      } else {
        assert payloads[..k + 1] == payloads;
      }
    } else {
      FreeSlotIgnoresChunks(id, payloads, k + 1);
    }
  }

  /** A response sent in pieces is answered exactly once: with the joined bytes if and only if they fit
      the host's limit, with a failure otherwise. */
  lemma AnsweredOnceByChunks(id: RequestId, channel: Channel, t: Text, cuts: seq<nat>)
    requires ResponseChunks.ValidBoundaries(t, cuts) && 0 < |t| <= ResponseChunks.MAX_RESPONSE_SIZE
    ensures Answers(Awaiting(channel), id, ResponseChunks.Payloads(t, cuts), 0) ==
      if |Utf8(t)| <= MAX_CHUNKED_RESPONSE_BYTES then [Reply(Utf8(t), "")] else [Failed(LimitOrOrder)]
  {
    var payloads := ResponseChunks.Payloads(t, cuts);
    ResponseChunks.PieceCount(t, cuts);
    ResponseChunks.JoinedPayloads(t, cuts);
    TotalSizePrefix(payloads, 0);
    assert payloads[..0] == [];
    AnswersFrom(id, channel, payloads, 0);
  }

  lemma {:induction false} ThreeBytesEach(t: Text)
    requires forall k :: 0 <= k < |t| ==> t[k] == 0x4E2D
    ensures |Utf8(t)| == 3 * |t|
  {
    if t != [] {
      ThreeBytesEach(t[1..]);
    }
  }

  ghost function Wide(n: nat): Text { seq(n, _ => 0x4E2D) }

  /** A JSON string: two quotes around units that take three bytes each, 60 MiB units in all. */
  ghost function WideText(): Text { [0x22] + Wide(ResponseChunks.MAX_RESPONSE_SIZE - 2) + [0x22] }

  lemma WideTextSize()
    ensures |WideText()| == ResponseChunks.MAX_RESPONSE_SIZE
    ensures |Utf8(WideText())| == 3 * (ResponseChunks.MAX_RESPONSE_SIZE - 2) + 2
  {
    var wide := Wide(ResponseChunks.MAX_RESPONSE_SIZE - 2);
    ThreeBytesEach(wide);
    QuoteSize();
    Utf8Concat([0x22], wide);
    Utf8Concat([0x22] + wide, [0x22]);
  }

  lemma QuoteSize()
    ensures |Utf8([0x22])| == 1
  {
    assert Utf8([0x22]) == EncodeScalar(0x22) + Utf8([0x22][1..]);
  }

  /** The two limits do not agree: the extension sends this text, and the host refuses it, because its
      UTF-8 form has almost 180 MiB. */
  lemma SentButRefused(id: RequestId, channel: Channel, cuts: seq<nat>)
    requires ResponseChunks.ValidBoundaries(WideText(), cuts)
    ensures |WideText()| <= ResponseChunks.MAX_RESPONSE_SIZE
    ensures Answers(Awaiting(channel), id, ResponseChunks.Payloads(WideText(), cuts), 0) == [Failed(LimitOrOrder)]
  {
    hide Wide;
    WideTextSize();
    AnsweredOnceByChunks(id, channel, WideText(), cuts);
  }
}
