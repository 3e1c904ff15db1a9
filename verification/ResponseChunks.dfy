/**
 The sending half of a chunked browser response: where the extension cuts the serialized result.
 */
module ResponseChunks {
  import opened Unicode

  const RESPONSE_CHUNK_SIZE: nat := 512 * 1024
  const MAX_RESPONSE_SIZE: nat := 60 * 1024 * 1024

  /** How a serialized result leaves the extension. The boundaries start with 0 and end with the length. */
  datatype Plan = Whole | Pieces(boundaries: seq<nat>) | TooLarge

  /** The cut after `from`: a full piece, one unit less where that would end in a high surrogate,
      or the rest of the text. It never separates a surrogate pair, in ill-formed text either. */
  ghost function NextCut(t: Text, from: nat): (to: nat)
    requires from < |t|
    ensures from < to <= |t| && to - from <= RESPONSE_CHUNK_SIZE
    ensures to < |t| ==> to - from >= RESPONSE_CHUNK_SIZE - 1
    ensures !SplitsPair(t, to)
  {
    var full := from + RESPONSE_CHUNK_SIZE;
    if full >= |t| then |t| else if IsHighSurrogate(t[full - 1]) then full - 1 else full
  }

  ghost predicate ValidPrefix(t: Text, cuts: seq<nat>) {
    && |cuts| >= 1 && cuts[0] == 0
    && (forall k :: 0 <= k < |cuts| - 1 ==> cuts[k] < |t| && cuts[k + 1] == NextCut(t, cuts[k]))
  }

  ghost predicate ValidBoundaries(t: Text, cuts: seq<nat>) {
    ValidPrefix(t, cuts) && cuts[|cuts| - 1] == |t|
  }

  method PlanResponse(t: Text) returns (plan: Plan)
    ensures plan.Whole? <==> |t| <= RESPONSE_CHUNK_SIZE
    ensures plan.TooLarge? <==> |t| > MAX_RESPONSE_SIZE
    ensures plan.Pieces? ==> ValidBoundaries(t, plan.boundaries)
  {
    if |t| <= RESPONSE_CHUNK_SIZE {
      return Whole;
    }
    if |t| > MAX_RESPONSE_SIZE {
      return TooLarge;
    }
    var boundaries: seq<nat> := [0];
    var offset := 0;
    while offset < |t|
      invariant ValidPrefix(t, boundaries)
      invariant offset <= |t| && offset == boundaries[|boundaries| - 1]
    {
      var end := if |t| <= offset + RESPONSE_CHUNK_SIZE then |t| else offset + RESPONSE_CHUNK_SIZE;
      if end < |t| && IsHighSurrogate(t[end - 1]) {
        end := end - 1;
      }
      boundaries := boundaries + [end];
      offset := end;
    }
    return Pieces(boundaries);
  }

  /** The pieces between consecutive boundaries, in the order they are sent. */
  ghost function PiecesOf(t: Text, cuts: seq<nat>): (pieces: seq<Text>)
    requires ValidBoundaries(t, cuts)
    ensures |pieces| == |cuts| - 1
  {
    seq(|cuts| - 1, k requires 0 <= k < |cuts| - 1 => t[cuts[k]..NextCut(t, cuts[k])])
  }

  function Join(parts: seq<Bytes>): Bytes {
    if parts == [] then [] else Join(parts[..|parts| - 1]) + parts[|parts| - 1]
  }

  /** The payloads of the chunk messages: the UTF-8 form of each piece. */
  ghost function Payloads(t: Text, cuts: seq<nat>): (payloads: seq<Bytes>)
    requires ValidBoundaries(t, cuts)
    ensures |payloads| == |cuts| - 1
  {
    seq(|cuts| - 1, k requires 0 <= k < |cuts| - 1 => Utf8(PiecesOf(t, cuts)[k]))
  }

  lemma {:induction false} BoundaryLowerBound(t: Text, cuts: seq<nat>, k: nat)
    requires ValidBoundaries(t, cuts) && k + 1 < |cuts|
    ensures cuts[k] >= k * (RESPONSE_CHUNK_SIZE - 1)
  {
    if k > 0 {
      BoundaryLowerBound(t, cuts, k - 1);
      assert cuts[k - 1 + 1] == NextCut(t, cuts[k - 1]);
    }
  }

  /** A text the extension agrees to send takes at most 121 pieces, inside the host's limit of 128,
      and each payload is at most 1.5 MiB, inside the host's limit for one frame. */
  lemma PieceCount(t: Text, cuts: seq<nat>)
    requires ValidBoundaries(t, cuts) && |t| <= MAX_RESPONSE_SIZE
    ensures |cuts| - 1 <= 121
    ensures forall k :: 0 <= k < |cuts| - 1 ==> 1 <= |Payloads(t, cuts)[k]| <= 3 * RESPONSE_CHUNK_SIZE
  {
    if |cuts| > 1 {
      BoundaryLowerBound(t, cuts, |cuts| - 2);
    }
    forall k | 0 <= k < |cuts| - 1
      ensures 1 <= |Payloads(t, cuts)[k]| <= 3 * RESPONSE_CHUNK_SIZE
    {
      var piece := PiecesOf(t, cuts)[k];
      assert |piece| == NextCut(t, cuts[k]) - cuts[k];
      Utf8AtMostTripled(piece);
      Utf8PrefixMonotone(piece, 0, |piece|);
      assert piece[..|piece|] == piece;
    }
  }

  /** Joining the first n payloads gives the UTF-8 form of the text up to cut n. */
  lemma {:induction false} JoinedPrefix(t: Text, cuts: seq<nat>, n: nat)
    requires ValidBoundaries(t, cuts) && n < |cuts|
    ensures cuts[n] <= |t|
    ensures Join(Payloads(t, cuts)[..n]) == Utf8(t[..cuts[n]])
  {
    if n > 0 {
      JoinedPrefix(t, cuts, n - 1);
      var p := Payloads(t, cuts);
      assert p[..n][..n - 1] == p[..n - 1];
      assert cuts[n - 1 + 1] == NextCut(t, cuts[n - 1]);
      var upTo := t[..cuts[n]];
      assert upTo[..cuts[n - 1]] == t[..cuts[n - 1]];
      assert upTo[cuts[n - 1]..] == PiecesOf(t, cuts)[n - 1];
      CutNeverSplits(t, cuts, n - 1);
      Utf8Cut(upTo, cuts[n - 1]);
    }
  }

  lemma CutNeverSplits(t: Text, cuts: seq<nat>, k: nat)
    requires ValidBoundaries(t, cuts) && k < |cuts|
    ensures !SplitsPair(t, cuts[k])
  {
    if k > 0 {
      assert cuts[k - 1 + 1] == NextCut(t, cuts[k - 1]);
    }
  }

  /** The payloads of all pieces, joined in order, are the UTF-8 form of the whole text. */
  lemma JoinedPayloads(t: Text, cuts: seq<nat>)
    requires ValidBoundaries(t, cuts)
    ensures Join(Payloads(t, cuts)) == Utf8(t)
  {
    var n := |cuts| - 1;
    JoinedPrefix(t, cuts, n);
    assert Payloads(t, cuts)[..n] == Payloads(t, cuts) && t[..cuts[n]] == t;
  }
}
