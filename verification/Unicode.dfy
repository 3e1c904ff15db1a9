/**
 Text as the browser extension and the host see it: UTF-16 code units on the JavaScript side
 (section 2.1 of RFC 2781), UTF-8 bytes on the wire (section 3 of RFC 3629).

 An unpaired surrogate encodes to U+FFFD, which is what TextEncoder and the JSON encoder of
 the host both produce, so `Utf8` is total.
 */
module Unicode {
  import opened Wrappers

  type CodeUnit = u: int | 0 <= u < 0x1_0000
  type Byte = b: int | 0 <= b < 0x100
  type Scalar = c: int | 0 <= c < 0xD800 || 0xE000 <= c < 0x11_0000

  type Text = seq<CodeUnit>
  type Bytes = seq<Byte>

  const REPLACEMENT: Scalar := 0xFFFD

  predicate IsHighSurrogate(u: CodeUnit) { 0xD800 <= u <= 0xDBFF }

  predicate IsLowSurrogate(u: CodeUnit) { 0xDC00 <= u <= 0xDFFF }

  /** The text starts with a high surrogate followed by a low one. */
  predicate StartsWithPair(t: Text) {
    |t| >= 2 && IsHighSurrogate(t[0]) && IsLowSurrogate(t[1])
  }

  /** Cutting `t` at `k` would separate the two halves of a surrogate pair. */
  predicate SplitsPair(t: Text, k: int) {
    0 < k < |t| && IsHighSurrogate(t[k - 1]) && IsLowSurrogate(t[k])
  }

  /** Every surrogate in the text belongs to a pair. */
  predicate WellFormed(t: Text) {
    if t == [] then true
    else if StartsWithPair(t) then WellFormed(t[2..])
    else !IsHighSurrogate(t[0]) && !IsLowSurrogate(t[0]) && WellFormed(t[1..])
  }

  function HeadLength(t: Text): (n: nat)
    requires t != []
    ensures 1 <= n <= 2 && n <= |t|
  {
    if StartsWithPair(t) then 2 else 1
  }

  function HeadScalar(t: Text): Scalar
    requires t != []
  {
    if StartsWithPair(t) then 0x1_0000 + (t[0] - 0xD800) * 0x400 + (t[1] - 0xDC00)
    else if IsHighSurrogate(t[0]) || IsLowSurrogate(t[0]) then REPLACEMENT
    else t[0]
  }

  function EncodeScalar(c: Scalar): (b: Bytes)
    ensures 1 <= |b| <= 4
    ensures |b| == 4 <==> c >= 0x1_0000
  {
    if c < 0x80 then [c]
    else if c < 0x800 then [0xC0 + c / 0x40, 0x80 + c % 0x40]
    else if c < 0x1_0000 then [0xE0 + c / 0x1000, 0x80 + c / 0x40 % 0x40, 0x80 + c % 0x40]
    else [0xF0 + c / 0x4_0000, 0x80 + c / 0x1000 % 0x40, 0x80 + c / 0x40 % 0x40, 0x80 + c % 0x40]
  }

  function Utf8(t: Text): Bytes {
    if t == [] then [] else EncodeScalar(HeadScalar(t)) + Utf8(t[HeadLength(t)..])
  }

  // ----- Encoding pieces separately -----

  /** Encoding distributes over any cut that separates no surrogate pair, whatever the text. */
  lemma {:induction false} Utf8Concat(a: Text, b: Text)
    requires !SplitsPair(a + b, |a|)
    ensures Utf8(a + b) == Utf8(a) + Utf8(b)
  {
    if a == [] {
      assert a + b == b;
    } else {
      var n := HeadLength(a + b);
      assert HeadLength(a) == n && HeadScalar(a) == HeadScalar(a + b);
      assert (a + b)[n..] == a[n..] + b;
      Utf8Concat(a[n..], b);
    }
  }

  lemma Utf8Cut(t: Text, k: nat)
    requires k <= |t| && !SplitsPair(t, k)
    ensures Utf8(t) == Utf8(t[..k]) + Utf8(t[k..])
  {
    assert t == t[..k] + t[k..];
    Utf8Concat(t[..k], t[k..]);
  }

  /** One more code unit always means at least one more byte, even inside a pair: the lone high
      half takes three bytes and the whole pair four. */
  lemma Utf8PrefixGrows(t: Text, k: nat)
    requires k < |t|
    ensures |Utf8(t[..k])| < |Utf8(t[..k + 1])|
  {
    if SplitsPair(t, k) {
      var p := t[..k - 1];
      assert t[..k] == p + [t[k - 1]] && t[..k + 1] == p + [t[k - 1], t[k]];
      Utf8Concat(p, [t[k - 1]]);
      Utf8Concat(p, [t[k - 1], t[k]]);
      assert Utf8([t[k - 1]]) == EncodeScalar(REPLACEMENT) + Utf8([]);
      var pair := [t[k - 1], t[k]];
      assert pair[2..] == [];
      assert Utf8(pair) == EncodeScalar(HeadScalar(pair)) + Utf8([]);
    } else {
      assert t[..k + 1] == t[..k] + [t[k]];
      Utf8Concat(t[..k], [t[k]]);
      assert Utf8([t[k]]) == EncodeScalar(HeadScalar([t[k]])) + Utf8([t[k]][1..]);
    }
  }

  lemma {:induction false} Utf8PrefixMonotone(t: Text, i: nat, j: nat)
    requires i <= j <= |t|
    ensures |Utf8(t[..i])| + (j - i) <= |Utf8(t[..j])|
    decreases j - i
  {
    if i < j {
      Utf8PrefixGrows(t, i);
      Utf8PrefixMonotone(t, i + 1, j);
    }
  }

  /** No code unit needs more than three bytes, so a piece of n units fits in 3n bytes. */
  lemma {:induction false} Utf8AtMostTripled(t: Text)
    ensures |Utf8(t)| <= 3 * |t|
  {
    if t != [] {
      Utf8AtMostTripled(t[HeadLength(t)..]);
    }
  }

  // ----- Decoding -----

  predicate IsContinuation(b: seq<int>, k: nat) { k < |b| && 0x80 <= b[k] < 0xC0 }

  /** The first scalar value of a byte string and its length, or None where RFC 3629 calls the
      bytes invalid: a stray continuation, an overlong form, a surrogate, a value past U+10FFFF. */
  function DecodeHead(b: seq<int>): (r: Option<(Scalar, nat)>)
    requires b != []
    ensures r.Some? ==> 1 <= r.value.1 <= |b|
  {
    if 0 <= b[0] < 0x80 then Some((b[0], 1))
    else if 0xC0 <= b[0] < 0xE0 && IsContinuation(b, 1) then
      var c := (b[0] - 0xC0) * 0x40 + (b[1] - 0x80);
      if c >= 0x80 then Some((c, 2)) else None
    else if 0xE0 <= b[0] < 0xF0 && IsContinuation(b, 1) && IsContinuation(b, 2) then
      var c := (b[0] - 0xE0) * 0x1000 + (b[1] - 0x80) * 0x40 + (b[2] - 0x80);
      if 0x800 <= c && !(0xD800 <= c < 0xE000) then Some((c, 3)) else None
    else if 0xF0 <= b[0] < 0xF8 && IsContinuation(b, 1) && IsContinuation(b, 2) && IsContinuation(b, 3) then
      var c := (b[0] - 0xF0) * 0x4_0000 + (b[1] - 0x80) * 0x1000 + (b[2] - 0x80) * 0x40 + (b[3] - 0x80);
      if 0x1_0000 <= c < 0x11_0000 then Some((c, 4)) else None
    else None
  }

  function UnitsOf(c: Scalar): (t: Text)
    ensures t != []
  {
    if c < 0x1_0000 then [c]
    else [0xD800 + (c - 0x1_0000) / 0x400, 0xDC00 + (c - 0x1_0000) % 0x400]
  }

  function Decode(b: Bytes): Option<Text> {
    if b == [] then Some([])
    else match DecodeHead(b)
      case None => None
      case Some((c, n)) =>
        match Decode(b[n..])
        case None => None
        case Some(t) => Some(UnitsOf(c) + t)
  }

  lemma DecodeEncodedScalar(c: Scalar, rest: Bytes)
    ensures DecodeHead(EncodeScalar(c) + rest) == Some((c, |EncodeScalar(c)|))
  {
    var e := EncodeScalar(c);
    var b := e + rest;
    assert b[0] == e[0] && forall k :: 0 <= k < |e| ==> b[k] == e[k];
    assert c / 0x1000 == c / 0x40 / 0x40 && c / 0x4_0000 == c / 0x1000 / 0x40;
  }

  /** Decoding the UTF-8 form of well-formed text gives the text back, so equal bytes mean equal text. */
  lemma {:induction false} DecodeUtf8(t: Text)
    requires WellFormed(t)
    ensures Decode(Utf8(t)) == Some(t)
  {
    if t != [] {
      var c, n := HeadScalar(t), HeadLength(t);
      var rest := Utf8(t[n..]);
      DecodeEncodedScalar(c, rest);
      assert (EncodeScalar(c) + rest)[|EncodeScalar(c)|..] == rest;
      DecodeUtf8(t[n..]);
      assert UnitsOf(c) == t[..n];
      assert t[..n] + t[n..] == t;
    }
  }
}
