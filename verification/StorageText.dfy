/**
 The serialized form of a copy of web storage, as JSON.stringify writes it (section 25.5.2 of ECMA-262), and
 that `ListingSize` is the number of its UTF-8 bytes.
 */
module StorageText {
  import opened Unicode
  import opened WebStorage

  predicate IsAscii(s: string) { forall i :: 0 <= i < |s| ==> s[i] < 128 as char }

  function Plain(s: string): Text
    requires IsAscii(s)
  {
    seq(|s|, i requires 0 <= i < |s| => s[i] as int)
  }

  function HexDigit(n: int): CodeUnit
    requires 0 <= n < 16
  {
    if n < 10 then 0x30 + n else 0x61 + n - 10
  }

  /** A unit as \u and four hexadecimal digits. */
  function UnicodeEscape(u: CodeUnit): Text {
    [0x5C, 0x75, HexDigit(u / 0x1000), HexDigit(u / 0x100 % 16), HexDigit(u / 0x10 % 16), HexDigit(u % 16)]
  }

  /** The text for the first character. */
  function QuotedHead(t: Text): Text
    requires t != []
  {
    if StartsWithPair(t) then t[..2]
    else if t[0] == 0x08 then Plain("\\b")
    else if t[0] == 0x09 then Plain("\\t")
    else if t[0] == 0x0A then Plain("\\n")
    else if t[0] == 0x0C then Plain("\\f")
    else if t[0] == 0x0D then Plain("\\r")
    else if t[0] == 0x22 then Plain("\\\"")
    else if t[0] == 0x5C then Plain("\\\\")
    else if t[0] < 0x20 || IsHighSurrogate(t[0]) || IsLowSurrogate(t[0]) then UnicodeEscape(t[0])
    else t[..1]
  }

  function Escaped(t: Text): Text {
    if t == [] then [] else QuotedHead(t) + Escaped(t[HeadLength(t)..])
  }

  function Quoted(t: Text): Text { Plain("\"") + Escaped(t) + Plain("\"") }

  function Decimal(n: nat): Text {
    if n < 10 then [0x30 + n] else Decimal(n / 10) + [0x30 + n % 10]
  }

  function Member(e: Entry): Text { Quoted(e.key) + Plain(":") + Quoted(e.value) }

  function Members(values: seq<Entry>): Text {
    if values == [] then []
    else if |values| == 1 then Member(values[0])
    else Members(values[..|values| - 1]) + Plain(",") + Member(values[|values| - 1])
  }

  function Serialized(l: Listing): Text {
    Plain("{\"area\":") + Quoted(l.area) + Plain(",\"count\":") + Decimal(|l.values|)
    + Plain(",\"values\":{") + Members(l.values)
    + Plain("},\"truncated\":") + Plain(if l.truncated then "true" else "false") + Plain("}")
  }

  // ----- The size -----

  /** Text that no pair of surrogates can cross the ends of. */
  ghost predicate Whole(t: Text) { t != [] ==> !IsLowSurrogate(t[0]) && !IsHighSurrogate(t[|t| - 1]) }

  /** Whole text of so many bytes. */
  ghost predicate Sized(t: Text, n: nat) { Whole(t) && |Utf8(t)| == n }

  lemma SizedConcat(a: Text, m: nat, b: Text, n: nat)
    requires Sized(a, m) && Sized(b, n)
    ensures Sized(a + b, m + n)
  {
    Utf8Concat(a, b);
    if a == [] || b == [] {
      assert a + b == a || a + b == b;
    }
  }

  lemma {:induction false} AsciiSized(t: Text)
    requires forall i :: 0 <= i < |t| ==> t[i] < 0x80
    ensures Sized(t, |t|)
  {
    if t != [] {
      AsciiSized(t[1..]);
    }
  }

  lemma PlainSized(s: string)
    requires IsAscii(s)
    ensures Sized(Plain(s), |s|)
  {
    AsciiSized(Plain(s));
  }

  lemma OneUnit(u: CodeUnit)
    requires !IsHighSurrogate(u) && !IsLowSurrogate(u)
    ensures Utf8([u]) == EncodeScalar(u)
  {
    assert [u][1..] == [];
    assert Utf8([u]) == EncodeScalar(u) + Utf8([]);
  }

  lemma HeadSized(t: Text)
    requires t != []
    ensures Sized(QuotedHead(t), HeadSize(t))
  {
    var head := QuotedHead(t);
    if StartsWithPair(t) {
      assert head[2..] == [];
      assert Utf8(head) == EncodeScalar(HeadScalar(head)) + Utf8([]);
    } else if t[0] in {0x08, 0x09, 0x0A, 0x0C, 0x0D} || t[0] == 0x22 || t[0] == 0x5C {
      assert |head| == 2;
      AsciiSized(head);
    } else if t[0] < 0x20 || IsHighSurrogate(t[0]) || IsLowSurrogate(t[0]) {
      AsciiSized(UnicodeEscape(t[0]));
    } else {
      assert head == [t[0]];
      OneUnit(t[0]);
    }
  }

  lemma {:induction false} EscapedSized(t: Text)
    ensures Sized(Escaped(t), EscapedSize(t))
  {
    if t != [] {
      HeadSized(t);
      EscapedSized(t[HeadLength(t)..]);
      SizedConcat(QuotedHead(t), HeadSize(t), Escaped(t[HeadLength(t)..]), EscapedSize(t[HeadLength(t)..]));
    }
  }

  lemma QuotedSized(t: Text)
    ensures Sized(Quoted(t), QuotedSize(t))
  {
    hide Sized;
    PlainSized("\"");
    EscapedSized(t);
    SizedConcat(Plain("\""), 1, Escaped(t), EscapedSize(t));
    SizedConcat(Plain("\"") + Escaped(t), 1 + EscapedSize(t), Plain("\""), 1);
  }

  lemma {:induction false} DecimalSized(n: nat)
    ensures Sized(Decimal(n), Digits(n))
  {
    AsciiSized([0x30 + n % 10]);
    if n >= 10 {
      DecimalSized(n / 10);
      SizedConcat(Decimal(n / 10), Digits(n / 10), [0x30 + n % 10], 1);
    }
  }

  lemma MemberSized(e: Entry)
    ensures Sized(Member(e), QuotedSize(e.key) + 1 + QuotedSize(e.value))
  {
    hide Sized, Quoted, QuotedSize;
    QuotedSized(e.key);
    QuotedSized(e.value);
    PlainSized(":");
    SizedConcat(Quoted(e.key), QuotedSize(e.key), Plain(":"), 1);
    SizedConcat(Quoted(e.key) + Plain(":"), QuotedSize(e.key) + 1, Quoted(e.value), QuotedSize(e.value));
  }

  lemma {:induction false} MembersSized(values: seq<Entry>)
    ensures Sized(Members(values), MembersSize(values) + if values == [] then 0 else |values| - 1)
  {
    hide Sized, Member, QuotedSize;
    if values == [] {
      AsciiSized([]);
    } else {
      var n := |values| - 1;
      var front, last := values[..n], values[n];
      MemberSized(last);
      if n == 0 {
        assert front == [];
      } else {
        MembersSized(front);
        PlainSized(",");
        SizedConcat(Members(front), MembersSize(front) + n - 1, Plain(","), 1);
        SizedConcat(Members(front) + Plain(","), MembersSize(front) + n, Member(last), QuotedSize(last.key) + 1 + QuotedSize(last.value));
      }
    }
  }

  /** The size that the limits are checked against is that of the serialized result in UTF-8. */
  lemma ListingSizeIsBytes(l: Listing)
    ensures ListingSize(l) == |Utf8(Serialized(l))|
  {
    hide Sized, Quoted, QuotedSize, Members, MembersSize, Decimal, Digits;
    var area, count := Quoted(l.area), Decimal(|l.values|);
    var members, flag := Members(l.values), if l.truncated then "true" else "false";
    var m := MembersSize(l.values) + if l.values == [] then 0 else |l.values| - 1;
    QuotedSized(l.area);
    DecimalSized(|l.values|);
    MembersSized(l.values);
    PlainSized("{\"area\":");
    PlainSized(",\"count\":");
    PlainSized(",\"values\":{");
    PlainSized("},\"truncated\":");
    PlainSized(flag);
    PlainSized("}");
    var t, n := Plain("{\"area\":"), 8;
    SizedConcat(t, n, area, QuotedSize(l.area));
    t, n := t + area, n + QuotedSize(l.area);
    SizedConcat(t, n, Plain(",\"count\":"), 9);
    t, n := t + Plain(",\"count\":"), n + 9;
    SizedConcat(t, n, count, Digits(|l.values|));
    t, n := t + count, n + Digits(|l.values|);
    SizedConcat(t, n, Plain(",\"values\":{"), 11);
    t, n := t + Plain(",\"values\":{"), n + 11;
    SizedConcat(t, n, members, m);
    t, n := t + members, n + m;
    SizedConcat(t, n, Plain("},\"truncated\":"), 14);
    t, n := t + Plain("},\"truncated\":"), n + 14;
    SizedConcat(t, n, Plain(flag), |flag|);
    t, n := t + Plain(flag), n + |flag|;
    SizedConcat(t, n, Plain("}"), 1);
    SizeOf(t + Plain("}"), n + 1);
  }

  lemma SizeOf(t: Text, n: nat)
    requires Sized(t, n)
    ensures |Utf8(t)| == n
  {
  }

  // ----- What fits is copied -----

  /** Everything that was asked for and is there, in full; __proto__ is no property of its own. */
  function Everything(area: Text, keys: seq<Text>, items: map<Text, Text>): Listing {
    if keys == [] then Listing(area, [], false)
    else
      var before, key := Everything(area, keys[..|keys| - 1], items), keys[|keys| - 1];
      if key in items && key != PROTO then before.(values := before.values + [Entry(key, items[key])]) else before
  }

  ghost predicate AllFit(keys: seq<Text>, items: map<Text, Text>, maxValue: nat) {
    forall key :: key in keys && key in items ==> |Utf8(items[key])| <= maxValue
  }

  lemma {:induction false} FittingCopy(area: Text, keys: seq<Text>, items: map<Text, Text>, maxValue: nat)
    ensures var copy := CopyOf(area, keys, items, maxValue);
      && copy.area == area
      && (copy.truncated <==> !AllFit(keys, items, maxValue))
      && (AllFit(keys, items, maxValue) ==> copy == Everything(area, keys, items))
  {
    if keys != [] {
      var front, key := keys[..|keys| - 1], keys[|keys| - 1];
      FittingCopy(area, front, items, maxValue);
      assert keys == front + [key];
      if key in items {
        CutIsSafe(items[key], maxValue);
      }
    }
  }

  lemma {:induction false} MoreDigits(m: nat, n: nat)
    requires m <= n
    ensures Digits(m) <= Digits(n)
  {
    if m >= 10 {
      MoreDigits(m / 10, n / 10);
    }
  }

  lemma {:induction false} EverythingGrows(area: Text, keys: seq<Text>, items: map<Text, Text>, k: nat)
    requires k <= |keys|
    ensures ListingSize(Everything(area, keys[..k], items)) <= ListingSize(Everything(area, keys, items))
  {
    if k == |keys| {
      assert keys[..k] == keys;
    } else {
      var front, key := keys[..|keys| - 1], keys[|keys| - 1];
      EverythingGrows(area, front, items, k);
      assert front[..k] == keys[..k];
      var before, after := Everything(area, front, items), Everything(area, keys, items);
      MoreDigits(|before.values|, |after.values|);
      assert after.values != before.values ==> after.values[..|after.values| - 1] == before.values;
      SameFrame(before, after);
    }
  }

  lemma SameFrame(before: Listing, after: Listing)
    requires before.area == after.area && before.truncated == after.truncated && Digits(|before.values|) <= Digits(|after.values|)
    requires before.values == after.values || (after.values != [] && after.values[..|after.values| - 1] == before.values)
    ensures ListingSize(before) <= ListingSize(after)
  {
  }

  /** The result does not say that it is truncated exactly if every value asked for is within its limit and
      all of them together, serialized, are within the total limit; and then it is everything. */
  lemma TruncatedIffTooMuch(
      area: Text, key: Text, names: seq<Text>, items: map<Text, Text>, maxValue: nat, maxTotal: nat, n: nat, r: Listing)
    requires IsResult(area, KeysToRead(key, names), items, maxValue, maxTotal, n, r) && ListingSize(r) <= maxTotal
    ensures var keys := KeysToRead(key, names);
      && (!r.truncated <==> AllFit(keys, items, maxValue) && |Utf8(Serialized(Everything(area, keys, items)))| <= maxTotal)
      && (!r.truncated ==> r == Everything(area, keys, items))
  {
    hide ListingSize, Serialized, KeysToRead, Everything, CutOf;
    var keys := KeysToRead(key, names);
    ListingSizeIsBytes(Everything(area, keys, items));
    FittingCopy(area, keys, items, maxValue);
    assert keys[..|keys|] == keys;
    if n < |keys| && AllFit(keys, items, maxValue) {
      FittingCopy(area, keys[..n + 1], items, maxValue);
      EverythingGrows(area, keys, items, n + 1);
      assert keys[..n + 1][..n] == keys[..n] && keys[..n + 1][n] == keys[n];
      assert CopyOf(area, keys[..n + 1], items, maxValue) == Extended(CopyOf(area, keys[..n], items, maxValue), keys[n], items[keys[n]], maxValue);
    }
  }
}
