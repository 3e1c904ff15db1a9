/**
 The bounded copy of a page's web storage: every value is cut to a byte limit, and the serialized
 result as a whole is cut to another. Both cuts search for their place by bisection.
 */
module WebStorage {
  import opened Unicode

  /** A property of the result object; the keys of one object are distinct. */
  datatype Entry = Entry(key: Text, value: Text)

  datatype Listing = Listing(area: Text, values: seq<Entry>, truncated: bool)

  /** The one name that assignment to a plain object does not turn into a property of its own. */
  const PROTO: Text := [0x5F, 0x5F, 0x70, 0x72, 0x6F, 0x74, 0x6F, 0x5F, 0x5F]

  // ----- The size of the serialized result -----

  /** The bytes JSON.stringify and TextEncoder give the first character: the two quoting characters and
      five controls take two, other controls and unpaired surrogates six. */
  function HeadSize(t: Text): (n: nat)
    requires t != []
    ensures n >= 1
  {
    if StartsWithPair(t) then 4
    else if IsHighSurrogate(t[0]) || IsLowSurrogate(t[0]) then 6
    else if t[0] == 0x22 || t[0] == 0x5C then 2
    else if t[0] in {0x08, 0x09, 0x0A, 0x0C, 0x0D} then 2
    else if t[0] < 0x20 then 6
    else |EncodeScalar(HeadScalar(t))|
  }

  function EscapedSize(t: Text): nat {
    if t == [] then 0 else HeadSize(t) + EscapedSize(t[HeadLength(t)..])
  }

  function QuotedSize(t: Text): nat { 2 + EscapedSize(t) }

  function Digits(n: nat): nat { if n < 10 then 1 else 1 + Digits(n / 10) }

  function MembersSize(values: seq<Entry>): nat {
    if values == [] then 0
    else
      var last := values[|values| - 1];
      MembersSize(values[..|values| - 1]) + QuotedSize(last.key) + 1 + QuotedSize(last.value)
  }

  /** The bytes of {"area":…,"count":…,"values":{…},"truncated":…}. */
  function ListingSize(l: Listing): nat {
    8 + QuotedSize(l.area) + 9 + Digits(|l.values|) + 10
    + 2 + MembersSize(l.values) + (if l.values == [] then 0 else |l.values| - 1)
    + 13 + (if l.truncated then 4 else 5) + 1
  }

  lemma {:induction false} EscapedConcat(a: Text, b: Text)
    requires !SplitsPair(a + b, |a|)
    ensures EscapedSize(a + b) == EscapedSize(a) + EscapedSize(b)
  {
    if a == [] {
      assert a + b == b;
    } else {
      var n := HeadLength(a + b);
      assert HeadLength(a) == n && HeadSize(a) == HeadSize(a + b);
      assert (a + b)[n..] == a[n..] + b;
      EscapedConcat(a[n..], b);
    }
  }

  lemma LastEntrySize(area: Text, values: seq<Entry>, e: Entry, shorter: Text, truncated: bool)
    requires EscapedSize(shorter) <= EscapedSize(e.value)
    ensures ListingSize(Listing(area, values + [Entry(e.key, shorter)], truncated))
         <= ListingSize(Listing(area, values + [e], truncated))
  {
    assert (values + [Entry(e.key, shorter)])[..|values|] == values;
    assert (values + [e])[..|values|] == values;
  }

  // ----- The cut of one value -----

  /** The most code units, k or fewer, whose UTF-8 form fits the limit, found by counting down. */
  ghost function LongestFit(value: Text, limit: nat, k: nat): (n: nat)
    requires k <= |value|
    ensures n <= k && |Utf8(value[..n])| <= limit
    ensures n < k ==> |Utf8(value[..n + 1])| > limit
  {
    if k == 0 || |Utf8(value[..k])| <= limit then k else LongestFit(value, limit, k - 1)
  }

  /** A cut never leaves a high surrogate at the end. */
  function BackOff(value: Text, k: nat): (n: nat)
    requires k <= |value|
    ensures n <= k <= n + 1 && !SplitsPair(value, n)
  {
    if k > 0 && IsHighSurrogate(value[k - 1]) then k - 1 else k
  }

  /** What the limit leaves of a value: all of it, or as many units as fit, less one if the last of
      them is a high surrogate. */
  ghost function CutOf(value: Text, limit: nat): (cut: Text)
    ensures cut <= value
  {
    if |Utf8(value)| <= limit then value
    else value[..BackOff(value, LongestFit(value, limit, |value|))]
  }

  lemma FitIsUnique(value: Text, limit: nat, n: nat)
    requires n < |value| && |Utf8(value[..n])| <= limit < |Utf8(value[..n + 1])|
    ensures n == LongestFit(value, limit, |value|)
  {
    var m := LongestFit(value, limit, |value|);
    if m < n {
      Utf8PrefixMonotone(value, m + 1, n);
    } else if n < m {
      Utf8PrefixMonotone(value, n + 1, m);
    }
  }

  /** The bisection finds the place the countdown finds. */
  method Truncate(value: Text, limit: nat) returns (cut: Text)
    ensures cut == CutOf(value, limit)
  {
    if |Utf8(value)| <= limit {
      return value;
    }
    var low, high := 0, |value|;
    assert value[..0] == [] && value[..|value|] == value;
    while low < high
      invariant 0 <= low <= high <= |value|
      invariant |Utf8(value[..low])| <= limit
      invariant high == |value| || |Utf8(value[..high + 1])| > limit
    {
      var middle := (low + high + 1) / 2;
      if |Utf8(value[..middle])| <= limit {
        low := middle;
      } else {
        high := middle - 1;
      }
    }
    FitIsUnique(value, limit, low);
    return value[..BackOff(value, low)];
  }

  /** The cut keeps the limit, is the whole value exactly when that fits, and separates no pair. */
  lemma CutIsSafe(value: Text, limit: nat)
    ensures var cut := CutOf(value, limit);
      |Utf8(cut)| <= limit && !SplitsPair(value, |cut|) && (|cut| == |value| <==> |Utf8(value)| <= limit)
  {
    if |Utf8(value)| > limit {
      var n := LongestFit(value, limit, |value|);
      assert value[..|value|] == value;
      Utf8PrefixMonotone(value, BackOff(value, n), n);
    }
  }

  lemma {:induction false} HighStartsPair(t: Text, k: nat)
    requires WellFormed(t) && k < |t| && IsHighSurrogate(t[k])
    ensures SplitsPair(t, k + 1)
  {
    if k >= HeadLength(t) {
      HighStartsPair(t[HeadLength(t)..], k - HeadLength(t));
    }
  }

  /** Of a well-formed value the cut is the longest prefix within the limit that separates no pair. */
  lemma CutIsLongest(value: Text, limit: nat, k: nat)
    requires WellFormed(value)
    requires k <= |value| && |Utf8(value[..k])| <= limit && !SplitsPair(value, k)
    ensures k <= |CutOf(value, limit)|
  {
    if |Utf8(value)| > limit {
      var n := LongestFit(value, limit, |value|);
      assert value[..|value|] == value;
      if k > n {
        Utf8PrefixMonotone(value, n + 1, k);
      } else if k == n > 0 && IsHighSurrogate(value[n - 1]) {
        HighStartsPair(value, n - 1);
      }
    }
  }

  // ----- The whole listing -----

  /** Assignment of a string to a new property of a plain object. */
  function Assign(values: seq<Entry>, key: Text, value: Text): seq<Entry> {
    if key == PROTO then values else values + [Entry(key, value)]
  }

  /** The copy with the limit on single values only: one entry per stored key, in order. */
  ghost function CopyOf(area: Text, keys: seq<Text>, items: map<Text, Text>, limit: nat): Listing {
    if keys == [] then Listing(area, [], false)
    else
      var before, key := CopyOf(area, keys[..|keys| - 1], items, limit), keys[|keys| - 1];
      if key in items then Extended(before, key, items[key], limit) else before
  }

  ghost function Extended(before: Listing, key: Text, raw: Text, limit: nat): Listing {
    var cut := CutOf(raw, limit);
    Listing(before.area, Assign(before.values, key, cut), before.truncated || |cut| < |raw|)
  }

  /** The result of the copy: the first n keys as `CopyOf` has them, and, if the total limit stopped it
      there, possibly a safe prefix of the next value. */
  ghost predicate IsResult(
      area: Text, keys: seq<Text>, items: map<Text, Text>, maxValue: nat, maxTotal: nat, n: nat, r: Listing)
  {
    && n <= |keys|
    && var copy := CopyOf(area, keys[..n], items, maxValue);
       if n == |keys| then r == copy
       else
         && keys[n] in items && ListingSize(Extended(copy, keys[n], items[keys[n]], maxValue)) > maxTotal
         && r.area == area && r.truncated
         && (r.values == copy.values || CutInto(r.values, copy.values, Entry(keys[n], items[keys[n]]), |CutOf(items[keys[n]], maxValue)|))
  }

  /** `values` is `before` with one more entry, whose value is the first k units of `e`'s, no pair separated. */
  ghost predicate CutEntry(values: seq<Entry>, before: seq<Entry>, e: Entry, k: nat) {
    k <= |e.value| && !SplitsPair(e.value, k) && values == before + [Entry(e.key, e.value[..k])]
  }

  ghost predicate CutInto(values: seq<Entry>, before: seq<Entry>, e: Entry, most: nat) {
    exists k: nat :: k <= most && CutEntry(values, before, e, k)
  }

  lemma CutEntryOfWhole(values: seq<Entry>, before: seq<Entry>, key: Text, raw: Text, limit: nat, k: nat)
    requires CutEntry(values, before, Entry(key, CutOf(raw, limit)), k)
    ensures k <= |CutOf(raw, limit)| && CutEntry(values, before, Entry(key, raw), k)
  {
    CutIsSafe(raw, limit);
    assert CutOf(raw, limit)[..k] == raw[..k];
  }

  method GetWebStorage(area: Text, key: Text, names: seq<Text>, items: map<Text, Text>, maxValue: nat, maxTotal: nat)
    returns (r: Listing, ghost n: nat)
    ensures ListingSize(Listing(area, [], false)) <= maxTotal ==> ListingSize(r) <= maxTotal
    ensures IsResult(area, KeysToRead(key, names), items, maxValue, maxTotal, n, r)
  {
    hide NearlyLongest;
    hide SafeFit;
    hide ListingSize;
    hide WellFormed;
    hide CutOf;
    var keys := KeysToRead(key, names);
    r := Listing(area, [], false);
    n := 0;
    for i := 0 to |keys|
      invariant n == i
      invariant r == CopyOf(area, keys[..i], items, maxValue) && r.area == area
      invariant ListingSize(Listing(area, [], false)) <= maxTotal ==> ListingSize(r) <= maxTotal
    {
      assert keys[..i + 1][..i] == keys[..i];
      if keys[i] in items {
        var raw := items[keys[i]];
        var value := Truncate(raw, maxValue);
        var next := Listing(area, Assign(r.values, keys[i], value), r.truncated || |value| < |raw|);
        if ListingSize(next) > maxTotal {
          ghost var before := r.values;
          r := CutLast(r, keys[i], value, maxTotal);
          if r.values != before {
            ghost var k: nat :| CutEntry(r.values, before, Entry(keys[i], value), k);
            CutEntryOfWhole(r.values, before, keys[i], raw, maxValue, k);
          }
          return;
        }
        r := next;
      }
      n := n + 1;
    }
    assert keys[..|keys|] == keys;
  }

  /** The total limit is exceeded: look for a prefix of the last value that fits, or drop the key. */
  method CutLast(before: Listing, key: Text, value: Text, maxTotal: nat) returns (r: Listing)
    ensures r.area == before.area && r.truncated
    ensures ListingSize(before) <= maxTotal ==> ListingSize(r) <= maxTotal
    ensures r.values == before.values || exists k: nat :: CutEntry(r.values, before.values, Entry(key, value), k)
    ensures WellFormed(value) && key != PROTO ==>
      if r.values == before.values then forall k :: !SafeFit(before, key, value, maxTotal, k)
      else exists c: nat :: CutEntry(r.values, before.values, Entry(key, value), c) && NearlyLongest(before, key, value, maxTotal, c)
  {
    hide NearlyLongest;
    hide SafeFit;
    hide EscapedSize;
    hide ListingSize;
    hide WellFormed;
    var low, high := 0, |value|;
    while low < high
      invariant 0 <= low <= high <= |value|
      invariant low == 0 || SizeWith(before, key, value[..low]) <= maxTotal
      invariant high == |value| || SizeWith(before, key, value[..high + 1]) > maxTotal
    {
      var middle := (low + high + 1) / 2;
      if SizeWith(before, key, value[..middle]) <= maxTotal {
        low := middle;
      } else {
        high := middle - 1;
      }
    }
    var end := BackOff(value, low);
    BackedOffFits(before, key, value, maxTotal, low);
    if WellFormed(value) && key != PROTO {
      BisectionNearlyLongest(before, key, value, maxTotal, low);
      if SizeWith(before, key, value[..0]) > maxTotal {
        NothingFits(before, key, value, maxTotal);
      }
    }
    r := Listing(before.area, Assign(before.values, key, value[..end]), true);
    if end == 0 && ListingSize(r) > maxTotal {
      TruncatedIsShorter(before);
      return before.(truncated := true);
    }
    assert key != PROTO ==> CutEntry(r.values, before.values, Entry(key, value), end);
  }

  lemma TruncatedIsShorter(before: Listing)
    ensures ListingSize(before.(truncated := true)) <= ListingSize(before)
  {
  }

  lemma BackedOffFits(before: Listing, key: Text, value: Text, maxTotal: nat, low: nat)
    requires low <= |value| && (low == 0 || SizeWith(before, key, value[..low]) <= maxTotal)
    ensures BackOff(value, low) > 0 ==> SizeWith(before, key, value[..BackOff(value, low)]) <= maxTotal
    ensures BackOff(value, low) == 0 < low ==> SizeWith(before, key, value[..0]) <= maxTotal
  {
    var end := BackOff(value, low);
    if end < low {
      assert value[..low] == value[..end] + [value[end]];
      EscapedConcat(value[..end], [value[end]]);
      LastEntrySize(before.area, before.values, Entry(key, value[..low]), value[..end], true);
    }
  }

  lemma NothingFits(before: Listing, key: Text, value: Text, maxTotal: nat)
    requires key != PROTO && SizeWith(before, key, value[..0]) > maxTotal
    ensures forall k :: !SafeFit(before, key, value, maxTotal, k)
  {
    forall k | 0 <= k <= |value|
      ensures SizeWith(before, key, value[..k]) > maxTotal
    {
      SizeWithIs(before, key, value[..k]);
      assert value[..0] == [];
    }
  }

  /** A prefix that separates no pair and fits the total limit. */
  ghost predicate SafeFit(before: Listing, key: Text, value: Text, maxTotal: nat, k: int) {
    0 <= k <= |value| && !SplitsPair(value, k) && SizeWith(before, key, value[..k]) <= maxTotal
  }

  /** No prefix that fits is longer, unless a pair comes next: then by that pair and at most one unit. */
  ghost predicate NearlyLongest(before: Listing, key: Text, value: Text, maxTotal: nat, c: nat) {
    forall k :: SafeFit(before, key, value, maxTotal, k) && k > c ==> c + 2 <= k <= c + 3 && SplitsPair(value, c + 1)
  }

  lemma {:induction false} EscapedAtLeastOneEach(t: Text)
    ensures EscapedSize(t) >= |t|
  {
    if t != [] {
      EscapedAtLeastOneEach(t[HeadLength(t)..]);
    }
  }

  /** Between two places that separate no pair, every unit counts. */
  lemma EscapedPrefixGrows(t: Text, i: nat, j: nat)
    requires i <= j <= |t| && !SplitsPair(t, i)
    ensures EscapedSize(t[..j]) >= EscapedSize(t[..i]) + (j - i)
  {
    assert t[..j] == t[..i] + t[i..j];
    EscapedConcat(t[..i], t[i..j]);
    EscapedAtLeastOneEach(t[i..j]);
  }

  lemma SizeWithIs(before: Listing, key: Text, value: Text)
    requires key != PROTO
    ensures SizeWith(before, key, value) == SizeWith(before, key, []) + EscapedSize(value)
  {
    assert (before.values + [Entry(key, value)])[..|before.values|] == before.values;
    assert (before.values + [Entry(key, [])])[..|before.values|] == before.values;
  }

  /** A pair takes four bytes, its high half alone six. */
  lemma PairSize(t: Text, k: nat)
    requires SplitsPair(t, k + 1) && !SplitsPair(t, k)
    ensures EscapedSize(t[..k + 1]) == EscapedSize(t[..k]) + 6
    ensures EscapedSize(t[..k + 2]) == EscapedSize(t[..k]) + 4
    ensures !SplitsPair(t, k + 2)
  {
    assert t[..k + 1] == t[..k] + [t[k]];
    assert t[..k + 2] == t[..k] + [t[k], t[k + 1]];
    EscapedConcat(t[..k], [t[k]]);
    EscapedConcat(t[..k], [t[k], t[k + 1]]);
    assert [t[k]][1..] == [] && [t[k], t[k + 1]][2..] == [];
    assert EscapedSize([t[k]]) == 6 + EscapedSize([]);
    assert EscapedSize([t[k], t[k + 1]]) == 4 + EscapedSize([]);
  }

  lemma NoPairAcross(value: Text, low: nat)
    requires low <= |value| && WellFormed(value)
    ensures BackOff(value, low) < low ==> SplitsPair(value, low)
  {
    if low > 0 && IsHighSurrogate(value[low - 1]) {
      HighStartsPair(value, low - 1);
    }
  }

  /** Where the bisection ends: the next place does not fit, or there is none. */
  lemma BisectionNearlyLongest(before: Listing, key: Text, value: Text, maxTotal: nat, low: nat)
    requires WellFormed(value) && key != PROTO && low <= |value|
    requires low == |value| || SizeWith(before, key, value[..low + 1]) > maxTotal
    ensures NearlyLongest(before, key, value, maxTotal, BackOff(value, low))
  {
    hide SizeWith;
    hide SafeFit;
    hide WellFormed;
    var c := BackOff(value, low);
    NoPairAcross(value, low);
    forall k | SafeFit(before, key, value, maxTotal, k) && k > c
      ensures c + 2 <= k <= c + 3 && SplitsPair(value, c + 1)
    {
      SafePlace(before, key, value, maxTotal, k);
      if low < |value| && !SplitsPair(value, low + 1) {
        BeyondSafe(before, key, value, maxTotal, low, k);
      } else if low < |value| {
        BeyondPair(before, key, value, maxTotal, low, k);
      }
    }
  }

  lemma SafePlace(before: Listing, key: Text, value: Text, maxTotal: nat, k: int)
    requires SafeFit(before, key, value, maxTotal, k)
    ensures 0 <= k <= |value| && !SplitsPair(value, k)
  {
  }

  lemma BeyondSafe(before: Listing, key: Text, value: Text, maxTotal: nat, low: nat, k: int)
    requires key != PROTO && low < |value| && !SplitsPair(value, low + 1)
    requires SizeWith(before, key, value[..low + 1]) > maxTotal && SafeFit(before, key, value, maxTotal, k)
    ensures k <= low
  {
    hide SizeWith;
    SizeWithIs(before, key, value[..k]);
    SizeWithIs(before, key, value[..low + 1]);
    if k >= low + 1 {
      EscapedPrefixGrows(value, low + 1, k);
    }
  }

  lemma BeyondPair(before: Listing, key: Text, value: Text, maxTotal: nat, low: nat, k: int)
    requires key != PROTO && low < |value| && SplitsPair(value, low + 1)
    requires SizeWith(before, key, value[..low + 1]) > maxTotal && SafeFit(before, key, value, maxTotal, k)
    ensures k <= low + 3
  {
    hide SizeWith;
    SizeWithIs(before, key, value[..k]);
    SizeWithIs(before, key, value[..low + 1]);
    PairSize(value, low);
    if k >= low + 2 {
      EscapedPrefixGrows(value, low + 2, k);
    }
  }

  function SizeWith(before: Listing, key: Text, value: Text): nat {
    ListingSize(Listing(before.area, Assign(before.values, key, value), true))
  }

  /** The keys the copy visits: the one asked for, or all names but the empty one. */
  function KeysToRead(key: Text, names: seq<Text>): seq<Text> {
    if key != [] then [key] else NonEmpty(names)
  }

  function NonEmpty(names: seq<Text>): (r: seq<Text>)
    ensures forall name :: name in r <==> name in names && name != []
  {
    if names == [] then []
    else if names[0] == [] then NonEmpty(names[1..])
    else [names[0]] + NonEmpty(names[1..])
  }

  lemma {:induction false} CopyContents(area: Text, keys: seq<Text>, items: map<Text, Text>, limit: nat, key: Text)
    requires key in keys && key in items && key != PROTO
    ensures Entry(key, CutOf(items[key], limit)) in CopyOf(area, keys, items, limit).values
    ensures !CopyOf(area, keys, items, limit).truncated ==> CutOf(items[key], limit) == items[key]
  {
    var front := keys[..|keys| - 1];
    if keys[|keys| - 1] != key {
      assert key in front by {
        var i :| 0 <= i < |keys| && keys[i] == key;
        assert front[i] == key;
      }
      CopyContents(area, front, items, limit, key);
    }
  }

  lemma {:induction false} CopyLacksProto(area: Text, keys: seq<Text>, items: map<Text, Text>, limit: nat, e: Entry)
    requires e in CopyOf(area, keys, items, limit).values
    ensures e.key in keys && e.key in items && e.key != PROTO && e.value == CutOf(items[e.key], limit)
  {
    var front, last := keys[..|keys| - 1], keys[|keys| - 1];
    if e in CopyOf(area, front, items, limit).values {
      CopyLacksProto(area, front, items, limit, e);
    }
  }

  /** The names a request is about: the one asked for, or all. */
  ghost predicate Asked(key: Text, names: seq<Text>, name: Text) { if key != [] then name == key else name in names }

  /** When the result does not say "truncated", every stored value that was asked for is there in full,
      except under two names: __proto__ and the empty one are never there. */
  lemma UntruncatedIsComplete(
      area: Text, key: Text, names: seq<Text>, items: map<Text, Text>, maxValue: nat, maxTotal: nat, n: nat, r: Listing, name: Text)
    requires IsResult(area, KeysToRead(key, names), items, maxValue, maxTotal, n, r) && !r.truncated
    requires name in items && Asked(key, names, name)
    ensures Entry(name, items[name]) in r.values <==> name != PROTO && name != []
  {
    var keys := KeysToRead(key, names);
    assert keys[..|keys|] == keys;
    if name != PROTO && name != [] {
      CopyContents(area, keys, items, maxValue, name);
    } else if Entry(name, items[name]) in r.values {
      CopyLacksProto(area, keys, items, maxValue, Entry(name, items[name]));
    }
  }

  /** An item called __proto__ is dropped without a word. */
  lemma ProtoIsDroppedSilently(area: Text, n: nat, r: Listing)
    requires ListingSize(Listing(area, [], false)) <= 4194304
    requires IsResult(area, KeysToRead([], [PROTO]), map[PROTO := [0x78]], 65536, 4194304, n, r)
    ensures r == Listing(area, [], false)
  {
    var keys, items: map<Text, Text> := [PROTO], map[PROTO := [0x78]];
    var names: seq<Text> := [PROTO];
    assert NonEmpty(names) == [names[0]] + NonEmpty(names[1..]) == keys;
    assert keys[..0] == [] && keys[..1] == keys;
    assert |Utf8([0x78])| == 1 by { assert Utf8([0x78]) == EncodeScalar(0x78) + Utf8([0x78][1..]); }
    assert CopyOf(area, keys, items, 65536) == Listing(area, [], false);
    assert Extended(CopyOf(area, keys[..0], items, 65536), PROTO, items[PROTO], 65536) == Listing(area, [], false);
  }

  /** So is an item stored under the empty name. */
  lemma EmptyNameIsDroppedSilently(area: Text, n: nat, r: Listing)
    requires IsResult(area, KeysToRead([], [[]]), map[[] := [0x78]], 65536, 4194304, n, r)
    ensures r == Listing(area, [], false)
  {
    var names: seq<Text> := [[]];
    assert NonEmpty(names) == NonEmpty(names[1..]) == [];
  }
}
