/**
 Samples of a status board item: how a number falls into one of the item's intervals, and how the bars
 of the numeric samples get their heights. Numbers are real numbers.
 */
module Samples {
  import opened Strings
  import opened Wrappers

  datatype State = Success | Failure | Unknown

  datatype Sample = Sample(startedAt: int, state: State, numeric: Option<real>, height: real)

  // ----- Intervals -----

  datatype Threshold = Threshold(maximum: Option<real>, level: string, caption: string, color: string)

  datatype ThresholdError = BadLevel | BlankCaption | BadColor | UnboundedBeforeLast | BoundedLast | NotIncreasing

  predicate ValidLevel(level: string) { level == "success" || level == "warning" || level == "failure" }

  predicate ValidColor(color: string) {
    color in ["green", "lime", "yellow", "amber", "orange", "red"]
  }

  function DefaultColor(level: string): string {
    if level == "warning" then "amber" else if level == "failure" then "red" else "green"
  }

  ghost predicate WellFormed(t: Threshold) {
    ValidLevel(t.level) && !Blank(t.caption) && (t.color == "" || ValidColor(t.color))
  }

  /** Upper bounds on all intervals but the last, each greater than the one before. */
  ghost predicate Intervals(values: seq<Threshold>) {
    && (forall i :: 0 <= i < |values| ==> (values[i].maximum.None? <==> i == |values| - 1))
    && (forall i, j :: 0 <= i < j < |values| - 1 ==> values[i].maximum.value < values[j].maximum.value)
  }

  /** The first n values are as they should be, as far as that can be said without the others. */
  ghost predicate IntervalsUpTo(values: seq<Threshold>, n: nat)
    requires n <= |values|
  {
    && (forall i :: 0 <= i < n ==> (values[i].maximum.None? <==> i == |values| - 1))
    && (forall i, j :: 0 <= i < j < n && j < |values| - 1 ==> values[i].maximum.value < values[j].maximum.value)
  }

  lemma OneMoreInterval(values: seq<Threshold>, n: nat)
    requires n < |values| - 1 && IntervalsUpTo(values, n) && values[n].maximum.Some?
    requires n > 0 ==> values[n - 1].maximum.value < values[n].maximum.value
    ensures IntervalsUpTo(values, n + 1)
  {
    forall i | 0 <= i < n
      ensures values[i].maximum.value < values[n].maximum.value
    {
      assert i == n - 1 || values[i].maximum.value < values[n - 1].maximum.value;
    }
  }

  ghost predicate Acceptable(values: seq<Threshold>) {
    Intervals(values) && forall i :: 0 <= i < |values| ==> WellFormed(values[i])
  }

  function Colored(t: Threshold): Threshold {
    if t.color == "" then t.(color := DefaultColor(t.level)) else t
  }

  /** Validation fills in missing colours as it goes, and accepts exactly the acceptable intervals. */
  method ValidateThresholds(values: array<Threshold>) returns (error: Option<ThresholdError>)
    modifies values
    ensures error.None? <==> Acceptable(old(values[..]))
    ensures error.None? ==> forall i :: 0 <= i < values.Length ==> values[i] == Colored(old(values[i]))
    ensures forall i :: 0 <= i < values.Length ==> values[i] == old(values[i]) || values[i] == Colored(old(values[i]))
  {
    hide Blank;
    hide ValidLevel;
    hide ValidColor;
    hide DefaultColor;
    var previous: Option<real> := None;
    ghost var was := values[..];
    for index := 0 to values.Length
      invariant forall i :: 0 <= i < index ==> values[i] == Colored(was[i]) && WellFormed(was[i])
      invariant forall i :: index <= i < values.Length ==> values[i] == was[i]
      invariant IntervalsUpTo(was, index)
      invariant index < values.Length ==> previous == (if index == 0 then None else was[index - 1].maximum)
    {
      var value := values[index];
      assert value == was[index];
      if !ValidLevel(value.level) {
        return Some(BadLevel);
      }
      if Blank(value.caption) {
        return Some(BlankCaption);
      }
      if value.color == "" {
        values[index] := value.(color := DefaultColor(value.level));
      } else if !ValidColor(value.color) {
        return Some(BadColor);
      }
      if value.maximum.None? {
        if index != values.Length - 1 {
          return Some(UnboundedBeforeLast);
        }
        continue;
      }
      if index == values.Length - 1 {
        return Some(BoundedLast);
      }
      if previous.Some? && value.maximum.value <= previous.value {
        assert was[index - 1].maximum.value >= was[index].maximum.value;
        return Some(NotIncreasing);
      }
      OneMoreInterval(was, index);
      previous := value.maximum;
    }
    return None;
  }

  /** The first interval whose upper bound is not below the number. */
  method MatchThreshold(thresholds: seq<Threshold>, value: real) returns (index: Option<nat>)
    ensures index == Matched(thresholds, value)
  {
    for i := 0 to |thresholds|
      invariant forall k :: 0 <= k < i ==> !Reaches(thresholds[k], value)
      invariant Matched(thresholds, value) == Offset(i, Matched(thresholds[i..], value))
    {
      if thresholds[i].maximum.None? || value <= thresholds[i].maximum.value {
        return Some(i);
      }
      assert thresholds[i..][1..] == thresholds[i + 1..];
    }
    return None;
  }

  predicate Reaches(t: Threshold, value: real) { t.maximum.None? || value <= t.maximum.value }

  function Offset(i: nat, index: Option<nat>): Option<nat> {
    if index.None? then None else Some(i + index.value)
  }

  function Matched(thresholds: seq<Threshold>, value: real): Option<nat> {
    if thresholds == [] then None
    else if Reaches(thresholds[0], value) then Some(0)
    else Offset(1, Matched(thresholds[1..], value))
  }

  /** The number lies in interval k: above the bound of the interval before, not above its own. */
  ghost predicate Within(thresholds: seq<Threshold>, k: nat, value: real)
    requires k < |thresholds|
  {
    && Reaches(thresholds[k], value)
    && (k > 0 ==> !Reaches(thresholds[k - 1], value))
  }

  lemma {:induction false} MatchedIsFirst(thresholds: seq<Threshold>, value: real)
    ensures match Matched(thresholds, value)
            case None => forall i :: 0 <= i < |thresholds| ==> !Reaches(thresholds[i], value)
            case Some(k) =>
              k < |thresholds| && Reaches(thresholds[k], value)
              && forall i :: 0 <= i < k ==> !Reaches(thresholds[i], value)
  {
    if thresholds != [] && !Reaches(thresholds[0], value) {
      MatchedIsFirst(thresholds[1..], value);
      assert forall i :: 1 <= i < |thresholds| ==> thresholds[i] == thresholds[1..][i - 1];
    }
  }

  /** Accepted intervals partition the numbers: every number lies in exactly one, the one that matches. */
  lemma ThresholdsPartition(thresholds: seq<Threshold>, value: real, k: nat)
    requires Intervals(thresholds) && k < |thresholds|
    ensures Matched(thresholds, value).Some?
    ensures Matched(thresholds, value) == Some(k) <==> Within(thresholds, k, value)
  {
    MatchedIsFirst(thresholds, value);
    assert Reaches(thresholds[|thresholds| - 1], value);
    var m := Matched(thresholds, value).value;
    if m < k {
      assert m == k - 1 || thresholds[m].maximum.value < thresholds[k - 1].maximum.value;
      assert Reaches(thresholds[k - 1], value);
    }
  }

  // ----- Heights -----

  ghost predicate IsLeast(samples: seq<Sample>, minimum: real) {
    && (exists i :: 0 <= i < |samples| && samples[i].numeric == Some(minimum))
    && (forall i :: 0 <= i < |samples| && samples[i].numeric.Some? ==> minimum <= samples[i].numeric.value)
  }

  ghost predicate IsGreatest(samples: seq<Sample>, maximum: real) {
    && (exists i :: 0 <= i < |samples| && samples[i].numeric == Some(maximum))
    && (forall i :: 0 <= i < |samples| && samples[i].numeric.Some? ==> samples[i].numeric.value <= maximum)
  }

  /** The two differ in the heights of numeric samples at most. */
  ghost predicate SameButHeight(before: seq<Sample>, after: seq<Sample>) {
    && |after| == |before|
    && forall i :: 0 <= i < |before| ==>
         after[i] == before[i].(height := after[i].height) && (before[i].numeric.None? ==> after[i] == before[i])
  }

  function HeightOf(x: real, minimum: real, maximum: real): real
    requires minimum <= maximum
  {
    if minimum == maximum then 100.0 else 10.0 + (x - minimum) / (maximum - minimum) * 90.0
  }

  /** The heights of the numeric samples span the range of their numbers. */
  ghost predicate Scaled(before: seq<Sample>, after: seq<Sample>) {
    && SameButHeight(before, after)
    && forall minimum, maximum, i ::
         minimum <= maximum && IsLeast(before, minimum) && IsGreatest(before, maximum)
         && 0 <= i < |before| && before[i].numeric.Some? ==>
           after[i].height == HeightOf(before[i].numeric.value, minimum, maximum)
  }

  /** The loop over the numbers; None if there are none. */
  method Range(samples: seq<Sample>) returns (range: Option<(real, real)>)
    ensures range.None? <==> forall k :: 0 <= k < |samples| ==> samples[k].numeric.None?
    ensures range.Some? ==> IsLeast(samples, range.value.0) && IsGreatest(samples, range.value.1)
  {
    hide IsLeast;
    hide IsGreatest;
    var minimum, maximum: Option<real> := None, None;
    for i := 0 to |samples|
      invariant minimum.None? <==> maximum.None?
      invariant minimum.None? <==> forall k :: 0 <= k < i ==> samples[k].numeric.None?
      invariant minimum.Some? ==> IsLeast(samples[..i], minimum.value) && IsGreatest(samples[..i], maximum.value)
    {
      if samples[i].numeric.None? {
        SkipSample(samples, i, minimum, maximum);
        continue;
      }
      var x := samples[i].numeric.value;
      ghost var least, greatest := minimum, maximum;
      minimum := Some(if minimum.None? || x < minimum.value then x else minimum.value);
      maximum := Some(if maximum.None? || x > maximum.value then x else maximum.value);
      Extremes(samples, i, x, least, greatest, minimum.value, maximum.value);
    }
    assert samples[..|samples|] == samples;
    return if minimum.None? then None else Some((minimum.value, maximum.value));
  }

  lemma SkipSample(samples: seq<Sample>, i: nat, minimum: Option<real>, maximum: Option<real>)
    requires i < |samples| && samples[i].numeric.None? && (minimum.None? <==> maximum.None?)
    requires minimum.Some? ==> IsLeast(samples[..i], minimum.value) && IsGreatest(samples[..i], maximum.value)
    ensures minimum.Some? ==> IsLeast(samples[..i + 1], minimum.value) && IsGreatest(samples[..i + 1], maximum.value)
  {
    assert forall k :: 0 <= k < i ==> samples[..i + 1][k] == samples[..i][k];
    if minimum.Some? {
      var j :| 0 <= j < i && samples[..i][j].numeric == minimum;
      assert samples[..i + 1][j].numeric == minimum;
      var k :| 0 <= k < i && samples[..i][k].numeric == maximum;
      assert samples[..i + 1][k].numeric == maximum;
    }
  }

  method ScaleNumericSamples(samples: array<Sample>)
    modifies samples
    ensures Scaled(old(samples[..]), samples[..])
  {
    ghost var was := samples[..];
    var range := Range(samples[..]);
    if range.None? {
      return;
    }
    var minimum, maximum := range.value.0, range.value.1;
    for i := 0 to samples.Length
      invariant forall k :: i <= k < samples.Length ==> samples[k] == was[k]
      invariant forall k :: 0 <= k < i ==>
        samples[k] == (if was[k].numeric.None? then was[k]
                       else was[k].(height := HeightOf(was[k].numeric.value, minimum, maximum)))
    {
      if samples[i].numeric.None? {
        continue;
      }
      if minimum == maximum {
        samples[i] := samples[i].(height := 100.0);
        continue;
      }
      samples[i] := samples[i].(height := 10.0 + (samples[i].numeric.value - minimum) / (maximum - minimum) * 90.0);
    }
    forall low, high | IsLeast(was, low) && IsGreatest(was, high)
      ensures low == minimum && high == maximum
    {}
  }

  /** One more number moves the extremes. */
  lemma Extremes(samples: seq<Sample>, i: nat, x: real, least: Option<real>, greatest: Option<real>, minimum: real, maximum: real)
    requires i < |samples| && samples[i].numeric == Some(x)
    requires least.None? <==> greatest.None?
    requires least.None? ==> forall k :: 0 <= k < i ==> samples[k].numeric.None?
    requires least.Some? ==> IsLeast(samples[..i], least.value) && IsGreatest(samples[..i], greatest.value)
    requires minimum == if least.None? || x < least.value then x else least.value
    requires maximum == if greatest.None? || x > greatest.value then x else greatest.value
    ensures IsLeast(samples[..i + 1], minimum) && IsGreatest(samples[..i + 1], maximum)
  {
    assert samples[..i + 1][i].numeric == Some(x);
    if least.Some? {
      var j :| 0 <= j < i && samples[..i][j].numeric == least;
      assert samples[..i + 1][j].numeric == least;
      var k :| 0 <= k < i && samples[..i][k].numeric == greatest;
      assert samples[..i + 1][k].numeric == greatest;
    }
  }

  lemma Ratio(a: real, b: real)
    requires 0.0 <= a <= b && b > 0.0
    ensures 0.0 <= a / b <= 1.0
  {
    var q := a / b;
    assert q * b == a;
  }

  lemma PositiveFactor(b: real, d: real)
    requires b > 0.0 && d * b > 0.0
    ensures d > 0.0
  {
  }

  lemma RatioGrows(a: real, c: real, b: real)
    requires a < c && b > 0.0
    ensures a / b < c / b
  {
    var p, q := a / b, c / b;
    assert (q - p) * b == c - a;
    PositiveFactor(b, q - p);
  }

  lemma HeightBounds(x: real, minimum: real, maximum: real)
    requires minimum <= x <= maximum
    ensures 10.0 <= HeightOf(x, minimum, maximum) <= 100.0
  {
    if minimum < maximum {
      Ratio(x - minimum, maximum - minimum);
    }
  }

  lemma HeightExtremes(minimum: real, maximum: real)
    requires minimum <= maximum
    ensures HeightOf(maximum, minimum, maximum) == 100.0
    ensures minimum < maximum ==> HeightOf(minimum, minimum, maximum) == 10.0
  {
    if minimum < maximum {
      assert (maximum - minimum) / (maximum - minimum) == 1.0;
    }
  }

  lemma HigherIsGreater(x: real, y: real, minimum: real, maximum: real)
    requires minimum <= x < y <= maximum
    ensures HeightOf(x, minimum, maximum) < HeightOf(y, minimum, maximum)
  {
    RatioGrows(x - minimum, y - minimum, maximum - minimum);
  }

  /** Bars stay between 10 and 100, the greatest number fills the bar, the least one has height 10 if it
      is less, and the greater of two numbers always has the higher bar. */
  lemma HeightsKeepOrder(before: seq<Sample>, after: seq<Sample>, minimum: real, maximum: real, i: nat, j: nat)
    requires Scaled(before, after) && IsLeast(before, minimum) && IsGreatest(before, maximum)
    requires i < |before| && before[i].numeric.Some? && j < |before| && before[j].numeric.Some?
    ensures 10.0 <= after[i].height <= 100.0
    ensures before[i].numeric.value == maximum ==> after[i].height == 100.0
    ensures before[i].numeric.value == minimum < maximum ==> after[i].height == 10.0
    ensures before[i].numeric.value < before[j].numeric.value <==> after[i].height < after[j].height
  {
    hide HeightOf;
    var x, y := before[i].numeric.value, before[j].numeric.value;
    HeightIs(before, after, minimum, maximum, i);
    HeightIs(before, after, minimum, maximum, j);
    HeightBounds(x, minimum, maximum);
    HeightExtremes(minimum, maximum);
    if x < y {
      HigherIsGreater(x, y, minimum, maximum);
    } else if y < x {
      HigherIsGreater(y, x, minimum, maximum);
    }
  }

  lemma HeightIs(before: seq<Sample>, after: seq<Sample>, minimum: real, maximum: real, i: nat)
    requires Scaled(before, after) && IsLeast(before, minimum) && IsGreatest(before, maximum)
    requires i < |before| && before[i].numeric.Some?
    ensures minimum <= before[i].numeric.value <= maximum && |after| == |before|
    ensures after[i].height == HeightOf(before[i].numeric.value, minimum, maximum)
  {
    hide HeightOf;
  }
}
