/**
 What a sample says about its record, and what the verdict of a trend rule means: when there is one, which samples it is about, and how the number that
 was measured decides it; and how verdicts move when the samples do.
 */
module TrendVerdicts {
  import opened Wrappers
  import opened Samples
  import opened Trends
  import Slope

  // ----- Samples -----

  ghost predicate Says(sample: Sample, record: Record, level: string) {
    sample.startedAt == record.startedAt && sample.state == if level == "success" then Success else Failure
  }

  /** A number has the level of the first value it is mapped from, and if there is none, that of the interval
      in which it lies. */
  lemma NumberSays(source: Source, record: Record, x: real)
    requires source.NumberSource? && Intervals(source.thresholds) && source.thresholds != []
    requires record.value == Some(Number(x))
    ensures var sample := BuildSample(source, record);
      && sample.numeric == Some(x)
      && (forall i :: 0 <= i < |source.mappings| && FirstMapped(source.mappings, i, x) ==> Says(sample, record, source.mappings[i].level))
      && (forall k :: 0 <= k < |source.thresholds| && Within(source.thresholds, k, x) && Unmapped(source.mappings, x) ==>
            Says(sample, record, source.thresholds[k].level))
  {
    MappedIsFirst(source.mappings, x);
    forall k | 0 <= k < |source.thresholds| && Within(source.thresholds, k, x)
      ensures Matched(source.thresholds, x) == Some(k)
    {
      ThresholdsPartition(source.thresholds, x, k);
    }
  }

  ghost predicate Unmapped(mappings: seq<Mapping>, x: real) {
    forall i :: 0 <= i < |mappings| ==> mappings[i].value != x
  }

  ghost predicate FirstMapped(mappings: seq<Mapping>, i: nat, x: real)
    requires i < |mappings|
  {
    mappings[i].value == x && forall j :: 0 <= j < i ==> mappings[j].value != x
  }

  lemma {:induction false} MappedIsFirst(mappings: seq<Mapping>, x: real)
    ensures MappedLevel(mappings, x).None? <==> Unmapped(mappings, x)
    ensures forall i :: 0 <= i < |mappings| && FirstMapped(mappings, i, x) ==> MappedLevel(mappings, x) == Some(mappings[i].level)
  {
    if mappings != [] {
      var rest := mappings[1..];
      MappedIsFirst(rest, x);
      assert forall i :: 1 <= i < |mappings| ==> mappings[i] == rest[i - 1];
      forall i | 0 <= i < |mappings| && FirstMapped(mappings, i, x)
        ensures MappedLevel(mappings, x) == Some(mappings[i].level)
      {
        if i > 0 {
          assert mappings[0].value != x;
          assert FirstMapped(rest, i - 1, x);
        }
      }
    }
  }

  /** True is success and false is failure, and the other way round for an inverted item. */
  lemma BooleanSays(record: Record)
    requires record.value.Some? && record.value.value.Boolean?
    ensures var b := record.value.value.b;
      && Says(BuildSample(BooleanSource(false), record), record, if b then "success" else "failure")
      && Says(BuildSample(BooleanSource(true), record), record, if b then "failure" else "success")
  {
  }

  // ----- Verdicts -----

  predicate IsNumeric(rule: Rule) { rule.kind == Average || rule.kind == Delta || rule.kind == Kind.Slope }

  /** The first of the samples that the rule is about. */
  function Start(rule: Rule, samples: seq<Sample>): int { |samples| - rule.window }

  ghost predicate WindowKnown(rule: Rule, samples: seq<Sample>) {
    forall i :: 0 <= Start(rule, samples) <= i < |samples| ==> samples[i].state != Unknown
  }

  ghost predicate WindowNumeric(rule: Rule, samples: seq<Sample>) {
    forall i :: 0 <= Start(rule, samples) <= i < |samples| ==> samples[i].numeric.Some?
  }

  ghost predicate Baseless(rule: Rule, samples: seq<Sample>)
    requires 0 <= Start(rule, samples) < |samples|
  {
    rule.kind == Delta && rule.deltaMode == "percent" && samples[Start(rule, samples)].numeric == Some(0.0)
  }

  /** There is a verdict exactly if there are enough samples and all of them are known and, for a rule about
      numbers, numeric, and a change in percent does not start at zero. */
  lemma DeterminedIff(rule: Rule, samples: seq<Sample>)
    ensures Verdict(rule, samples).Determined? <==>
      && 1 <= rule.window <= |samples| && WindowKnown(rule, samples) && rule.kind != Unsupported
      && (IsNumeric(rule) ==> WindowNumeric(rule, samples) && !Baseless(rule, samples))
  {
    if 1 <= rule.window <= |samples| {
      var start := Start(rule, samples);
      var window := samples[start..];
      forall i | start <= i < |samples|
        ensures samples[i] == window[i - start]
      {}
      assert AllKnown(window) <==> WindowKnown(rule, samples);
      assert AllNumeric(window) <==> WindowNumeric(rule, samples);
    }
  }

  /** A rule about numbers holds exactly if the number measured compares with the threshold as its operator
      says, and with no other operator. */
  lemma ComparisonDecides(rule: Rule, samples: seq<Sample>)
    requires IsNumeric(rule) && Verdict(rule, samples).Determined?
    ensures var v := Verdict(rule, samples);
      v.holds <==>
        || (rule.operator == "gt" && v.measured > rule.threshold)
        || (rule.operator == "gte" && v.measured >= rule.threshold)
        || (rule.operator == "lt" && v.measured < rule.threshold)
        || (rule.operator == "lte" && v.measured <= rule.threshold)
  {
  }

  /** The numbers of the last samples, in order. */
  ghost predicate LastNumbers(rule: Rule, samples: seq<Sample>, values: seq<real>)
    requires 1 <= rule.window <= |samples|
  {
    && |values| == rule.window
    && forall i :: 0 <= i < |values| ==> samples[Start(rule, samples) + i].numeric == Some(values[i])
  }

  /** What is measured on them: the average, or the difference of the last and the first, also in percent of
      the first. */
  lemma NumberMeasured(rule: Rule, samples: seq<Sample>, values: seq<real>)
    requires IsNumeric(rule) && Verdict(rule, samples).Determined? && 1 <= rule.window <= |samples|
    requires LastNumbers(rule, samples, values)
    ensures var measured, first, last := Verdict(rule, samples).measured, values[0], values[|values| - 1];
      && (rule.kind == Average ==> measured * |values| as real == Sum(values))
      && (rule.kind == Delta && rule.deltaMode != "percent" ==> measured == last - first)
      && (rule.kind == Delta && rule.deltaMode == "percent" ==> measured * Abs(first) == (last - first) * 100.0)
      && (rule.kind == Kind.Slope ==> measured == Slope.SlopeOf(Slope.SumsOf(values)))
  {
    hide Sum, Slope.SumsOf, Slope.SlopeOf, Verdict, Start, LastNumbers;
    VerdictOnNumbers(rule, samples, values);
    var first, last := values[0], values[|values| - 1];
    match rule.kind
    case Average => Averaged(Sum(values), |values| as real);
    case Delta =>
      if rule.deltaMode == "percent" {
        Percent(last - first, Abs(first));
      }
    case _ =>
  }

  lemma VerdictOnNumbers(rule: Rule, samples: seq<Sample>, values: seq<real>)
    requires IsNumeric(rule) && Verdict(rule, samples).Determined? && 1 <= rule.window <= |samples|
    requires LastNumbers(rule, samples, values)
    ensures values != [] && Verdict(rule, samples) == OnNumbers(rule, values)
  {
    hide OnNumbers;
    var window := samples[Start(rule, samples)..];
    assert Numbers(window) == values;
  }

  lemma Averaged(sum: real, n: real)
    requires n > 0.0
    ensures sum / n * n == sum
  {
  }

  lemma Percent(change: real, base: real)
    requires base != 0.0
    ensures change / base * 100.0 * base == change * 100.0
  {
    assert change / base * base == change;
  }

  /** Or the slope of a line that fits them better than any other. */
  lemma SlopeFits(rule: Rule, samples: seq<Sample>, values: seq<real>) returns (c: real)
    requires rule.kind == Kind.Slope && Verdict(rule, samples).Determined? && 2 <= rule.window <= |samples|
    requires LastNumbers(rule, samples, values)
    ensures forall a, b :: Slope.Residual(values, c, Verdict(rule, samples).measured) <= Slope.Residual(values, a, b)
  {
    hide Slope.SumsOf, Slope.SlopeOf, Slope.Residual, Verdict;
    NumberMeasured(rule, samples, values);
    Slope.SlopeIsLeastSquares(values, 0.0, 0.0);
    c := Slope.Intercept(Slope.SumsOf(values), Verdict(rule, samples).measured);
    forall a, b
      ensures Slope.Residual(values, c, Verdict(rule, samples).measured) <= Slope.Residual(values, a, b)
    {
      Slope.SlopeIsLeastSquares(values, a, b);
    }
  }

  ghost function Failures(rule: Rule, samples: seq<Sample>): set<int> {
    set i | 0 <= Start(rule, samples) <= i < |samples| && samples[i].state == Failure
  }

  ghost function FailuresFrom(samples: seq<Sample>, start: nat): set<int> {
    set i | start <= i < |samples| && samples[i].state == Failure
  }

  lemma OneMoreFailure(samples: seq<Sample>, start: nat)
    requires start < |samples|
    ensures var n := |samples| - 1;
      FailuresFrom(samples, start) == FailuresFrom(samples[..n], start) + (if samples[n].state == Failure then {n} else {})
    ensures |samples| - 1 !in FailuresFrom(samples[..|samples| - 1], start)
  {
  }

  lemma {:induction false} FailuresCounted(samples: seq<Sample>, start: nat)
    requires start <= |samples|
    ensures CountAbnormal(samples[start..]) == |FailuresFrom(samples, start)|
  {
    hide FailuresFrom;
    if start == |samples| {
      NoFailures(samples);
    } else {
      var n := |samples| - 1;
      FailuresCounted(samples[..n], start);
      OneMoreFailure(samples, start);
      assert samples[start..][..n - start] == samples[..n][start..];
    }
  }

  lemma NoFailures(samples: seq<Sample>)
    ensures FailuresFrom(samples, |samples|) == {}
  {
  }

  /** The counting rules are about the number of failures among the last samples. */
  lemma CountDecides(rule: Rule, samples: seq<Sample>)
    requires (rule.kind == Consecutive || rule.kind == Count) && Verdict(rule, samples).Determined?
    ensures var v, n := Verdict(rule, samples), |Failures(rule, samples)|;
      && v.measured == n as real
      && (v.holds <==> if rule.kind == Consecutive then n == rule.window else n >= rule.minimum)
  {
    var start := Start(rule, samples);
    FailuresCounted(samples, start);
    var window := samples[start..];
    assert Failures(rule, samples) == FailuresFrom(samples, start);
    var indices := Indices(start, |samples|);
    assert Failures(rule, samples) <= indices;
    if forall i :: 0 <= i < |window| ==> window[i].state == Failure {
      forall i | start <= i < |samples|
        ensures samples[i].state == Failure
      {
        assert window[i - start] == samples[i];
      }
      assert Failures(rule, samples) == indices;
    } else {
      var i :| 0 <= i < |window| && window[i].state != Failure;
      assert start + i in indices && start + i !in Failures(rule, samples);
      Smaller(Failures(rule, samples), indices, start + i);
    }
  }

  lemma Smaller(a: set<int>, b: set<int>, x: int)
    requires a <= b && x in b && x !in a
    ensures |a| < |b|
  {
    SubsetSize(a, b - {x});
  }

  lemma {:induction false} SubsetSize<T>(a: set<T>, b: set<T>)
    requires a <= b
    ensures |a| <= |b|
  {
    if a != {} {
      var x :| x in a;
      SubsetSize(a - {x}, b - {x});
    }
  }

  function Indices(start: int, end: int): (r: set<int>)
    requires start <= end
    ensures |r| == end - start && forall i :: i in r <==> start <= i < end
    decreases end - start
  {
    if start == end then {} else Indices(start, end - 1) + {end - 1}
  }

  // ----- Two rules, or two windows -----

  /** The operators come in complementary pairs. */
  lemma OppositeOperators(rule: Rule, samples: seq<Sample>)
    requires IsNumeric(rule) && Verdict(rule, samples).Determined?
    ensures var gt, lte := Verdict(rule.(operator := "gt"), samples), Verdict(rule.(operator := "lte"), samples);
      gt.Determined? && lte.Determined? && gt.measured == lte.measured && (gt.holds <==> !lte.holds)
    ensures var lt, gte := Verdict(rule.(operator := "lt"), samples), Verdict(rule.(operator := "gte"), samples);
      lt.Determined? && gte.Determined? && lt.measured == gte.measured && (lt.holds <==> !gte.holds)
  {
  }

  /** The same samples, with every number higher by d. */
  ghost predicate Raised(samples: seq<Sample>, d: real, raised: seq<Sample>) {
    |raised| == |samples| && forall i :: 0 <= i < |samples| ==>
      && raised[i].state == samples[i].state
      && (samples[i].numeric.None? ==> raised[i].numeric.None?)
      && (samples[i].numeric.Some? ==> raised[i].numeric == Some(samples[i].numeric.value + d))
  }

  lemma {:induction false} RaisedSum(values: seq<real>, d: real, raised: seq<real>)
    requires |raised| == |values| && forall i :: 0 <= i < |values| ==> raised[i] == values[i] + d
    ensures Sum(raised) == Sum(values) + |values| as real * d
  {
    if values != [] {
      RaisedSum(values[..|values| - 1], d, raised[..|values| - 1]);
    }
  }

  lemma RaisedAverage(values: seq<real>, d: real, raised: seq<real>)
    requires values != [] && |raised| == |values| && forall i :: 0 <= i < |values| ==> raised[i] == values[i] + d
    ensures Sum(raised) / |raised| as real == Sum(values) / |values| as real + d
  {
    hide Sum;
    RaisedSum(values, d, raised);
    Quotient(Sum(values), Sum(raised), |values| as real, |raised| as real, d);
  }

  lemma Quotient(x: real, y: real, n: real, m: real, d: real)
    requires n > 0.0 && m == n && y == x + n * d
    ensures y / m == x / n + d
  {
    assert n * (y / m) == y;
    assert n * (x / n + d) == n * (x / n) + n * d == x + n * d;
    Slope.Cancel(n, y / m, x / n + d);
  }

  lemma RaisedNumbers(rule: Rule, samples: seq<Sample>, d: real, raised: seq<Sample>)
    requires 1 <= rule.window <= |samples| && Raised(samples, d, raised)
    ensures var window, after := samples[Start(rule, samples)..], raised[Start(rule, samples)..];
      && (AllKnown(after) <==> AllKnown(window)) && (AllNumeric(after) <==> AllNumeric(window))
      && (AllNumeric(window) ==> forall i :: 0 <= i < |window| ==> Numbers(after)[i] == Numbers(window)[i] + d)
  {
  }

  /** Raising all numbers raises the average as much, so it can only switch a rule on that waits for a high
      average, and only off one that waits for a low one. */
  lemma HigherAverage(rule: Rule, samples: seq<Sample>, d: real, raised: seq<Sample>)
    requires rule.kind == Average && Verdict(rule, samples).Determined? && Raised(samples, d, raised) && d > 0.0
    ensures var v, w := Verdict(rule, samples), Verdict(rule, raised);
      && w.Determined? && w.measured == v.measured + d
      && ((rule.operator == "gt" || rule.operator == "gte") && v.holds ==> w.holds)
      && ((rule.operator == "lt" || rule.operator == "lte") && w.holds ==> v.holds)
  {
    RaisedNumbers(rule, samples, d, raised);
    RaisedAverage(Numbers(samples[Start(rule, samples)..]), d, Numbers(raised[Start(rule, samples)..]));
  }

  /** It makes no difference to a change or a slope. */
  lemma ShiftedSamples(rule: Rule, samples: seq<Sample>, d: real, raised: seq<Sample>)
    requires (rule.kind == Delta && rule.deltaMode != "percent") || rule.kind == Kind.Slope
    requires Verdict(rule, samples).Determined? && Raised(samples, d, raised)
    ensures Verdict(rule, raised) == Verdict(rule, samples)
  {
    RaisedNumbers(rule, samples, d, raised);
    var values, after := Numbers(samples[Start(rule, samples)..]), Numbers(raised[Start(rule, samples)..]);
    if rule.kind == Kind.Slope {
      Slope.GuardForFewValues(values);
      Slope.GuardForFewValues(after);
      assert after == Slope.Tilted(values, d, 0.0);
      if |values| >= 2 {
        Slope.SlopeOfTilted(values, d, 0.0);
      }
    }
  }
}
