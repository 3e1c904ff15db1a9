/**
 The samples of a status board item, and what a trend rule says about a window of them. Numbers are real
 numbers.
 */
module Trends {
  import opened Wrappers
  import opened Samples
  import Slope

  // ----- Samples of an item -----

  datatype Value = Boolean(b: bool) | Number(x: real) | Text(s: string) | Other

  /** A record of the monitor, with the value the item's source finds in it. */
  datatype Record = Record(id: string, startedAt: int, value: Option<Value>)

  datatype Mapping = Mapping(value: real, level: string)

  datatype Source =
    | BooleanSource(invert: bool)
    | NumberSource(mappings: seq<Mapping>, thresholds: seq<Threshold>)
    | TextSource(levelOf: string -> string)

  function MappedLevel(mappings: seq<Mapping>, x: real): Option<string> {
    if mappings == [] then None
    else if mappings[0].value == x then Some(mappings[0].level)
    else MappedLevel(mappings[1..], x)
  }

  function StateOf(level: string): State { if level == "success" then Success else Failure }

  function BuildSample(source: Source, record: Record): Sample {
    var unknown := Sample(record.startedAt, Unknown, None, 28.0);
    match source
    case BooleanSource(invert) =>
      if record.value.None? || !record.value.value.Boolean? then unknown
      else unknown.(state := if record.value.value.b != invert then Success else Failure, height := 100.0)
    case NumberSource(mappings, thresholds) =>
      if record.value.None? || !record.value.value.Number? then unknown else
        var x := record.value.value.x;
        var numeric := unknown.(numeric := Some(x));
        var mapped, matched := MappedLevel(mappings, x), Matched(thresholds, x);
        if mapped.Some? then numeric.(state := StateOf(mapped.value))
        else if matched.Some? && matched.value < |thresholds|
        then numeric.(state := StateOf(thresholds[matched.value].level))
        else numeric
    case TextSource(levelOf) =>
      if record.value.None? || !record.value.value.Text? then unknown
      else unknown.(state := StateOf(levelOf(record.value.value.s)), height := 100.0)
  }

  /** The samples before their heights are scaled. */
  function Built(source: Source, records: seq<Record>): seq<Sample> {
    seq(|records|, i requires 0 <= i < |records| => BuildSample(source, records[i]))
  }

  method BuildSamples(source: Source, records: seq<Record>) returns (samples: array<Sample>)
    ensures fresh(samples) && Scaled(Built(source, records), samples[..])
  {
    samples := new Sample[|records|](_ => Sample(0, Unknown, None, 0.0));
    for i := 0 to |records|
      invariant samples[..i] == Built(source, records)[..i]
    {
      samples[i] := BuildSample(source, records[i]);
    }
    assert samples[..] == Built(source, records);
    ScaleNumericSamples(samples);
  }

  /** With accepted intervals, a numeric item has an unknown sample only where there is no number. */
  lemma NumbersAreKnown(source: Source, record: Record)
    requires source.NumberSource? && Intervals(source.thresholds) && source.thresholds != []
    ensures BuildSample(source, record).state == Unknown <==> (record.value.None? || !record.value.value.Number?)
    ensures BuildSample(source, record).numeric.None? <==> BuildSample(source, record).state == Unknown
  {
    if record.value.Some? && record.value.value.Number? {
      MatchedIsFirst(source.thresholds, record.value.value.x);
      ThresholdsPartition(source.thresholds, record.value.value.x, 0);
    }
  }

  // ----- What a rule says -----

  datatype Kind = Consecutive | Count | Average | Delta | Slope | Unsupported

  datatype Rule = Rule(
    id: string, kind: Kind, window: int, minimum: int, operator: string, threshold: real, deltaMode: string)

  datatype Reason = WindowIncomplete | UnknownSample | NonNumericSample | ZeroPercentBaseline | UnsupportedRule

  datatype Evaluation = Indeterminate(reason: Reason) | Determined(holds: bool, measured: real)

  function CountAbnormal(window: seq<Sample>): (n: nat)
    ensures n <= |window|
  {
    if window == [] then 0
    else CountAbnormal(window[..|window| - 1]) + (if window[|window| - 1].state == Failure then 1 else 0)
  }

  function Sum(values: seq<real>): real {
    if values == [] then 0.0 else Sum(values[..|values| - 1]) + values[|values| - 1]
  }

  function Abs(x: real): real { if x < 0.0 then -x else x }

  function CompareNumber(value: real, operator: string, threshold: real): bool {
    if operator == "gt" then value > threshold
    else if operator == "gte" then value >= threshold
    else if operator == "lt" then value < threshold
    else if operator == "lte" then value <= threshold
    else false
  }

  ghost predicate AllKnown(window: seq<Sample>) { forall i :: 0 <= i < |window| ==> window[i].state != Unknown }

  ghost predicate AllNumeric(window: seq<Sample>) { forall i :: 0 <= i < |window| ==> window[i].numeric.Some? }

  ghost function Numbers(window: seq<Sample>): seq<real>
    requires AllNumeric(window)
  {
    seq(|window|, i requires 0 <= i < |window| => window[i].numeric.value)
  }

  /** The average, the change or the slope of the numbers of a window. */
  ghost function Measured(rule: Rule, values: seq<real>): real
    requires values != [] && (rule.kind == Delta && rule.deltaMode == "percent" ==> values[0] != 0.0)
  {
    match rule.kind
    case Average => Sum(values) / |values| as real
    case Delta =>
      var change := values[|values| - 1] - values[0];
      if rule.deltaMode == "percent" then change / Abs(values[0]) * 100.0 else change
    case _ => Slope.SlopeOf(Slope.SumsOf(values))
  }

  ghost function OnNumbers(rule: Rule, values: seq<real>): Evaluation
    requires values != []
  {
    if rule.kind == Delta && rule.deltaMode == "percent" && values[0] == 0.0
    then Indeterminate(ZeroPercentBaseline)
    else
      var measured := Measured(rule, values);
      Determined(CompareNumber(measured, rule.operator, rule.threshold), measured)
  }

  ghost function OnWindow(rule: Rule, window: seq<Sample>): Evaluation
    requires window != []
  {
    if !AllKnown(window) then Indeterminate(UnknownSample)
    else
      match rule.kind
      case Consecutive =>
        Determined(forall i :: 0 <= i < |window| ==> window[i].state == Failure, CountAbnormal(window) as real)
      case Count => Determined(CountAbnormal(window) >= rule.minimum, CountAbnormal(window) as real)
      case Unsupported => Indeterminate(UnsupportedRule)
      case _ => if AllNumeric(window) then OnNumbers(rule, Numbers(window)) else Indeterminate(NonNumericSample)
  }

  ghost function Verdict(rule: Rule, samples: seq<Sample>): Evaluation {
    if rule.window < 1 || |samples| < rule.window then Indeterminate(WindowIncomplete)
    else OnWindow(rule, samples[|samples| - rule.window..])
  }

  method EvaluateTrend(rule: Rule, samples: seq<Sample>) returns (evaluation: Evaluation)
    ensures evaluation == Verdict(rule, samples)
  {
    if rule.window < 1 || |samples| < rule.window {
      return Indeterminate(WindowIncomplete);
    }
    var window := samples[|samples| - rule.window..];
    for i := 0 to |window|
      invariant AllKnown(window[..i])
    {
      if window[i].state == Unknown {
        return Indeterminate(UnknownSample);
      }
    }
    assert window[..|window|] == window;
    match rule.kind {
      case Consecutive =>
        var matched := true;
        for i := 0 to |window|
          invariant matched <==> forall k :: 0 <= k < i ==> window[k].state == Failure
        {
          matched := matched && window[i].state == Failure;
        }
        var count := Abnormal(window);
        return Determined(matched, count as real);
      case Count =>
        var count := Abnormal(window);
        return Determined(count >= rule.minimum, count as real);
      case Unsupported => return Indeterminate(UnsupportedRule);
      case _ =>
        var values: seq<real> := [];
        for i := 0 to |window|
          invariant AllNumeric(window[..i]) && values == Numbers(window[..i])
        {
          if window[i].numeric.None? {
            return Indeterminate(NonNumericSample);
          }
          OneMoreNumber(window, i);
          values := values + [window[i].numeric.value];
        }
        assert window[..|window|] == window;
        evaluation := EvaluateNumbers(rule, values);
    }
  }

  lemma OneMoreNumber(window: seq<Sample>, i: nat)
    requires i < |window| && AllNumeric(window[..i]) && window[i].numeric.Some?
    ensures AllNumeric(window[..i + 1]) && Numbers(window[..i + 1]) == Numbers(window[..i]) + [window[i].numeric.value]
  {
    assert forall k :: 0 <= k < i ==> window[..i + 1][k] == window[..i][k];
  }

  method EvaluateNumbers(rule: Rule, values: seq<real>) returns (evaluation: Evaluation)
    requires values != [] && (rule.kind == Average || rule.kind == Delta || rule.kind == Slope)
    ensures evaluation == OnNumbers(rule, values)
  {
    var measured := 0.0;
    match rule.kind {
      case Average =>
        for i := 0 to |values|
          invariant measured == Sum(values[..i])
        {
          assert values[..i + 1][..i] == values[..i];
          measured := measured + values[i];
        }
        assert values[..|values|] == values;
        measured := measured / |values| as real;
      case Delta =>
        measured := values[|values| - 1] - values[0];
        if rule.deltaMode == "percent" {
          if values[0] == 0.0 {
            return Indeterminate(ZeroPercentBaseline);
          }
          measured := measured / Abs(values[0]) * 100.0;
        }
      case _ =>
        measured := Slope.LinearSlope(values);
    }
    return Determined(CompareNumber(measured, rule.operator, rule.threshold), measured);
  }

  method Abnormal(samples: seq<Sample>) returns (count: nat)
    ensures count == CountAbnormal(samples)
  {
    count := 0;
    for i := 0 to |samples|
      invariant count == CountAbnormal(samples[..i])
    {
      assert samples[..i + 1][..i] == samples[..i];
      if samples[i].state == Failure {
        count := count + 1;
      }
    }
    assert samples[..|samples|] == samples;
  }

  // ----- The measures against values that are known -----

  ghost predicate OnLine(values: seq<real>, a: real, b: real) {
    forall i :: 0 <= i < |values| ==> values[i] == a + b * i as real
  }

  lemma {:induction false} SumOnLine(values: seq<real>, a: real, b: real)
    requires OnLine(values, a, b)
    ensures var n := |values| as real; 2.0 * Sum(values) == n * (2.0 * a + b * (n - 1.0))
  {
    if values != [] {
      var front, m := values[..|values| - 1], (|values| - 1) as real;
      assert forall i :: 0 <= i < |front| ==> front[i] == values[i];
      SumOnLine(front, a, b);
      LineStep(m, a, b);
    }
  }

  lemma LineStep(m: real, a: real, b: real)
    ensures m * (2.0 * a + b * (m - 1.0)) + 2.0 * (a + b * m) == (m + 1.0) * (2.0 * a + b * (m + 1.0 - 1.0))
  {
  }

  /** On the points of a line the average is the value in the middle, the change is that of the whole
      window, and the slope is the slope of the line. */
  lemma MeasuredOnLine(rule: Rule, values: seq<real>, a: real, b: real)
    requires |values| >= 2 && OnLine(values, a, b)
    ensures var n := |values| as real;
      && (rule.kind == Average ==> Measured(rule, values) == a + b * (n - 1.0) / 2.0)
      && (rule.kind == Delta && rule.deltaMode != "percent" ==> Measured(rule, values) == b * (n - 1.0))
      && (rule.kind == Delta && rule.deltaMode == "percent" && a != 0.0 ==> Measured(rule, values) == b * (n - 1.0) / Abs(a) * 100.0)
      && (rule.kind == Slope ==> Measured(rule, values) == b)
  {
    hide Sum;
    hide Slope.SumsOf;
    hide Slope.SlopeOf;
    AverageOnLine(values, a, b);
    ChangeOnLine(values, a, b);
    Slope.SlopeOfLine(values, a, b);
  }

  lemma AverageOnLine(values: seq<real>, a: real, b: real)
    requires |values| >= 2 && OnLine(values, a, b)
    ensures var n := |values| as real; Sum(values) / n == a + b * (n - 1.0) / 2.0
  {
    hide Sum;
    var n := |values| as real;
    SumOnLine(values, a, b);
    HalfOfTwice(Sum(values), n, 2.0 * a + b * (n - 1.0));
  }

  lemma ChangeOnLine(values: seq<real>, a: real, b: real)
    requires |values| >= 2 && OnLine(values, a, b)
    ensures values[0] == a && values[|values| - 1] - values[0] == b * (|values| as real - 1.0)
  {
    var last := |values| - 1;
    assert values[0] == a + b * 0.0 && values[last] == a + b * last as real;
    assert last as real == |values| as real - 1.0;
  }

  lemma HalfOfTwice(sum: real, n: real, twice: real)
    requires n > 0.0 && 2.0 * sum == n * twice
    ensures sum / n == twice / 2.0
  {
    assert n * (sum / n) == sum == n * (twice / 2.0);
    Slope.Cancel(n, sum / n, twice / 2.0);
  }
}
