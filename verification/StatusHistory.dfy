/**
 Whole runs of a status board item: a rule's state and events against the complete history of the
 monitor, of which each evaluation fetches a part.
 */
module StatusHistory {
  import opened Alternation
  import opened Wrappers
  import opened Samples
  import opened Trends
  import opened StatusItems

  // ----- The part that is fetched -----

  ghost predicate InOrder(records: seq<Record>) {
    forall i, j :: 0 <= i < j < |records| ==> records[i].startedAt <= records[j].startedAt
  }

  ghost predicate SamplesInOrder(samples: seq<Sample>) {
    forall i, j :: 0 <= i < j < |samples| ==> samples[i].startedAt <= samples[j].startedAt
  }

  /** All samples since the rules of the item were last changed. */
  ghost function Complete(item: Item, stored: seq<Record>, current: Record): seq<Sample> {
    Since(Built(item.source, stored + [current]), item.since)
  }

  lemma {:induction false} NothingSince(samples: seq<Sample>, since: int)
    requires forall i :: 0 <= i < |samples| ==> samples[i].startedAt < since
    ensures Since(samples, since) == []
  {
    if samples != [] {
      NothingSince(samples[..|samples| - 1], since);
    }
  }

  /** Of samples that are in order, exactly those from the first that is not too early are kept. */
  lemma {:induction false} SinceIsSuffix(samples: seq<Sample>, since: int, k: nat)
    requires k <= |samples|
    requires forall i :: 0 <= i < k ==> samples[i].startedAt < since
    requires forall i :: k <= i < |samples| ==> since <= samples[i].startedAt
    ensures Since(samples, since) == samples[k..]
  {
    hide Since;
    if |samples| == k {
      NothingSince(samples, since);
    } else {
      var front, last := samples[..|samples| - 1], samples[|samples| - 1];
      SinceIsSuffix(front, since, k);
      SinceAppend(front, last, since);
      assert samples == front + [last] && samples[k..] == front[k..] + [last];
    }
  }

  /** In samples that are in order, filtering a suffix gives a suffix of what filtering gives. */
  lemma {:induction false} SinceOfSuffix(samples: seq<Sample>, n: nat, since: int)
    requires SamplesInOrder(samples)
    ensures Since(Suffix(samples, n), since) == Suffix(Since(samples, since), n)
  {
    hide Suffix;
    hide SamplesInOrder;
    if samples == [] || n == 0 {
      EmptySuffix(samples, n);
      EmptySuffix(Since(samples, since), n);
    } else {
      var front, last := samples[..|samples| - 1], samples[|samples| - 1];
      FrontInOrder(samples);
      SuffixOfLonger(front, last, n);
      assert samples == front + [last];
      if last.startedAt < since {
        SuffixContained(samples, n);
        NothingSince(samples, since);
        NothingSince(Suffix(samples, n), since);
        EmptySuffix(Since(samples, since), n);
      } else {
        SinceOfSuffix(front, n - 1, since);
        SinceAppend(Suffix(front, n - 1), last, since);
        SuffixOfLonger(Since(front, since), last, n);
      }
    }
  }

  lemma EmptySuffix<T>(s: seq<T>, n: nat)
    requires s == [] || n == 0
    ensures Suffix(s, n) == []
  {
  }

  lemma FrontInOrder(samples: seq<Sample>)
    requires SamplesInOrder(samples) && samples != []
    ensures var last := samples[|samples| - 1]; forall i :: 0 <= i < |samples| ==> samples[i].startedAt <= last.startedAt
    ensures SamplesInOrder(samples[..|samples| - 1])
  {
  }

  lemma SuffixContained(samples: seq<Sample>, n: nat)
    ensures forall i :: 0 <= i < |Suffix(samples, n)| ==> Suffix(samples, n)[i] in samples
    ensures |Suffix(samples, n)| <= |samples|
  {
  }

  lemma SuffixOfLonger<T>(s: seq<T>, x: T, n: nat)
    requires n > 0
    ensures Suffix(s + [x], n) == Suffix(s, n - 1) + [x]
  {
  }

  lemma SinceAppend(samples: seq<Sample>, last: Sample, since: int)
    requires last.startedAt >= since
    ensures Since(samples + [last], since) == Since(samples, since) + [last]
  {
    assert (samples + [last])[..|samples|] == samples;
  }

  lemma FetchedIsSuffix(rules: seq<Rule>, source: Source, stored: seq<Record>, current: Record)
    ensures Built(source, Fetched(rules, stored, current))
         == Suffix(Built(source, stored + [current]), PageSize(MaxWindow(rules) - 1) + 1)
  {
    hide MaxWindow;
    hide Suffix;
    var n := PageSize(MaxWindow(rules) - 1);
    SuffixOfLonger(stored, current, n + 1);
    BuiltSuffix(source, stored + [current], n + 1);
  }

  lemma BuiltSuffix(source: Source, records: seq<Record>, n: nat)
    ensures Built(source, Suffix(records, n)) == Suffix(Built(source, records), n)
  {
    hide BuildSample;
  }

  lemma VerdictOnSuffix(rule: Rule, samples: seq<Sample>, n: nat)
    ensures rule.window <= n ==> Verdict(rule, Suffix(samples, n)) == Verdict(rule, samples)
    ensures rule.window > n ==> Verdict(rule, Suffix(samples, n)) == Indeterminate(WindowIncomplete)
  {
    hide OnWindow;
    if 1 <= rule.window <= n && rule.window <= |samples| {
      var suffix := Suffix(samples, n);
      assert suffix[|suffix| - rule.window..] == samples[|samples| - rule.window..];
    }
  }

  lemma BuiltInOrder(source: Source, records: seq<Record>)
    requires InOrder(records)
    ensures SamplesInOrder(Built(source, records))
  {
    var built := Built(source, records);
    forall i | 0 <= i < |built|
      ensures built[i].startedAt == records[i].startedAt
    {}
  }

  /** Where enough is fetched for a rule, its verdict is the one on the complete history. */
  lemma FetchSuffices(item: Item, rule: Rule, stored: seq<Record>, current: Record)
    requires rule in item.rules && InOrder(stored + [current])
    requires MaxWindow(item.rules) <= 101 || rule.window <= 21
    ensures Verdict(rule, Seen(item, stored, current)) == Verdict(rule, Complete(item, stored, current))
  {
    hide MaxWindow;
    hide Since;
    hide Suffix;
    hide Verdict;
    var n := PageSize(MaxWindow(item.rules) - 1) + 1;
    var built := Built(item.source, stored + [current]);
    BuiltInOrder(item.source, stored + [current]);
    FetchedIsSuffix(item.rules, item.source, stored, current);
    SinceOfSuffix(built, n, item.since);
    VerdictOnSuffix(rule, Complete(item, stored, current), n);
  }

  // ----- Where it falls short -----

  /** A source for which every number is a failure, and record number i with the number 1. */
  function FailingSource(): Source { NumberSource([], [Threshold(None, "failure", "high", "red")]) }

  function Steady(n: nat): seq<Record> { seq(n, i => Record("", i, Some(Number(1.0)))) }

  lemma {:induction false} SinceTheStart(samples: seq<Sample>)
    requires forall i :: 0 <= i < |samples| ==> samples[i].startedAt >= 0
    ensures Since(samples, 0) == samples
  {
    if samples != [] {
      SinceTheStart(samples[..|samples| - 1]);
    }
  }

  lemma SteadySamples(n: nat)
    ensures var built := Built(FailingSource(), Steady(n));
      |built| == n && forall i :: 0 <= i < n ==>
        built[i].state == Failure && built[i].numeric == Some(1.0) && built[i].startedAt == i
  {
  }

  /** A supported rule has a verdict on a window of steady numbers. */
  lemma SteadyIsDetermined(rule: Rule, window: seq<Sample>)
    requires rule.kind != Unsupported && window != []
    requires forall i :: 0 <= i < |window| ==> window[i].state == Failure && window[i].numeric == Some(1.0)
    ensures OnWindow(rule, window).Determined?
  {
    assert AllKnown(window) && AllNumeric(window);
    assert Numbers(window)[0] == 1.0;
  }

  /** More than 21 of more than 101: the fetch falls back to 20 records, and whatever the source and the
      history, the rule never has a verdict. */
  lemma NeverEnough(item: Item, rule: Rule, stored: seq<Record>, current: Record)
    requires MaxWindow(item.rules) > 101 && rule.window > 21
    ensures Verdict(rule, Seen(item, stored, current)) == Indeterminate(WindowIncomplete)
  {
    hide MaxWindow;
    hide Since;
    hide OnWindow;
    assert |Fetched(item.rules, stored, current)| <= 21;
  }

  /** And yet a history where the rule has one on the complete records. */
  lemma FetchFallsShort(rules: seq<Rule>, rule: Rule)
    requires rule in rules && rule.kind != Unsupported
    requires MaxWindow(rules) > 101 && rule.window > 21
    ensures var item, stored, current := Item(FailingSource(), rules, 0), Steady(rule.window - 1), Steady(rule.window)[rule.window - 1];
      && InOrder(stored + [current])
      && Verdict(rule, Seen(item, stored, current)) == Indeterminate(WindowIncomplete)
      && Verdict(rule, Complete(item, stored, current)).Determined?
  {
    var item, stored, current := Item(FailingSource(), rules, 0), Steady(rule.window - 1), Steady(rule.window)[rule.window - 1];
    hide MaxWindow;
    hide Since;
    hide OnWindow;
    var built := Built(item.source, stored + [current]);
    assert stored + [current] == Steady(rule.window);
    SteadySamples(rule.window);
    SinceTheStart(built);
    SteadyIsDetermined(rule, built);
    assert built[0..] == built;
    NeverEnough(item, rule, stored, current);
  }

  ghost predicate Agrees(item: Item, rule: Rule, stored: seq<Record>, current: Record) {
    InOrder(stored + [current]) ==>
      Verdict(rule, Seen(item, stored, current)) == Verdict(rule, Complete(item, stored, current))
  }

  /** Exactly when the bounded fetch agrees with the complete history, whatever the history. */
  lemma FetchAgreesIff(rules: seq<Rule>, rule: Rule)
    requires rule in rules && rule.kind != Unsupported
    ensures (MaxWindow(rules) <= 101 || rule.window <= 21) <==>
            forall source, since, stored, current :: Agrees(Item(source, rules, since), rule, stored, current)
  {
    if MaxWindow(rules) <= 101 || rule.window <= 21 {
      forall source, since, stored, current
        ensures Agrees(Item(source, rules, since), rule, stored, current)
      {
        if InOrder(stored + [current]) {
          FetchSuffices(Item(source, rules, since), rule, stored, current);
        }
      }
    } else {
      FetchFallsShort(rules, rule);
      assert !Agrees(Item(FailingSource(), rules, 0), rule, Steady(rule.window - 1), Steady(rule.window)[rule.window - 1]);
    }
  }

  // ----- Runs -----

  datatype Board = Board(stored: seq<Record>, states: map<string, RuleState>)

  /** What becomes of an execution of the monitor: record and new states are committed; the board could not
      be evaluated, and the record is committed without new states or events; or nothing is committed. */
  datatype Outcome = Evaluated | Unevaluated | Lost

  datatype Execution = Execution(record: Record, outcome: Outcome)

  ghost function Execute(item: Item, b: Board, e: Execution): (Board, seq<Event>) {
    var (states, events) := ApplyRules(item.rules, Seen(item, b.stored, e.record), b.states, e.record.id);
    match e.outcome
    case Evaluated => (Board(b.stored + [e.record], states), events)
    case Unevaluated => (b.(stored := b.stored + [e.record]), [])
    case Lost => (b, [])
  }

  ghost function Run(item: Item, b: Board, es: seq<Execution>): (Board, seq<Event>) {
    if es == [] then (b, [])
    else
      var (before, events) := Run(item, b, es[..|es| - 1]);
      var (after, more) := Execute(item, before, es[|es| - 1]);
      (after, events + more)
  }

  ghost function StoredAfter(stored: seq<Record>, es: seq<Execution>): seq<Record> {
    if es == [] then stored
    else
      var last := es[|es| - 1];
      StoredAfter(stored, es[..|es| - 1]) + if last.outcome.Lost? then [] else [last.record]
  }

  /** The verdicts of a rule on the complete history at each execution both evaluated and committed. */
  ghost function Verdicts(item: Item, rule: Rule, stored: seq<Record>, es: seq<Execution>): seq<Evaluation> {
    if es == [] then []
    else
      var front, last := es[..|es| - 1], es[|es| - 1];
      Verdicts(item, rule, stored, front)
      + if last.outcome.Evaluated? then [Verdict(rule, Complete(item, StoredAfter(stored, front), last.record))] else []
  }

  ghost function LastKnown(verdicts: seq<Evaluation>, active: bool): bool {
    if verdicts == [] then active
    else
      var last := verdicts[|verdicts| - 1];
      if last.Determined? then last.holds else LastKnown(verdicts[..|verdicts| - 1], active)
  }

  /** The events of one rule: true where it was triggered, false where it recovered. */
  ghost function EventsOf(events: seq<Event>, id: string): seq<bool> {
    if events == [] then []
    else
      var last := events[|events| - 1];
      EventsOf(events[..|events| - 1], id) + if last.ruleId == id then [last.triggered] else []
  }

  /** No other rule has the id of rule j. */
  ghost predicate OwnId(rules: seq<Rule>, j: nat)
    requires j < |rules|
  {
    forall i :: 0 <= i < |rules| && i != j ==> rules[i].id != rules[j].id
  }

  lemma {:induction false} EventsOfAppend(a: seq<Event>, b: seq<Event>, id: string)
    ensures EventsOf(a + b, id) == EventsOf(a, id) + EventsOf(b, id)
  {
    if b == [] {
      assert a + b == a;
    } else {
      assert (a + b)[..|a + b| - 1] == a + b[..|b| - 1];
      EventsOfAppend(a, b[..|b| - 1], id);
    }
  }

  /** Without rules nothing happens. */
  lemma NoRules(samples: seq<Sample>, states: map<string, RuleState>, recordId: string, id: string)
    ensures ApplyRules([], samples, states, recordId).0 == states
    ensures EventsOf(ApplyRules([], samples, states, recordId).1, id) == []
  {
  }

  /** What the last rule adds to the state and the events of each id. */
  lemma LastRule(rules: seq<Rule>, samples: seq<Sample>, states: map<string, RuleState>, recordId: string, id: string)
    requires rules != []
    ensures var (before, events) := ApplyRules(rules[..|rules| - 1], samples, states, recordId);
      var (after, all) := ApplyRules(rules, samples, states, recordId);
      var rule := rules[|rules| - 1];
      var edge := Edge(StateIn(before, rule.id).active, Verdict(rule, samples));
      && EventsOf(all, id) == EventsOf(events, id) + (if rule.id == id && edge.Some? then [edge.value] else [])
      && (rule.id == id ==> StateIn(after, id).active == if edge.Some? then edge.value else StateIn(before, id).active)
      && (rule.id != id ==> StateIn(after, id) == StateIn(before, id))
  {
    hide Verdict;
    var (before, events) := ApplyRules(rules[..|rules| - 1], samples, states, recordId);
    assert EventsOf(events, id) + [] == EventsOf(events, id);
  }

  lemma {:induction false} OtherRulesUntouched(
      rules: seq<Rule>, samples: seq<Sample>, states: map<string, RuleState>, recordId: string, id: string)
    requires forall i :: 0 <= i < |rules| ==> rules[i].id != id
    ensures var (after, events) := ApplyRules(rules, samples, states, recordId);
      StateIn(after, id) == StateIn(states, id) && EventsOf(events, id) == []
  {
    hide Verdict, ApplyRules, EventsOf, Edge, StateIn;
    if rules == [] {
      NoRules(samples, states, recordId, id);
    } else {
      OtherRulesUntouched(rules[..|rules| - 1], samples, states, recordId, id);
      LastRule(rules, samples, states, recordId, id);
    }
  }

  /** A rule with an id of its own is evaluated on its own. */
  lemma {:induction false} EachRuleOnItsOwn(
      rules: seq<Rule>, samples: seq<Sample>, states: map<string, RuleState>, recordId: string, j: nat)
    requires j < |rules| && OwnId(rules, j)
    ensures var rule := rules[j];
      var (after, events) := ApplyRules(rules, samples, states, recordId);
      var edge := Edge(StateIn(states, rule.id).active, Verdict(rule, samples));
      && StateIn(after, rule.id).active == (if edge.Some? then edge.value else StateIn(states, rule.id).active)
      && EventsOf(events, rule.id) == (if edge.Some? then [edge.value] else [])
  {
    hide Verdict, ApplyRules, EventsOf, Edge, StateIn;
    var front := rules[..|rules| - 1];
    LastRule(rules, samples, states, recordId, rules[j].id);
    if j < |rules| - 1 {
      assert front[j] == rules[j] && rules[|rules| - 1].id != rules[j].id;
      EachRuleOnItsOwn(front, samples, states, recordId, j);
    } else {
      OtherRulesUntouched(front, samples, states, recordId, rules[j].id);
    }
  }

  lemma NoEvents(id: string, start: bool)
    ensures Alternates(EventsOf([], id), start) && FinalState(EventsOf([], id), start) == start
  {
  }

  lemma EdgeContinues(changes: seq<bool>, start: bool, evaluation: Evaluation)
    requires Alternates(changes, start)
    ensures var edge := Edge(FinalState(changes, start), evaluation);
      var longer := changes + if edge.Some? then [edge.value] else [];
      && Alternates(longer, start)
      && FinalState(longer, start) == (if edge.Some? then edge.value else FinalState(changes, start))
      && FinalState(longer, start) == (if evaluation.Determined? then evaluation.holds else FinalState(changes, start))
  {
    hide Alternates;
    hide FinalState;
    var edge := Edge(FinalState(changes, start), evaluation);
    if edge.Some? {
      OneMore(changes, start, edge.value);
    } else {
      assert changes + [] == changes;
    }
  }

  lemma {:induction false} RulesKeepAlternating(
      rules: seq<Rule>, samples: seq<Sample>, states: map<string, RuleState>, recordId: string, id: string,
      changes: seq<bool>, start: bool)
    requires Alternates(changes, start) && StateIn(states, id).active == FinalState(changes, start)
    ensures var (after, events) := ApplyRules(rules, samples, states, recordId);
      var longer := changes + EventsOf(events, id);
      Alternates(longer, start) && StateIn(after, id).active == FinalState(longer, start)
  {
    hide Verdict, Alternates, FinalState, ApplyRules, EventsOf, Edge, StateIn;
    if rules == [] {
      NoRules(samples, states, recordId, id);
      assert changes + EventsOf(ApplyRules(rules, samples, states, recordId).1, id) == changes;
    } else {
      var front, rule := rules[..|rules| - 1], rules[|rules| - 1];
      var (before, events) := ApplyRules(front, samples, states, recordId);
      RulesKeepAlternating(front, samples, states, recordId, id, changes, start);
      LastRule(rules, samples, states, recordId, id);
      var longer := changes + EventsOf(events, id);
      if rule.id == id {
        EdgeContinues(longer, start, Verdict(rule, samples));
        var edge := Edge(StateIn(before, id).active, Verdict(rule, samples));
        assert longer + (if edge.Some? then [edge.value] else [])
            == changes + (EventsOf(events, id) + if edge.Some? then [edge.value] else []);
      } else {
        assert EventsOf(events, id) + [] == EventsOf(events, id);
      }
    }
  }

  /** Over any run, whatever evaluations and commits fail, the events under any rule id strictly alternate,
      and the last of them tells whether it is active; several rules may have that id. */
  lemma {:induction false} EventsAlternate(item: Item, b: Board, es: seq<Execution>, id: string)
    ensures var (after, events) := Run(item, b, es);
      var changes, start := EventsOf(events, id), StateIn(b.states, id).active;
      Alternates(changes, start) && StateIn(after.states, id).active == FinalState(changes, start)
  {
    hide ApplyRules;
    hide Seen;
    hide Verdict;
    hide Alternates;
    hide FinalState;
    hide Edge;
    var start := StateIn(b.states, id).active;
    if es != [] {
      var (before, events) := Run(item, b, es[..|es| - 1]);
      var last := es[|es| - 1];
      var (after, more) := Execute(item, before, last);
      EventsAlternate(item, b, es[..|es| - 1], id);
      RulesKeepAlternating(item.rules, Seen(item, before.stored, last.record), before.states, last.record.id, id,
        EventsOf(events, id), start);
      EventsOfAppend(events, more, id);
      assert EventsOf(events, id) + [] == EventsOf(events, id);
    } else {
      NoEvents(id, start);
    }
  }

  /** Over any run, a rule with an id of its own is active exactly if its last known verdict on the complete
      history, at an execution both evaluated and committed, said so. */
  lemma {:induction false} RuleFollowsHistory(item: Item, b: Board, es: seq<Execution>, j: nat)
    requires j < |item.rules| && OwnId(item.rules, j)
    requires MaxWindow(item.rules) <= 101 || item.rules[j].window <= 21
    requires InOrder(StoredAfter(b.stored, es))
    ensures var rule := item.rules[j];
      var after := Run(item, b, es).0;
      && after.stored == StoredAfter(b.stored, es)
      && StateIn(after.states, rule.id).active
         == LastKnown(Verdicts(item, rule, b.stored, es), StateIn(b.states, rule.id).active)
  {
    hide ApplyRules;
    hide Seen;
    hide Complete;
    hide Verdict;
    if es != [] {
      var front, last := es[..|es| - 1], es[|es| - 1];
      var stored := StoredAfter(b.stored, front);
      assert forall i :: 0 <= i < |stored| ==> stored[i] == StoredAfter(b.stored, es)[i];
      RuleFollowsHistory(item, b, front, j);
      if last.outcome.Evaluated? {
        var rule, before := item.rules[j], Run(item, b, front).0;
        EachRuleOnItsOwn(item.rules, Seen(item, before.stored, last.record), before.states, last.record.id, j);
        FetchSuffices(item, rule, stored, last.record);
        LastKnownAppend(Verdicts(item, rule, b.stored, front), Verdict(rule, Complete(item, stored, last.record)),
          StateIn(b.states, rule.id).active);
      } else {
        assert Verdicts(item, item.rules[j], b.stored, es) == Verdicts(item, item.rules[j], b.stored, front);
      }
    }
  }

  /** Each rule's state names the record at which it was evaluated. */
  lemma {:induction false} StatesNamed(
      rules: seq<Rule>, samples: seq<Sample>, states: map<string, RuleState>, recordId: string, id: string)
    ensures var after := ApplyRules(rules, samples, states, recordId).0;
      if exists i :: 0 <= i < |rules| && rules[i].id == id then StateIn(after, id).lastRecordId == recordId
      else StateIn(after, id) == StateIn(states, id)
  {
    hide Verdict, Edge;
    if rules != [] {
      var front := rules[..|rules| - 1];
      StatesNamed(front, samples, states, recordId, id);
      assert forall i :: 0 <= i < |front| ==> front[i] == rules[i];
    }
  }

  lemma {:induction false} EventsNamed(rules: seq<Rule>, samples: seq<Sample>, states: map<string, RuleState>, recordId: string)
    ensures forall e :: e in ApplyRules(rules, samples, states, recordId).1 ==> e.recordId == recordId
  {
    hide Verdict, Edge, StateIn;
    if rules != [] {
      EventsNamed(rules[..|rules| - 1], samples, states, recordId);
    }
  }

  /** The record of the last execution both evaluated and committed. */
  ghost function LastEvaluated(es: seq<Execution>, before: string): string {
    if es == [] then before
    else if es[|es| - 1].outcome.Evaluated? then es[|es| - 1].record.id
    else LastEvaluated(es[..|es| - 1], before)
  }

  ghost predicate EvaluatedIn(es: seq<Execution>, recordId: string) {
    exists i :: 0 <= i < |es| && es[i].outcome.Evaluated? && es[i].record.id == recordId
  }

  /** Over any run, the state of each rule names the record of the last execution both evaluated and committed,
      and each event names the record of such an execution. */
  lemma {:induction false} RecordsNamed(item: Item, b: Board, es: seq<Execution>, j: nat)
    requires j < |item.rules|
    ensures var (after, events) := Run(item, b, es);
      var id := item.rules[j].id;
      && StateIn(after.states, id).lastRecordId == LastEvaluated(es, StateIn(b.states, id).lastRecordId)
      && forall e :: e in events ==> EvaluatedIn(es, e.recordId)
  {
    hide ApplyRules, Seen, StateIn;
    if es != [] {
      var front, last := es[..|es| - 1], es[|es| - 1];
      var (before, events) := Run(item, b, front);
      RecordsNamed(item, b, front, j);
      forall recordId | EvaluatedIn(front, recordId)
        ensures EvaluatedIn(es, recordId)
      {
        var i :| 0 <= i < |front| && front[i].outcome.Evaluated? && front[i].record.id == recordId;
        assert es[i] == front[i];
      }
      if last.outcome.Evaluated? {
        StatesNamed(item.rules, Seen(item, before.stored, last.record), before.states, last.record.id, item.rules[j].id);
        EventsNamed(item.rules, Seen(item, before.stored, last.record), before.states, last.record.id);
        assert EvaluatedIn(es, last.record.id) by {
          assert es[|es| - 1] == last;
        }
      }
    }
  }

  lemma LastKnownAppend(verdicts: seq<Evaluation>, verdict: Evaluation, active: bool)
    ensures LastKnown(verdicts + [verdict], active)
         == if verdict.Determined? then verdict.holds else LastKnown(verdicts, active)
  {
    assert (verdicts + [verdict])[..|verdicts|] == verdicts;
  }

  /** A rule that asks for as many failures as its window is long says what the consecutive rule says. */
  lemma FullCountIsConsecutive(consecutive: Rule, count: Rule, samples: seq<Sample>)
    requires consecutive.kind == Consecutive && count.kind == Count
    requires count.window == consecutive.window == count.minimum
    ensures Verdict(consecutive, samples) == Verdict(count, samples)
  {
    if 1 <= count.window <= |samples| {
      AllAbnormal(samples[|samples| - count.window..]);
    }
  }

  lemma {:induction false} AllAbnormal(window: seq<Sample>)
    ensures CountAbnormal(window) == |window| <==> forall i :: 0 <= i < |window| ==> window[i].state == Failure
  {
    if window != [] {
      AllAbnormal(window[..|window| - 1]);
      assert forall i :: 0 <= i < |window| - 1 ==> window[..|window| - 1][i] == window[i];
    }
  }
}
