/**
 One enabled item of the status board, evaluated each time its monitor has run: a bounded number of
 records is fetched, turned over, extended by the new record, and filtered in place; each trend rule is
 evaluated on what is left, and its state changes on the edges.
 */
module StatusItems {
  import opened Wrappers
  import opened Samples
  import opened Trends

  datatype RuleState = RuleState(active: bool, lastRecordId: string)

  datatype Event = Event(ruleId: string, triggered: bool, recordId: string)

  datatype Item = Item(source: Source, rules: seq<Rule>, since: int)

  // ----- Fetching records -----

  const DEFAULT_PAGE_SIZE: nat := 20
  const MAX_PAGE_SIZE: nat := 100

  function PageSize(limit: int): nat { if limit < 1 || limit > MAX_PAGE_SIZE then DEFAULT_PAGE_SIZE else limit }

  function Suffix<T>(s: seq<T>, n: nat): seq<T> { if |s| <= n then s else s[|s| - n..] }

  function Reversed<T>(s: seq<T>): seq<T> { seq(|s|, i requires 0 <= i < |s| => s[|s| - 1 - i]) }

  /** The store's list of records, newest first. The stored records are in the order of their start. */
  function ListRecords(stored: seq<Record>, limit: int): seq<Record> { Reversed(Suffix(stored, PageSize(limit))) }

  method ReverseRecords(records: array<Record>)
    modifies records
    ensures records[..] == Reversed(old(records[..]))
  {
    var left, right := 0, records.Length - 1;
    while left < right
      invariant 0 <= left <= right + 1 && left + right == records.Length - 1
      invariant forall k :: 0 <= k < left ==> records[k] == old(records[records.Length - 1 - k])
      invariant forall k :: right < k < records.Length ==> records[k] == old(records[records.Length - 1 - k])
      invariant forall k :: left <= k <= right ==> records[k] == old(records[k])
    {
      records[left], records[right] := records[right], records[left];
      left, right := left + 1, right - 1;
    }
  }

  // ----- Filtering samples -----

  function Since(samples: seq<Sample>, since: int): (kept: seq<Sample>)
    ensures |kept| <= |samples|
  {
    if samples == [] then []
    else
      var last := samples[|samples| - 1];
      Since(samples[..|samples| - 1], since) + if last.startedAt < since then [] else [last]
  }

  /** Compaction within the array itself: the first n places hold what is kept. */
  method KeepSince(samples: array<Sample>, since: int) returns (n: nat)
    modifies samples
    ensures n <= samples.Length && samples[..n] == Since(old(samples[..]), since)
  {
    n := 0;
    ghost var was := samples[..];
    for i := 0 to samples.Length
      invariant n <= i && samples[..n] == Since(was[..i], since)
      invariant forall k :: i <= k < samples.Length ==> samples[k] == was[k]
    {
      assert was[..i + 1][..i] == was[..i];
      if samples[i].startedAt >= since {
        samples[n] := samples[i];
        n := n + 1;
      }
    }
    assert was[..samples.Length] == was;
  }

  // ----- Rules -----

  function StateIn(states: map<string, RuleState>, id: string): RuleState {
    if id in states then states[id] else RuleState(false, "")
  }

  /** A rule is triggered and recovers on the edges of its verdict; without a verdict it stays as it is. */
  function Edge(active: bool, evaluation: Evaluation): Option<bool> {
    if evaluation.Determined? && evaluation.holds != active then Some(evaluation.holds) else None
  }

  ghost function ApplyRules(rules: seq<Rule>, samples: seq<Sample>, states: map<string, RuleState>, recordId: string)
    : (map<string, RuleState>, seq<Event>)
  {
    if rules == [] then (states, [])
    else
      var rule := rules[|rules| - 1];
      var (before, events) := ApplyRules(rules[..|rules| - 1], samples, states, recordId);
      var edge := Edge(StateIn(before, rule.id).active, Verdict(rule, samples));
      (before[rule.id := RuleState(if edge.Some? then edge.value else StateIn(before, rule.id).active, recordId)],
       if edge.Some? then events + [Event(rule.id, edge.value, recordId)] else events)
  }

  function MaxWindow(rules: seq<Rule>): (w: int)
    ensures w >= 1 && forall i :: 0 <= i < |rules| ==> rules[i].window <= w
  {
    if rules == [] then 1
    else
      var before := MaxWindow(rules[..|rules| - 1]);
      var rule := rules[|rules| - 1];
      assert forall i :: 0 <= i < |rules| - 1 ==> rules[..|rules| - 1][i] == rules[i];
      if rule.window > before then rule.window else before
  }

  /** The records an evaluation looks at. */
  function Fetched(rules: seq<Rule>, stored: seq<Record>, current: Record): seq<Record> {
    Suffix(stored, PageSize(MaxWindow(rules) - 1)) + [current]
  }

  ghost function Seen(item: Item, stored: seq<Record>, current: Record): seq<Sample> {
    Since(Built(item.source, Fetched(item.rules, stored, current)), item.since)
  }

  method LargestWindow(rules: seq<Rule>) returns (maxWindow: int)
    ensures maxWindow == MaxWindow(rules)
  {
    maxWindow := 1;
    for i := 0 to |rules|
      invariant maxWindow == MaxWindow(rules[..i])
    {
      assert rules[..i + 1][..i] == rules[..i];
      if rules[i].window > maxWindow {
        maxWindow := rules[i].window;
      }
    }
    assert rules[..|rules|] == rules;
  }

  method EvaluateItem(item: Item, states: map<string, RuleState>, stored: seq<Record>, current: Record)
    returns (after: map<string, RuleState>, events: seq<Event>)
    ensures (after, events) == ApplyRules(item.rules, Seen(item, stored, current), states, current.id)
  {
    hide MaxWindow;
    hide ApplyRules;
    hide BuildSample;
    hide Suffix;
    hide Since;
    var maxWindow := LargestWindow(item.rules);
    var records := FetchRecords(stored, maxWindow - 1, current);
    var samples := BuildSamples(item.source, records);
    ghost var built := samples[..];
    var n := KeepSince(samples, item.since);
    SinceKeepsAllButHeight(Built(item.source, records), built, item.since);
    after, events := EvaluateRules(item, states, samples[..n], current, Seen(item, stored, current));
  }

  /** The listed records turned over, and the new one behind them. */
  method FetchRecords(stored: seq<Record>, limit: int, current: Record) returns (records: seq<Record>)
    ensures records == Suffix(stored, PageSize(limit)) + [current]
  {
    var listed := ListRecords(stored, limit);
    var previous := new Record[|listed|](i requires 0 <= i < |listed| => listed[i]);
    assert previous[..] == listed;
    ReverseRecords(previous);
    records := previous[..] + [current];
  }

  method EvaluateRules(
      item: Item, states: map<string, RuleState>, samples: seq<Sample>, current: Record, ghost unscaled: seq<Sample>)
    returns (after: map<string, RuleState>, events: seq<Event>)
    requires SameButHeight(unscaled, samples)
    ensures (after, events) == ApplyRules(item.rules, unscaled, states, current.id)
  {
    after, events := states, [];
    for i := 0 to |item.rules|
      invariant (after, events) == ApplyRules(item.rules[..i], unscaled, states, current.id)
    {
      assert item.rules[..i + 1][..i] == item.rules[..i];
      var rule := item.rules[i];
      var evaluation := EvaluateTrend(rule, samples);
      VerdictIgnoresHeight(rule, unscaled, samples);
      var state := StateIn(after, rule.id);
      if evaluation.Determined? && evaluation.holds && !state.active {
        state := state.(active := true);
        events := events + [Event(rule.id, true, current.id)];
      } else if evaluation.Determined? && !evaluation.holds && state.active {
        state := state.(active := false);
        events := events + [Event(rule.id, false, current.id)];
      }
      after := after[rule.id := state.(lastRecordId := current.id)];
    }
    assert item.rules[..|item.rules|] == item.rules;
  }

  // ----- All items of a monitor -----

  datatype BoardItem = BoardItem(id: string, enabled: bool, item: Item, states: map<string, RuleState>)

  datatype BoardEvent = BoardEvent(itemId: string, event: Event)

  datatype BoardEvaluation = BoardEvaluation(states: map<string, map<string, RuleState>>, events: seq<BoardEvent>)

  function Labelled(itemId: string, events: seq<Event>): seq<BoardEvent> {
    seq(|events|, i requires 0 <= i < |events| => BoardEvent(itemId, events[i]))
  }

  ghost function EvaluatedItem(b: BoardItem, stored: seq<Record>, current: Record): (map<string, RuleState>, seq<Event>) {
    ApplyRules(b.item.rules, Seen(b.item, stored, current), b.states, current.id)
  }

  /** The enabled items, one after the other. */
  ghost function EvaluatedItems(items: seq<BoardItem>, stored: seq<Record>, current: Record): BoardEvaluation {
    if items == [] then BoardEvaluation(map[], [])
    else
      var before, last := EvaluatedItems(items[..|items| - 1], stored, current), items[|items| - 1];
      if !last.enabled then before
      else
        var (states, events) := EvaluatedItem(last, stored, current);
        BoardEvaluation(before.states[last.id := states], before.events + Labelled(last.id, events))
  }

  /** The evaluation for one execution. If the records cannot be listed for one enabled item, there is no
      evaluation of any. */
  method EvaluateExecution(items: seq<BoardItem>, stored: seq<Record>, current: Record, listed: seq<bool>)
    returns (evaluation: Option<BoardEvaluation>)
    requires |listed| == |items|
    ensures evaluation.None? <==> exists i :: 0 <= i < |items| && items[i].enabled && !listed[i]
    ensures evaluation.Some? ==> evaluation.value == EvaluatedItems(items, stored, current)
  {
    hide ApplyRules;
    hide Seen;
    var result := BoardEvaluation(map[], []);
    for i := 0 to |items|
      invariant forall k :: 0 <= k < i && items[k].enabled ==> listed[k]
      invariant result == EvaluatedItems(items[..i], stored, current)
    {
      assert items[..i + 1][..i] == items[..i];
      var b := items[i];
      if !b.enabled {
        continue;
      }
      if !listed[i] {
        return None;
      }
      var states, events := EvaluateItem(b.item, b.states, stored, current);
      result := BoardEvaluation(result.states[b.id := states], result.events + Labelled(b.id, events));
    }
    assert items[..|items|] == items;
    return Some(result);
  }

  /** The events of one item. */
  ghost function EventsIn(events: seq<BoardEvent>, itemId: string): seq<Event> {
    if events == [] then []
    else
      var last := events[|events| - 1];
      EventsIn(events[..|events| - 1], itemId) + if last.itemId == itemId then [last.event] else []
  }

  lemma {:induction false} EventsInLabelled(before: seq<BoardEvent>, itemId: string, events: seq<Event>, id: string)
    ensures EventsIn(before + Labelled(itemId, events), id) == EventsIn(before, id) + if id == itemId then events else []
  {
    var all := before + Labelled(itemId, events);
    if events == [] {
      assert all == before;
    } else {
      var n := |events| - 1;
      assert all[..|all| - 1] == before + Labelled(itemId, events[..n]);
      EventsInLabelled(before, itemId, events[..n], id);
    }
  }

  /** What the last item adds. */
  lemma LastItem(items: seq<BoardItem>, stored: seq<Record>, current: Record, id: string)
    requires items != []
    ensures var last := items[|items| - 1];
      var before, all := EvaluatedItems(items[..|items| - 1], stored, current), EvaluatedItems(items, stored, current);
      if last.enabled && last.id == id then
        && id in all.states
        && all.states[id] == EvaluatedItem(last, stored, current).0
        && EventsIn(all.events, id) == EventsIn(before.events, id) + EvaluatedItem(last, stored, current).1
      else
        && (id in all.states <==> id in before.states)
        && (id in all.states ==> all.states[id] == before.states[id])
        && EventsIn(all.events, id) == EventsIn(before.events, id)
  {
    hide EvaluatedItem;
    var before, last := EvaluatedItems(items[..|items| - 1], stored, current), items[|items| - 1];
    if last.enabled {
      EventsInLabelled(before.events, last.id, EvaluatedItem(last, stored, current).1, id);
      assert EventsIn(before.events, id) + [] == EventsIn(before.events, id);
    }
  }

  ghost predicate IsEnabled(items: seq<BoardItem>, id: string) {
    exists i :: 0 <= i < |items| && items[i].id == id && items[i].enabled
  }

  /** Each enabled item gets what it would get alone, and no other item has states or events. */
  lemma {:induction false} EachItemOnItsOwn(items: seq<BoardItem>, stored: seq<Record>, current: Record, id: string)
    requires forall i, j :: 0 <= i < j < |items| ==> items[i].id != items[j].id
    ensures var all := EvaluatedItems(items, stored, current);
      && (id in all.states <==> IsEnabled(items, id))
      && (id !in all.states ==> EventsIn(all.events, id) == [])
      && forall i :: 0 <= i < |items| && items[i].id == id && items[i].enabled ==>
           all.states[id] == EvaluatedItem(items[i], stored, current).0
           && EventsIn(all.events, id) == EvaluatedItem(items[i], stored, current).1
  {
    hide EvaluatedItems;
    hide EvaluatedItem;
    hide EventsIn;
    if items == [] {
      NoItems(stored, current, id);
    } else {
      var front, last := items[..|items| - 1], items[|items| - 1];
      EachItemOnItsOwn(front, stored, current, id);
      LastItem(items, stored, current, id);
      OneMoreItem(items, id);
      var events := EvaluatedItem(last, stored, current).1;
      assert [] + events == events;
    }
  }

  lemma NoItems(stored: seq<Record>, current: Record, id: string)
    ensures EvaluatedItems([], stored, current) == BoardEvaluation(map[], []) && EventsIn([], id) == []
  {
  }

  lemma OneMoreItem(items: seq<BoardItem>, id: string)
    requires items != [] && forall i, j :: 0 <= i < j < |items| ==> items[i].id != items[j].id
    ensures var front, last := items[..|items| - 1], items[|items| - 1];
      && (IsEnabled(items, id) <==> IsEnabled(front, id) || (last.id == id && last.enabled))
      && (last.id == id ==> !IsEnabled(front, id))
  {
    var front := items[..|items| - 1];
    assert forall i :: 0 <= i < |front| ==> front[i] == items[i];
  }

  lemma {:induction false} SinceKeepsAllButHeight(before: seq<Sample>, after: seq<Sample>, since: int)
    requires SameButHeight(before, after)
    ensures SameButHeight(Since(before, since), Since(after, since))
  {
    if before != [] {
      SinceKeepsAllButHeight(before[..|before| - 1], after[..|after| - 1], since);
    }
  }

  lemma {:induction false} CountIgnoresHeight(before: seq<Sample>, after: seq<Sample>)
    requires SameButHeight(before, after)
    ensures CountAbnormal(before) == CountAbnormal(after)
  {
    if before != [] {
      CountIgnoresHeight(before[..|before| - 1], after[..|after| - 1]);
    }
  }

  /** The scaling of the bars has no influence on a rule. */
  lemma VerdictIgnoresHeight(rule: Rule, before: seq<Sample>, after: seq<Sample>)
    requires SameButHeight(before, after)
    ensures Verdict(rule, before) == Verdict(rule, after)
  {
    if 1 <= rule.window <= |before| {
      var w, v := before[|before| - rule.window..], after[|after| - rule.window..];
      assert SameButHeight(w, v);
      assert forall i :: 0 <= i < |w| ==> w[i].state == v[i].state && w[i].numeric == v[i].numeric;
      CountIgnoresHeight(w, v);
      if AllNumeric(w) {
        assert Numbers(w) == Numbers(v);
      }
    }
  }
}
