/**
 The condition of a monitor from one execution to the next: its verdict moves the stored state and gives
 rise to an event, which is committed with the record, and with the pending deliveries, or not at all.
 */
module ConditionRuns {
  import opened Alternation
  import opened Deliveries
  import opened DeliveryLoading
  import opened Wrappers

  datatype Verdict = True | False | Unknown

  datatype Change = NoChange | Triggered | Recovered

  /** A notification about to be sent: its event, and the channels it goes to. */
  datatype Pending = Pending(id: string, eventType: string, detail: string, channelIds: seq<string>)

  function EventType(change: Change): string {
    match change
    case NoChange => "none"
    case Triggered => "triggered"
    case Recovered => "recovered"
  }

  function ConditionState(verdict: Verdict): string {
    match verdict
    case True => "true"
    case False => "false"
    case Unknown => "unknown"
  }

  /** The new state, and the event, under the policy to notify every time or once. */
  function ConditionStep(every: bool, active: bool, verdict: Verdict): (bool, Change) {
    match verdict
    case True => (true, if every || !active then Triggered else NoChange)
    case False => (false, if active then Recovered else NoChange)
    case Unknown => (active, NoChange)
  }

  ghost function PendingEvent(p: Pending): Event {
    Event(p.id, p.eventType, p.detail, map c | c in p.channelIds :: PENDING)
  }

  method PendingRecordEvents(pending: seq<Pending>) returns (events: seq<Event>)
    ensures |events| == |pending| && forall i :: 0 <= i < |events| ==> events[i] == PendingEvent(pending[i])
  {
    events := [];
    for i := 0 to |pending|
      invariant |events| == i && forall k :: 0 <= k < i ==> events[k] == PendingEvent(pending[k])
    {
      var value := pending[i];
      var deliveries: map<string, Delivery> := map[];
      for j := 0 to |value.channelIds|
        invariant deliveries == map c | c in value.channelIds[..j] :: PENDING
      {
        assert value.channelIds[..j + 1] == value.channelIds[..j] + [value.channelIds[j]];
        deliveries := deliveries[value.channelIds[j] := PENDING];
      }
      assert value.channelIds[..|value.channelIds|] == value.channelIds;
      events := events + [Event(value.id, value.eventType, value.detail, deliveries)];
    }
  }

  /** An execution about to be committed: whose it is, what it found, and what comes with it. */
  datatype Execution = Execution(
    monitorId: string, every: bool, verdict: Verdict, recordId: string, condition: Pending, board: seq<Pending>,
    itemStates: map<string, string>)

  ghost function PendingEvents(pending: seq<Pending>): seq<Event> {
    seq(|pending|, i requires 0 <= i < |pending| => PendingEvent(pending[i]))
  }

  function AllPending(e: Execution, change: Change): seq<Pending> {
    (if change == NoChange then [] else [e.condition.(eventType := EventType(change))]) + e.board
  }

  /** The record of an execution: its verdict, and the event that this gives rise to in the state so far. */
  ghost function RecordOf(e: Execution, active: bool): Record {
    var change := ConditionStep(e.every, active, e.verdict).1;
    Record(e.recordId, e.monitorId, ConditionState(e.verdict), EventType(change), PendingEvents(AllPending(e, change)))
  }

  ghost function AfterExecution(t: Tables, e: Execution): Tables
    requires e.monitorId in t.monitors
  {
    var active := t.monitors[e.monitorId].active;
    AfterCommit(t, RecordOf(e, active), e.monitorId,
      MonitorState(ConditionStep(e.every, active, e.verdict).0, e.recordId), e.itemStates)
  }

  /** The end of an execution: the state and the event, and one commit for all that follows from them. */
  method RunLocked(store: RecordStore, e: Execution, commits: bool) returns (committed: bool, record: Record)
    requires e.monitorId in store.monitors
    modifies store
    ensures record == RecordOf(e, old(store.monitors[e.monitorId]).active)
    ensures committed <==> commits && CanCommit(old(store.Now()), record, e.monitorId, e.itemStates)
    ensures store.Now() == if committed then AfterExecution(old(store.Now()), e) else old(store.Now())
  {
    hide WithPending;
    hide ClashFree;
    var previousActive := store.monitors[e.monitorId].active;
    var active, change := previousActive, NoChange;
    if e.verdict == True {
      active := true;
      if e.every || !previousActive {
        change := Triggered;
      }
    } else if e.verdict == False {
      active := false;
      if previousActive {
        change := Recovered;
      }
    }
    var pending: seq<Pending> := [];
    if change != NoChange {
      pending := pending + [e.condition.(eventType := EventType(change))];
    }
    pending := pending + e.board;
    assert pending == AllPending(e, change);
    var events := PendingRecordEvents(pending);
    assert events == PendingEvents(pending);
    record := Record(e.recordId, e.monitorId, ConditionState(e.verdict), EventType(change), events);
    committed := store.CommitMonitorExecution(record, e.monitorId, MonitorState(active, e.recordId), e.itemStates, commits);
  }

  /** With new event ids the record of an execution loads as it was. */
  lemma ExecutionLoads(t: Tables, e: Execution)
    requires e.monitorId in t.monitors && Fresh(t.deliveries, RecordOf(e, t.monitors[e.monitorId].active).events)
    ensures var after, record := AfterExecution(t, e), RecordOf(e, t.monitors[e.monitorId].active);
      record.id in after.records && Hydrated(after.deliveries, after.records[record.id]) == record
  {
    CommitThenLoad(t.deliveries, RecordOf(e, t.monitors[e.monitorId].active));
  }

  // ----- The machine -----

  /** State and events of a sequence of verdicts. */
  ghost function Fold(every: bool, active: bool, verdicts: seq<Verdict>): (bool, seq<Change>) {
    if verdicts == [] then (active, [])
    else
      var (before, changes) := Fold(every, active, verdicts[..|verdicts| - 1]);
      var (after, change) := ConditionStep(every, before, verdicts[|verdicts| - 1]);
      (after, changes + [change])
  }

  lemma FoldAppend(every: bool, active: bool, verdicts: seq<Verdict>, verdict: Verdict)
    ensures var (before, changes) := Fold(every, active, verdicts);
      var (after, change) := ConditionStep(every, before, verdict);
      Fold(every, active, verdicts + [verdict]) == (after, changes + [change])
  {
    assert (verdicts + [verdict])[..|verdicts|] == verdicts;
  }

  ghost function LastKnown(verdicts: seq<Verdict>, active: bool): bool {
    if verdicts == [] then active
    else if verdicts[|verdicts| - 1] == Unknown then LastKnown(verdicts[..|verdicts| - 1], active)
    else verdicts[|verdicts| - 1] == True
  }

  /** Under either policy the state is the last verdict that was known. */
  lemma {:induction false} ActiveIsLastKnown(every: bool, active: bool, verdicts: seq<Verdict>)
    ensures Fold(every, active, verdicts).0 == LastKnown(verdicts, active)
  {
    if verdicts != [] {
      ActiveIsLastKnown(every, active, verdicts[..|verdicts| - 1]);
    }
  }

  /** The events alone: on where the condition was triggered, off where it recovered. */
  ghost function Edges(changes: seq<Change>): seq<bool> {
    if changes == [] then []
    else
      var last := changes[|changes| - 1];
      Edges(changes[..|changes| - 1]) + if last == NoChange then [] else [last == Triggered]
  }

  lemma EdgesAppend(changes: seq<Change>, change: Change)
    ensures Edges(changes + [change]) == Edges(changes) + if change == NoChange then [] else [change == Triggered]
  {
    assert (changes + [change])[..|changes|] == changes;
  }

  /** Under the policy to notify once, the events strictly alternate, and the last one tells the state. */
  lemma {:induction false} OnceAlternates(active: bool, verdicts: seq<Verdict>)
    ensures var (after, changes) := Fold(false, active, verdicts);
      Alternates(Edges(changes), active) && FinalState(Edges(changes), active) == after
  {
    hide Alternates;
    hide FinalState;
    if verdicts == [] {
      NothingAlternates(active);
    } else {
      var (before, changes) := Fold(false, active, verdicts[..|verdicts| - 1]);
      OnceAlternates(active, verdicts[..|verdicts| - 1]);
      var change := ConditionStep(false, before, verdicts[|verdicts| - 1]).1;
      EdgesAppend(changes, change);
      if change == NoChange {
        assert Edges(changes) + [] == Edges(changes);
      } else {
        OneMore(Edges(changes), active, change == Triggered);
      }
    }
  }

  lemma NothingAlternates(active: bool)
    ensures Alternates(Edges([]), active) && FinalState(Edges([]), active) == active
  {
  }

  /** No recovery without the condition having been triggered since the last one. */
  ghost predicate RecoversAfterTrigger(edges: seq<bool>, start: bool) {
    forall k :: 0 <= k < |edges| ==> AfterTrigger(edges, start, k)
  }

  ghost predicate AfterTrigger(edges: seq<bool>, start: bool, k: int)
    requires 0 <= k < |edges|
  {
    edges[k] || (if k == 0 then start else edges[k - 1])
  }

  /** Under the policy to notify every time, an event for each verdict that the condition is met, and never
      two recoveries in a row. */
  lemma {:induction false} EveryNotifiesEachTime(active: bool, verdicts: seq<Verdict>)
    ensures var (after, changes) := Fold(true, active, verdicts);
      && |changes| == |verdicts|
      && (forall i :: 0 <= i < |changes| ==> (changes[i] == Triggered <==> verdicts[i] == True))
      && RecoversAfterTrigger(Edges(changes), active)
      && FinalState(Edges(changes), active) == after
  {
    if verdicts != [] {
      var (before, changes) := Fold(true, active, verdicts[..|verdicts| - 1]);
      EveryNotifiesEachTime(active, verdicts[..|verdicts| - 1]);
      var change := ConditionStep(true, before, verdicts[|verdicts| - 1]).1;
      EdgesAppend(changes, change);
      RecoveryStep(Edges(changes), active, before, change);
    }
  }

  lemma RecoveryStep(edges: seq<bool>, start: bool, before: bool, change: Change)
    requires RecoversAfterTrigger(edges, start) && FinalState(edges, start) == before
    requires change == Recovered ==> before
    ensures var longer := edges + if change == NoChange then [] else [change == Triggered];
      && RecoversAfterTrigger(longer, start)
      && FinalState(longer, start) == (if change == NoChange then before else change == Triggered)
  {
    if change == NoChange {
      assert edges + [] == edges;
    } else {
      var longer := edges + [change == Triggered];
      forall k | 0 <= k < |longer|
        ensures AfterTrigger(longer, start, k)
      {
        assert k < |edges| ==> AfterTrigger(edges, start, k);
      }
    }
  }

  // ----- Runs over the tables -----

  /** An execution of some monitor that commits or not, or the outcomes of some record's deliveries. */
  datatype Step =
    | Execute(e: Execution, commits: bool)
    | Outcomes(id: string, events: seq<Event>, commits: bool)

  ghost function Next(t: Tables, step: Step): Tables {
    match step
    case Execute(e, commits) =>
      if e.monitorId in t.monitors && commits
         && CanCommit(t, RecordOf(e, t.monitors[e.monitorId].active), e.monitorId, e.itemStates)
      then AfterExecution(t, e) else t
    case Outcomes(id, events, commits) => if commits then AfterOutcomes(t, id, events) else t
  }

  ghost function Run(t: Tables, steps: seq<Step>): Tables {
    if steps == [] then t else Next(Run(t, steps[..|steps| - 1]), steps[|steps| - 1])
  }

  /** The stored records of a monitor, in the order in which they were stored. */
  ghost function RecordsOf(records: map<string, Record>, order: seq<string>, monitorId: string): seq<Record> {
    if order == [] then []
    else
      var last := order[|order| - 1];
      RecordsOf(records, order[..|order| - 1], monitorId)
      + if last in records && records[last].monitorId == monitorId then [records[last]] else []
  }

  ghost function VerdictOf(record: Record): Verdict {
    if record.conditionState == "true" then True else if record.conditionState == "false" then False else Unknown
  }

  ghost function VerdictsOf(records: seq<Record>): seq<Verdict> {
    seq(|records|, i requires 0 <= i < |records| => VerdictOf(records[i]))
  }

  ghost function EventTypesOf(records: seq<Record>): seq<string> {
    seq(|records|, i requires 0 <= i < |records| => records[i].eventType)
  }

  function EventTypes(changes: seq<Change>): seq<string> {
    seq(|changes|, i requires 0 <= i < |changes| => EventType(changes[i]))
  }

  /** The state of a monitor and the events in its records are what its recorded verdicts make of them. */
  ghost predicate IsFold(t: Tables, monitorId: string, every: bool, active: bool)
    requires monitorId in t.monitors
  {
    var records := RecordsOf(t.records, t.order, monitorId);
    var (after, changes) := Fold(every, active, VerdictsOf(records));
    t.monitors[monitorId].active == after && EventTypesOf(records) == EventTypes(changes)
  }

  ghost predicate OrderSound(t: Tables) { forall k :: 0 <= k < |t.order| ==> t.order[k] in t.records }

  lemma {:induction false} NewRecord(records: map<string, Record>, order: seq<string>, r: Record, monitorId: string)
    requires r.id !in records && forall k :: 0 <= k < |order| ==> order[k] in records
    ensures RecordsOf(records[r.id := r], order + [r.id], monitorId)
         == RecordsOf(records, order, monitorId) + if r.monitorId == monitorId then [r] else []
  {
    NewRecordUnlisted(records, order, r, monitorId);
    assert (order + [r.id])[..|order|] == order;
  }

  lemma {:induction false} NewRecordUnlisted(records: map<string, Record>, order: seq<string>, r: Record, monitorId: string)
    requires r.id !in records && forall k :: 0 <= k < |order| ==> order[k] in records
    ensures RecordsOf(records[r.id := r], order, monitorId) == RecordsOf(records, order, monitorId)
  {
    if order != [] {
      NewRecordUnlisted(records, order[..|order| - 1], r, monitorId);
    }
  }

  /** The outcomes of deliveries touch neither verdicts nor event types. */
  lemma {:induction false} OutcomesKeepVerdicts(t: Tables, id: string, events: seq<Event>, order: seq<string>, monitorId: string)
    ensures var before, after := RecordsOf(t.records, order, monitorId), RecordsOf(AfterOutcomes(t, id, events).records, order, monitorId);
      VerdictsOf(after) == VerdictsOf(before) && EventTypesOf(after) == EventTypesOf(before)
  {
    if order != [] {
      var front, last := order[..|order| - 1], order[|order| - 1];
      var after := AfterOutcomes(t, id, events).records;
      OutcomesKeepVerdicts(t, id, events, front, monitorId);
      if last in t.records && t.records[last].monitorId == monitorId {
        ReadAppend(RecordsOf(t.records, front, monitorId), t.records[last]);
        ReadAppend(RecordsOf(after, front, monitorId), after[last]);
      } else {
        assert RecordsOf(t.records, front, monitorId) + [] == RecordsOf(t.records, front, monitorId);
        assert RecordsOf(after, front, monitorId) + [] == RecordsOf(after, front, monitorId);
      }
    }
  }

  lemma ReadAppend(records: seq<Record>, r: Record)
    ensures VerdictsOf(records + [r]) == VerdictsOf(records) + [VerdictOf(r)]
    ensures EventTypesOf(records + [r]) == EventTypesOf(records) + [r.eventType]
  {
  }

  lemma RecordedVerdict(e: Execution, active: bool)
    ensures var record := Stored(RecordOf(e, active));
      VerdictOf(record) == e.verdict && record.eventType == EventType(ConditionStep(e.every, active, e.verdict).1)
  {
  }

  lemma FoldOneMore(every: bool, active: bool, records: seq<Record>, r: Record)
    requires EventTypesOf(records) == EventTypes(Fold(every, active, VerdictsOf(records)).1)
    requires r.eventType == EventType(ConditionStep(every, Fold(every, active, VerdictsOf(records)).0, VerdictOf(r)).1)
    ensures Fold(every, active, VerdictsOf(records + [r])).0
         == ConditionStep(every, Fold(every, active, VerdictsOf(records)).0, VerdictOf(r)).0
    ensures EventTypesOf(records + [r]) == EventTypes(Fold(every, active, VerdictsOf(records + [r])).1)
  {
    hide Fold;
    FoldAppend(every, active, VerdictsOf(records), VerdictOf(r));
    ReadAppend(records, r);
    var changes := Fold(every, active, VerdictsOf(records)).1;
    var change := ConditionStep(every, Fold(every, active, VerdictsOf(records)).0, VerdictOf(r)).1;
    assert EventTypes(changes + [change]) == EventTypes(changes) + [EventType(change)];
  }

  lemma ExecutionKeepsFold(t: Tables, e: Execution, monitorId: string, every: bool, active: bool)
    requires OrderSound(t) && monitorId in t.monitors && IsFold(t, monitorId, every, active)
    requires e.monitorId in t.monitors && RecordOf(e, t.monitors[e.monitorId].active).id !in t.records
    requires e.monitorId == monitorId ==> e.every == every
    ensures IsFold(AfterExecution(t, e), monitorId, every, active)
  {
    hide Fold;
    hide RecordsOf;
    hide WithPending;
    var record := Stored(RecordOf(e, t.monitors[e.monitorId].active));
    NewRecord(t.records, t.order, record, monitorId);
    var records := RecordsOf(t.records, t.order, monitorId);
    if e.monitorId == monitorId {
      RecordedVerdict(e, t.monitors[e.monitorId].active);
      FoldOneMore(every, active, records, record);
    } else {
      assert records + [] == records;
    }
  }

  lemma StepKeepsFold(t: Tables, step: Step, monitorId: string, every: bool, active: bool)
    requires OrderSound(t) && monitorId in t.monitors && IsFold(t, monitorId, every, active)
    requires step.Execute? && step.e.monitorId == monitorId ==> step.e.every == every
    ensures var after := Next(t, step);
      OrderSound(after) && monitorId in after.monitors && IsFold(after, monitorId, every, active)
  {
    hide Fold;
    hide RecordsOf;
    hide WithPending;
    hide WithOutcomes;
    hide ClashFree;
    hide IsFold;
    if step.Execute? {
      if Next(t, step) != t {
        ExecutionKeepsFold(t, step.e, monitorId, every, active);
      }
    } else if step.commits {
      OutcomesKeepFold(t, step.id, step.events, monitorId, every, active);
    }
  }

  lemma OutcomesKeepFold(t: Tables, id: string, events: seq<Event>, monitorId: string, every: bool, active: bool)
    requires monitorId in t.monitors && IsFold(t, monitorId, every, active)
    ensures IsFold(AfterOutcomes(t, id, events), monitorId, every, active)
  {
    hide Fold;
    hide RecordsOf;
    hide WithOutcomes;
    OutcomesKeepVerdicts(t, id, events, t.order, monitorId);
  }

  /** The policy of a monitor does not change in the run. */
  ghost predicate SamePolicy(steps: seq<Step>, monitorId: string, every: bool) {
    forall i :: 0 <= i < |steps| && steps[i].Execute? && steps[i].e.monitorId == monitorId ==> steps[i].e.every == every
  }

  /** After any executions of any monitors, committed or not, and any outcomes of deliveries, the stored
      state of a monitor is the fold of the machine over the verdicts in exactly its stored records, in the
      order in which they were stored, and their event types are the events of that fold. */
  lemma {:induction false} StateIsFold(t: Tables, steps: seq<Step>, monitorId: string, every: bool)
    requires t.records == map[] && t.order == [] && monitorId in t.monitors && SamePolicy(steps, monitorId, every)
    ensures var after := Run(t, steps);
      OrderSound(after) && monitorId in after.monitors && IsFold(after, monitorId, every, t.monitors[monitorId].active)
  {
    if steps == [] {
      assert RecordsOf(t.records, t.order, monitorId) == [];
    } else {
      var front, last := steps[..|steps| - 1], steps[|steps| - 1];
      assert forall i :: 0 <= i < |front| ==> front[i] == steps[i];
      StateIsFold(t, front, monitorId, every);
      StepKeepsFold(Run(t, front), last, monitorId, every, t.monitors[monitorId].active);
    }
  }

  /** The trigger and recovery events in some records: true for a trigger, false for a recovery. */
  ghost function RecordedEdges(records: seq<Record>): seq<bool> {
    if records == [] then []
    else
      var last := records[|records| - 1].eventType;
      RecordedEdges(records[..|records| - 1]) + if last == "none" then [] else [last == "triggered"]
  }

  lemma {:induction false} EdgesRecorded(records: seq<Record>, changes: seq<Change>)
    requires EventTypesOf(records) == EventTypes(changes)
    ensures RecordedEdges(records) == Edges(changes)
  {
    assert |records| == |EventTypesOf(records)| == |changes|;
    if records != [] {
      var n := |records| - 1;
      assert EventTypesOf(records)[n] == EventTypes(changes)[n];
      assert EventTypesOf(records[..n]) == EventTypesOf(records)[..n] == EventTypes(changes)[..n] == EventTypes(changes[..n]);
      EdgesRecorded(records[..n], changes[..n]);
    }
  }

  /** Under the policy to notify once, the events in a monitor's stored records strictly alternate, over
      any run, and the last of them tells its stored state. */
  lemma RecordedEventsAlternate(t: Tables, steps: seq<Step>, monitorId: string)
    requires t.records == map[] && t.order == [] && monitorId in t.monitors && SamePolicy(steps, monitorId, false)
    ensures var after, start := Run(t, steps), t.monitors[monitorId].active;
      var edges := RecordedEdges(RecordsOf(after.records, after.order, monitorId));
      && Alternates(edges, start)
      && monitorId in after.monitors && after.monitors[monitorId].active == FinalState(edges, start)
  {
    hide Run;
    hide RecordsOf;
    hide Fold;
    hide Alternates;
    StateIsFold(t, steps, monitorId, false);
    var after, start := Run(t, steps), t.monitors[monitorId].active;
    var records := RecordsOf(after.records, after.order, monitorId);
    EdgesRecorded(records, Fold(false, start, VerdictsOf(records)).1);
    OnceAlternates(start, VerdictsOf(records));
  }
}
