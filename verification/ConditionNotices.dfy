/**
 Which executions notify, and whom: over whole runs of `ConditionRuns`, the events that a stored record carries
 and the delivery rows that belong to it, from the verdict of its execution and the state before it.
 */
module ConditionNotices {
  import opened ConditionRuns
  import opened Deliveries
  import opened DeliveryLoading

  /** The condition has changed, or it is met and every time counts. */
  ghost predicate Notifies(e: Execution, active: bool) {
    (e.verdict == True && (e.every || !active)) || (e.verdict == False && active)
  }

  ghost predicate IsNotice(event: Event, p: Pending, eventType: string) {
    event.id == p.id && event.eventType == eventType && event.detail == p.detail
  }

  /** The event of the condition, if there is to be one, and then all events of the board. */
  ghost predicate Carries(record: Record, e: Execution, active: bool) {
    var first := if Notifies(e, active) then 1 else 0;
    && |record.events| == first + |e.board|
    && (first == 1 ==> IsNotice(record.events[0], e.condition, if e.verdict == True then "triggered" else "recovered"))
    && forall i :: 0 <= i < |e.board| ==> IsNotice(record.events[first + i], e.board[i], e.board[i].eventType)
  }

  /** A delivery that the execution asks for. */
  ghost predicate AsksFor(e: Execution, active: bool, k: Key) {
    || (Notifies(e, active) && k.eventId == e.condition.id && k.channelId in e.condition.channelIds)
    || (exists i :: 0 <= i < |e.board| && k.eventId == e.board[i].id && k.channelId in e.board[i].channelIds)
  }

  ghost predicate Commits(t: Tables, step: Step) {
    && step.Execute? && step.e.monitorId in t.monitors && step.commits
    && CanCommit(t, RecordOf(step.e, t.monitors[step.e.monitorId].active), step.e.monitorId, step.e.itemStates)
  }

  // ----- One execution -----

  ghost function Notice(p: Pending, eventType: string): Event {
    Event(p.id, eventType, p.detail, map c | c in p.channelIds :: PENDING)
  }

  lemma PendingListed(e: Execution, active: bool)
    ensures var pending := ConditionRuns.AllPending(e, ConditionStep(e.every, active, e.verdict).1);
      var first := if Notifies(e, active) then 1 else 0;
      && |pending| == first + |e.board|
      && (first == 1 ==> pending[0] == e.condition.(eventType := if e.verdict == True then "triggered" else "recovered"))
      && forall i :: 0 <= i < |e.board| ==> pending[first + i] == e.board[i]
  {
  }

  lemma EventsListed(e: Execution, active: bool)
    ensures var events := RecordOf(e, active).events;
      var first := if Notifies(e, active) then 1 else 0;
      && |events| == first + |e.board|
      && (first == 1 ==> events[0] == Notice(e.condition, if e.verdict == True then "triggered" else "recovered"))
      && forall i :: 0 <= i < |e.board| ==> events[first + i] == Notice(e.board[i], e.board[i].eventType)
  {
    hide ConditionRuns.AllPending, ConditionStep, Notifies;
    PendingListed(e, active);
    var pending := ConditionRuns.AllPending(e, ConditionStep(e.every, active, e.verdict).1);
    assert RecordOf(e, active).events == PendingEvents(pending);
  }

  lemma NamesAsked(e: Execution, active: bool, k: Key)
    ensures Names(RecordOf(e, active).events, k) <==> AsksFor(e, active, k)
  {
    hide RecordOf, Notifies;
    EventsListed(e, active);
    var events := RecordOf(e, active).events;
    var first := if Notifies(e, active) then 1 else 0;
    if Names(events, k) {
      var i :| 0 <= i < |events| && events[i].id == k.eventId && k.channelId in events[i].deliveries;
      if i >= first {
        assert events[first + (i - first)] == Notice(e.board[i - first], e.board[i - first].eventType);
      }
    }
    if Notifies(e, active) && k.eventId == e.condition.id && k.channelId in e.condition.channelIds {
      assert events[0].id == k.eventId && k.channelId in events[0].deliveries;
    } else if AsksFor(e, active, k) {
      var i :| 0 <= i < |e.board| && k.eventId == e.board[i].id && k.channelId in e.board[i].channelIds;
      assert events[first + i].id == k.eventId && k.channelId in events[first + i].deliveries;
    }
  }

  lemma RecordCarries(e: Execution, active: bool)
    ensures Carries(Stored(RecordOf(e, active)), e, active) && RecordOf(e, active).id == e.recordId
    ensures forall k :: Names(RecordOf(e, active).events, k) <==> AsksFor(e, active, k)
  {
    hide AsksFor, Names, Notifies;
    EventsListed(e, active);
    forall k
      ensures Names(RecordOf(e, active).events, k) <==> AsksFor(e, active, k)
    {
      NamesAsked(e, active, k);
    }
  }

  /** A committed execution: its record carries the events it should, each delivery asked for has a pending
      row of the record, no other row is new or changed, and monitor and items have their new states. */
  lemma CommitNotifies(t: Tables, step: Step)
    requires Commits(t, step)
    ensures var after, e := Next(t, step), step.e; var active := t.monitors[e.monitorId].active;
      && e.recordId in after.records && Carries(after.records[e.recordId], e, active)
      && (forall k :: AsksFor(e, active, k) ==>
            k !in t.deliveries && k in after.deliveries && after.deliveries[k] == Row(e.recordId, Delivery("pending", 0, "")))
      && (forall k :: !AsksFor(e, active, k) ==>
            (k in after.deliveries <==> k in t.deliveries) && (k in t.deliveries ==> after.deliveries[k] == t.deliveries[k]))
      && after.monitors[e.monitorId]
         == MonitorState(if e.verdict == Unknown then active else e.verdict == True, e.recordId)
      && (forall id :: id in t.monitors && id != e.monitorId ==> id in after.monitors && after.monitors[id] == t.monitors[id])
      && after.items.Keys == t.items.Keys
      && (forall id :: id in t.items ==> after.items[id] == if id in e.itemStates then e.itemStates[id] else t.items[id])
  {
    hide WithPending, Carries, AsksFor;
    var e := step.e;
    var active := t.monitors[e.monitorId].active;
    var record := RecordOf(e, active);
    RecordCarries(e, active);
    forall k
      ensures var after := WithPending(t.deliveries, record.id, record.events);
        && (k in after <==> k in t.deliveries || Names(record.events, k))
        && (Names(record.events, k) ==> k !in t.deliveries && after[k] == Row(record.id, PENDING))
        && (k in t.deliveries && !Names(record.events, k) ==> after[k] == t.deliveries[k])
    {
      PendingRow(t.deliveries, record.id, record.events, k);
      if Names(record.events, k) {
        NamedIsNew(t.deliveries, record.id, record.events, k);
      }
    }
  }

  lemma NamedIsNew(rows: Rows, recordId: string, events: seq<Event>, k: Key)
    requires ClashFree(rows, recordId, events) && Names(events, k)
    ensures k !in rows
  {
    hide WithPending;
    var i :| 0 <= i < |events| && events[i].id == k.eventId && k.channelId in events[i].deliveries;
    assert k == Key(k.eventId, k.channelId) && k in KeysOf(events[i]);
    assert Unclashing(rows, recordId, events, i);
    PendingRow(rows, recordId, events[..i], k);
  }

  /** With new event ids an execution is committed exactly if the transaction is, its record is new, and its
      monitor and the items whose states it brings are there. */
  lemma CommitsIff(t: Tables, step: Step)
    requires step.Execute? && step.e.monitorId in t.monitors
    requires Fresh(t.deliveries, RecordOf(step.e, t.monitors[step.e.monitorId].active).events)
    ensures Commits(t, step) <==>
      step.commits && step.e.recordId !in t.records && forall id :: id in step.e.itemStates ==> id in t.items
  {
    var record := RecordOf(step.e, t.monitors[step.e.monitorId].active);
    FreshIsClashFree(t.deliveries, record.id, record.events);
  }

  // ----- Over whole runs -----

  /** The events of an update are those of the record, with the outcomes of their deliveries. */
  ghost predicate OwnOutcomes(t: Tables, steps: seq<Step>) {
    forall i :: 0 <= i < |steps| ==> OwnOutcome(Run(t, steps[..i]), steps[i])
  }

  ghost predicate OwnOutcome(t: Tables, step: Step) {
    step.Outcomes? && step.id in t.records ==> Metadata(step.events) == t.records[step.id].events
  }

  /** The record is there with its events, and so are its delivery rows, pending or not. */
  ghost predicate Notified(t: Tables, e: Execution, active: bool) {
    && e.recordId in t.records && Carries(t.records[e.recordId], e, active)
    && forall k :: AsksFor(e, active, k) ==> k in t.deliveries && t.deliveries[k].recordId == e.recordId
  }

  lemma {:induction false} OutcomesKeepKeys(rows: Rows, events: seq<Event>)
    ensures WithOutcomes(rows, events).Keys == rows.Keys
    ensures forall k :: k in rows ==> WithOutcomes(rows, events)[k].recordId == rows[k].recordId
  {
    if events != [] {
      OutcomesKeepKeys(rows, events[..|events| - 1]);
    }
  }

  lemma NotifiedStays(t: Tables, step: Step, e: Execution, active: bool)
    requires Notified(t, e, active) && OwnOutcome(t, step)
    ensures Notified(Next(t, step), e, active)
  {
    hide Carries, AsksFor, WithPending, WithOutcomes;
    if Commits(t, step) {
      CommitNotifies(t, step);
      assert step.e.recordId !in t.records;
    } else if step.Outcomes? && step.commits {
      OutcomesKeepKeys(t.deliveries, step.events);
      if step.id == e.recordId {
        SameEventsCarry(t.records[e.recordId], Next(t, step).records[e.recordId], e, active);
      }
    } else {
      assert Next(t, step) == t;
    }
  }

  lemma SameEventsCarry(r: Record, s: Record, e: Execution, active: bool)
    requires r.events == s.events && Carries(r, e, active)
    ensures Carries(s, e, active)
  {
  }

  lemma {:induction false} NotifiedOverRun(t: Tables, steps: seq<Step>, j: nat)
    requires j < |steps| && Commits(Run(t, steps[..j]), steps[j]) && OwnOutcomes(t, steps)
    ensures var e := steps[j].e; Notified(Run(t, steps), e, Run(t, steps[..j]).monitors[e.monitorId].active)
  {
    hide Notified, Next, OwnOutcome;
    var n, e := |steps| - 1, steps[j].e;
    var active := Run(t, steps[..j]).monitors[e.monitorId].active;
    var front := steps[..n];
    if j == n {
      JustNotified(Run(t, front), steps[n]);
    } else {
      assert front[..j] == steps[..j] && forall i :: 0 <= i < n ==> front[..i] == steps[..i];
      assert OwnOutcome(Run(t, steps[..n]), steps[n]);
      NotifiedOverRun(t, front, j);
      NotifiedStays(Run(t, front), steps[n], e, active);
    }
  }

  lemma JustNotified(t: Tables, step: Step)
    requires Commits(t, step)
    ensures Notified(Next(t, step), step.e, t.monitors[step.e.monitorId].active)
  {
    hide Carries, AsksFor;
    CommitNotifies(t, step);
  }

  /** From empty tables, after any executions and outcomes: the record of a committed execution carries the
      event of the condition exactly if its verdict differs from the last one known, or is met and every time
      counts, and then all events of the board; and each of their deliveries has its row. */
  lemma EachRecordNotifies(t: Tables, steps: seq<Step>, j: nat)
    requires t.records == map[] && t.order == [] && OwnOutcomes(t, steps)
    requires j < |steps| && Commits(Run(t, steps[..j]), steps[j])
    requires steps[j].e.monitorId in t.monitors && SamePolicy(steps, steps[j].e.monitorId, steps[j].e.every)
    ensures var e, before := steps[j].e, Run(t, steps[..j]);
      var verdicts := VerdictsOf(RecordsOf(before.records, before.order, e.monitorId));
      Notified(Run(t, steps), e, LastKnown(verdicts, t.monitors[e.monitorId].active))
  {
    hide Notified, RecordsOf, OwnOutcomes, CanCommit;
    var e, before := steps[j].e, Run(t, steps[..j]);
    NotifiedOverRun(t, steps, j);
    assert SamePolicy(steps[..j], e.monitorId, e.every) by {
      assert forall i :: 0 <= i < j ==> steps[..j][i] == steps[i];
    }
    StateIsFold(t, steps[..j], e.monitorId, e.every);
    ActiveIsLastKnown(e.every, t.monitors[e.monitorId].active, VerdictsOf(RecordsOf(before.records, before.order, e.monitorId)));
  }
}
