/** What loading a record gives after it has been committed and its deliveries have had their outcomes. */
module DeliveryLoading {
  import opened Deliveries

  ghost predicate DistinctEvents(events: seq<Event>) {
    forall i, j :: 0 <= i < j < |events| ==> events[i].id != events[j].id
  }

  ghost predicate Names(events: seq<Event>, k: Key) {
    exists i :: 0 <= i < |events| && events[i].id == k.eventId && k.channelId in events[i].deliveries
  }

  /** Event ids are new: distinct, and none has a delivery row yet. */
  ghost predicate Fresh(rows: Rows, events: seq<Event>) {
    DistinctEvents(events) && forall i, k :: 0 <= i < |events| && k in rows ==> k.eventId != events[i].id
  }

  /** The rows of these events are there, for each delivery one, and belong to the record. */
  ghost predicate RowsFor(rows: Rows, recordId: string, events: seq<Event>) {
    && DistinctEvents(events)
    && (forall k :: Names(events, k) ==> k in rows && rows[k].recordId == recordId)
    && (forall i, k :: 0 <= i < |events| && k in rows && k.eventId == events[i].id ==> Names(events, k))
  }

  ghost predicate SameKeys(a: seq<Event>, b: seq<Event>) {
    |a| == |b| && forall i :: 0 <= i < |a| ==> a[i].id == b[i].id && a[i].deliveries.Keys == b[i].deliveries.Keys
  }

  // ----- After a commit -----

  lemma NamesAppend(events: seq<Event>, k: Key)
    requires events != []
    ensures var n := |events| - 1;
      Names(events, k) <==> Names(events[..n], k) || (events[n].id == k.eventId && k.channelId in events[n].deliveries)
  {
    var n := |events| - 1;
    assert forall i :: 0 <= i < n ==> events[..n][i] == events[i];
  }

  lemma {:induction false} PendingRow(rows: Rows, recordId: string, events: seq<Event>, k: Key)
    ensures var after := WithPending(rows, recordId, events);
      && (k in after <==> k in rows || Names(events, k))
      && (Names(events, k) ==> after[k] == Row(recordId, PENDING))
      && (k in rows && !Names(events, k) ==> after[k] == rows[k])
  {
    if events != [] {
      var n := |events| - 1;
      PendingRow(rows, recordId, events[..n], k);
      NamesAppend(events, k);
      assert k in KeysOf(events[n]) <==> events[n].id == k.eventId && k.channelId in events[n].deliveries by {
        assert k == Key(k.eventId, k.channelId);
      }
    }
  }

  /** With new ids no key is taken, so the rows of the deliveries are all written. */
  lemma FreshIsClashFree(rows: Rows, recordId: string, events: seq<Event>)
    requires Fresh(rows, events)
    ensures ClashFree(rows, recordId, events)
  {
    forall i | 0 <= i < |events|
      ensures Unclashing(rows, recordId, events, i)
    {
      forall k | k in KeysOf(events[i])
        ensures k !in WithPending(rows, recordId, events[..i])
      {
        PendingRow(rows, recordId, events[..i], k);
        assert forall j :: 0 <= j < i ==> events[..i][j] == events[j] && events[j].id != events[i].id;
      }
    }
  }

  lemma CommitWritesRows(rows: Rows, recordId: string, events: seq<Event>)
    requires Fresh(rows, events)
    ensures RowsFor(WithPending(rows, recordId, events), recordId, events)
  {
    var after := WithPending(rows, recordId, events);
    forall k
      ensures Names(events, k) ==> k in after && after[k].recordId == recordId
      ensures k in after && !Names(events, k) ==> k in rows
    {
      PendingRow(rows, recordId, events, k);
    }
  }

  function AllPending(e: Event): Event { e.(deliveries := map c | c in e.deliveries :: PENDING) }

  ghost predicate IsPending(e: Event) { forall c :: c in e.deliveries ==> e.deliveries[c] == PENDING }

  lemma EventLoads(rows: Rows, record: Record, i: nat, deliveries: map<string, Delivery>)
    requires i < |record.events| && RowsFor(rows, record.id, record.events)
    requires deliveries.Keys == record.events[i].deliveries.Keys
    requires forall c :: c in deliveries ==> Key(record.events[i].id, c) in rows && rows[Key(record.events[i].id, c)].delivery == deliveries[c]
    ensures DeliveriesOf(rows, record.id, record.events[i].id) == deliveries
  {
    var e := record.events[i];
    hide DeliveriesOf;
    forall c
      ensures c in DeliveriesOf(rows, record.id, e.id) <==> c in deliveries
      ensures c in deliveries ==> DeliveriesOf(rows, record.id, e.id)[c] == deliveries[c]
    {
      DeliveryIs(rows, record.id, e.id, c);
      if c in deliveries {
        assert Names(record.events, Key(e.id, c));
      }
      if Key(e.id, c) in rows {
        NamedHere(record.events, i, c);
      }
    }
  }

  lemma NamedHere(events: seq<Event>, i: nat, c: string)
    requires DistinctEvents(events) && i < |events|
    ensures Names(events, Key(events[i].id, c)) <==> c in events[i].deliveries
  {
  }

  /** A committed record loads with its events as they were, except that every delivery is pending: it is the
      committed record exactly if every delivery was pending to begin with. */
  lemma CommitThenLoad(rows: Rows, record: Record)
    requires Fresh(rows, record.events)
    ensures var loaded := Hydrated(WithPending(rows, record.id, record.events), Stored(record));
      && loaded == record.(events := seq(|record.events|, i requires 0 <= i < |record.events| => AllPending(record.events[i])))
      && (loaded == record <==> forall i :: 0 <= i < |record.events| ==> IsPending(record.events[i]))
  {
    var after := WithPending(rows, record.id, record.events);
    var loaded := Hydrated(after, Stored(record));
    CommitWritesRows(rows, record.id, record.events);
    forall i | 0 <= i < |record.events|
      ensures loaded.events[i] == AllPending(record.events[i])
      ensures AllPending(record.events[i]) == record.events[i] <==> IsPending(record.events[i])
    {
      var e := record.events[i];
      forall c | c in e.deliveries
        ensures Key(e.id, c) in after && after[Key(e.id, c)].delivery == PENDING
      {
        assert Names(record.events, Key(e.id, c));
        PendingRow(rows, record.id, record.events, Key(e.id, c));
      }
      EventLoads(after, record, i, AllPending(e).deliveries);
      assert IsFirst(Stored(record).events, i);
      assert AllPending(e).deliveries == e.deliveries <==> IsPending(e);
    }
    if loaded == record {
      forall i | 0 <= i < |record.events|
        ensures IsPending(record.events[i])
      {
        assert loaded.events[i] == record.events[i];
      }
    } else {
      assert loaded.events != record.events;
    }
  }

  /** A commit changes nothing about what other records load as. */
  lemma CommitKeepsOthers(rows: Rows, record: Record, other: Record)
    requires Fresh(rows, record.events) && other.id != record.id
    ensures Hydrated(WithPending(rows, record.id, record.events), other) == Hydrated(rows, other)
  {
    var after := WithPending(rows, record.id, record.events);
    forall k
      ensures k in rows ==> k in after && after[k] == rows[k]
      ensures k in after && after[k].recordId == other.id ==> k in rows
    {
      PendingRow(rows, record.id, record.events, k);
    }
    OnlyOwnRows(rows, after, other);
  }

  // ----- After the outcomes -----

  lemma {:induction false} OutcomeRow(rows: Rows, events: seq<Event>, k: Key)
    requires DistinctEvents(events)
    ensures var after := WithOutcomes(rows, events);
      && (k in after <==> k in rows)
      && (k in rows ==> after[k].recordId == rows[k].recordId)
      && (k in rows && !Names(events, k) ==> after[k] == rows[k])
      && (forall i :: 0 <= i < |events| && k in rows && events[i].id == k.eventId && k.channelId in events[i].deliveries ==>
            after[k].delivery == events[i].deliveries[k.channelId])
  {
    if events != [] {
      var n := |events| - 1;
      OutcomeRow(rows, events[..n], k);
      NamesAppend(events, k);
      assert forall i :: 0 <= i < n ==> events[..n][i] == events[i];
    }
  }

  /** After an update that names the same deliveries, the record loads with exactly the events of the update,
      and so it does after any number of such updates. */
  lemma UpdateThenLoad(rows: Rows, record: Record, events: seq<Event>)
    requires RowsFor(rows, record.id, record.events) && SameKeys(record.events, events)
    ensures var after := WithOutcomes(rows, events);
      && RowsFor(after, record.id, events)
      && Hydrated(after, record.(events := Metadata(events))) == record.(events := events)
  {
    var after := WithOutcomes(rows, events);
    SameNames(record.events, events);
    forall k
      ensures (k in after <==> k in rows) && (k in rows ==> after[k].recordId == rows[k].recordId)
    {
      OutcomeRow(rows, events, k);
    }
    assert RowsFor(after, record.id, events);
    var updated := record.(events := events);
    forall i | 0 <= i < |events|
      ensures Hydrated(after, record.(events := Metadata(events))).events[i] == events[i]
    {
      forall c | c in events[i].deliveries
        ensures Key(events[i].id, c) in after && after[Key(events[i].id, c)].delivery == events[i].deliveries[c]
      {
        assert Names(events, Key(events[i].id, c));
        OutcomeRow(rows, events, Key(events[i].id, c));
      }
      EventLoads(after, updated, i, events[i].deliveries);
      assert IsFirst(Metadata(events), i);
    }
  }

  lemma SameNames(a: seq<Event>, b: seq<Event>)
    requires SameKeys(a, b)
    ensures DistinctEvents(a) <==> DistinctEvents(b)
    ensures forall k :: Names(a, k) <==> Names(b, k)
  {
  }

  /** An update changes nothing about records none of whose deliveries it names. */
  lemma UpdateKeepsOthers(rows: Rows, events: seq<Event>, other: Record)
    requires DistinctEvents(events)
    requires forall k :: k in rows && rows[k].recordId == other.id ==> !Names(events, k)
    ensures Hydrated(WithOutcomes(rows, events), other) == Hydrated(rows, other)
  {
    var after := WithOutcomes(rows, events);
    var own := map k | k in rows && rows[k].recordId == other.id :: rows[k];
    forall k
      ensures (k in after <==> k in rows) && (k in rows ==> after[k].recordId == rows[k].recordId)
      ensures k in own ==> after[k] == rows[k]
    {
      OutcomeRow(rows, events, k);
    }
    OnlyOwnRows(own, rows, other);
    OnlyOwnRows(own, after, other);
  }

  /** The life of a record: committed with pending deliveries, then updated with their outcomes. */
  lemma CommitUpdateLoad(rows: Rows, record: Record, outcomes: seq<Event>)
    requires Fresh(rows, record.events) && SameKeys(record.events, outcomes)
    ensures var after := WithOutcomes(WithPending(rows, record.id, record.events), outcomes);
      Hydrated(after, record.(events := Metadata(outcomes))) == record.(events := outcomes)
  {
    CommitWritesRows(rows, record.id, record.events);
    UpdateThenLoad(WithPending(rows, record.id, record.events), record, outcomes);
  }
}
