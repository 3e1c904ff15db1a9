/**
 Records with their notification events. The store splits a record: the events go without their
 deliveries into the row of the record, and each delivery becomes a row of its own. Loading joins them.
 */
module Deliveries {
  import opened Wrappers

  datatype Delivery = Delivery(status: string, attempts: int, message: string)

  const PENDING := Delivery("pending", 0, "")

  /** `detail` stands for all that describes an event and is stored with it unchanged. */
  datatype Event = Event(id: string, eventType: string, detail: string, deliveries: map<string, Delivery>)

  datatype Record = Record(id: string, monitorId: string, conditionState: string, eventType: string, events: seq<Event>)

  /** The unique key of the delivery table. */
  datatype Key = Key(eventId: string, channelId: string)

  datatype Row = Row(recordId: string, delivery: Delivery)

  type Rows = map<Key, Row>

  datatype MonitorState = MonitorState(active: bool, lastRecordId: string)

  // ----- Splitting -----

  function Metadata(events: seq<Event>): seq<Event> {
    seq(|events|, i requires 0 <= i < |events| => events[i].(deliveries := map[]))
  }

  function Stored(record: Record): Record { record.(events := Metadata(record.events)) }

  ghost function KeysOf(e: Event): set<Key> { set c | c in e.deliveries :: Key(e.id, c) }

  /** The delivery rows after those of one event have been written: each is pending, whatever the event says. */
  ghost function WithEvent(rows: Rows, recordId: string, e: Event): Rows {
    rows + map k | k in KeysOf(e) :: Row(recordId, PENDING)
  }

  ghost function WithPending(rows: Rows, recordId: string, events: seq<Event>): Rows {
    if events == [] then rows
    else WithEvent(WithPending(rows, recordId, events[..|events| - 1]), recordId, events[|events| - 1])
  }

  lemma PendingStep(rows: Rows, recordId: string, events: seq<Event>, i: nat)
    requires i < |events|
    ensures WithPending(rows, recordId, events[..i + 1]) == WithEvent(WithPending(rows, recordId, events[..i]), recordId, events[i])
  {
    assert events[..i + 1][..i] == events[..i];
  }

  lemma NonePending(rows: Rows, recordId: string, events: seq<Event>)
    ensures WithPending(rows, recordId, events[..0]) == rows
  {
  }

  /** No key is taken when its row is written. */
  ghost predicate ClashFree(rows: Rows, recordId: string, events: seq<Event>) {
    forall i :: 0 <= i < |events| ==> Unclashing(rows, recordId, events, i)
  }

  ghost predicate Unclashing(rows: Rows, recordId: string, events: seq<Event>, i: nat)
    requires i < |events|
  {
    KeysOf(events[i]) !! WithPending(rows, recordId, events[..i]).Keys
  }

  // ----- Updating -----

  ghost function UpdatedRow(k: Key, row: Row, e: Event): Row {
    if k.eventId == e.id && k.channelId in e.deliveries then row.(delivery := e.deliveries[k.channelId]) else row
  }

  ghost function PartlyUpdated(k: Key, row: Row, e: Event, left: set<string>): Row {
    if k.eventId == e.id && k.channelId in left then row else UpdatedRow(k, row, e)
  }

  ghost function WithOutcome(rows: Rows, e: Event): Rows { map k | k in rows :: UpdatedRow(k, rows[k], e) }

  ghost function WithOutcomes(rows: Rows, events: seq<Event>): Rows {
    if events == [] then rows else WithOutcome(WithOutcomes(rows, events[..|events| - 1]), events[|events| - 1])
  }

  // ----- Joining -----

  ghost function DeliveriesOf(rows: Rows, recordId: string, eventId: string): map<string, Delivery> {
    map k | k in rows && k.eventId == eventId && rows[k].recordId == recordId :: k.channelId := rows[k].delivery
  }

  /** A delivery joins the first event of the record that has its id. */
  ghost predicate IsFirst(events: seq<Event>, j: nat)
    requires j < |events|
  {
    forall i :: 0 <= i < j ==> events[i].id != events[j].id
  }

  ghost function HydratedEvent(rows: Rows, recordId: string, events: seq<Event>, j: nat): Event
    requires j < |events|
  {
    events[j].(deliveries := if IsFirst(events, j) then DeliveriesOf(rows, recordId, events[j].id) else map[])
  }

  ghost function Hydrated(rows: Rows, record: Record): Record {
    record.(events := seq(|record.events|, j requires 0 <= j < |record.events| => HydratedEvent(rows, record.id, record.events, j)))
  }

  ghost predicate DistinctIds(records: seq<Record>) {
    forall i, j :: 0 <= i < j < |records| ==> records[i].id != records[j].id
  }

  /** The tables; `order` lists the ids of the records in the order in which they were stored. */
  datatype Tables = Tables(
    records: map<string, Record>, order: seq<string>, deliveries: Rows, monitors: map<string, MonitorState>,
    items: map<string, string>)

  /** No constraint stands against the commit, and the rows to be updated are there. */
  ghost predicate CanCommit(t: Tables, record: Record, monitorId: string, itemStates: map<string, string>) {
    && record.id !in t.records && ClashFree(t.deliveries, record.id, record.events)
    && monitorId in t.monitors && itemStates.Keys <= t.items.Keys
  }

  ghost function AfterCommit(t: Tables, record: Record, monitorId: string, state: MonitorState, itemStates: map<string, string>)
    : Tables
  {
    Tables(
      t.records[record.id := Stored(record)], t.order + [record.id],
      WithPending(t.deliveries, record.id, record.events),
      t.monitors[monitorId := state], t.items + itemStates)
  }

  ghost function AfterOutcomes(t: Tables, id: string, events: seq<Event>): Tables {
    t.(records := if id in t.records then t.records[id := t.records[id].(events := Metadata(events))] else t.records,
       deliveries := WithOutcomes(t.deliveries, events))
  }

  class RecordStore {
    var records: map<string, Record>
    var order: seq<string>
    var deliveries: Rows
    var monitors: map<string, MonitorState>
    var items: map<string, string>

    ghost function Now(): Tables
      reads this
    {
      Tables(records, order, deliveries, monitors, items)
    }

    constructor (monitors: map<string, MonitorState>, items: map<string, string>)
      ensures Now() == Tables(map[], [], map[], monitors, items)
    {
      records, order, deliveries := map[], [], map[];
      this.monitors, this.items := monitors, items;
    }

    /** One row for each delivery of each event; fails at a key that is taken. */
    method AddPendingDeliveries(record: Record) returns (ok: bool)
      modifies this`deliveries
      ensures ok <==> ClashFree(old(deliveries), record.id, record.events)
      ensures ok ==> deliveries == WithPending(old(deliveries), record.id, record.events)
    {
      hide WithEvent;
      hide WithPending;
      hide KeysOf;
      NonePending(deliveries, record.id, record.events);
      for i := 0 to |record.events|
        invariant deliveries == WithPending(old(deliveries), record.id, record.events[..i])
        invariant forall k :: 0 <= k < i ==> Unclashing(old(deliveries), record.id, record.events, k)
      {
        PendingStep(old(deliveries), record.id, record.events, i);
        var added := AddEventDeliveries(record.id, record.events[i]);
        if !added {
          assert !Unclashing(old(deliveries), record.id, record.events, i);
          return false;
        }
        assert Unclashing(old(deliveries), record.id, record.events, i);
      }
      assert record.events[..|record.events|] == record.events;
      return true;
    }

    method AddEventDeliveries(recordId: string, e: Event) returns (ok: bool)
      modifies this`deliveries
      ensures ok <==> KeysOf(e) !! old(deliveries).Keys
      ensures ok ==> deliveries == WithEvent(old(deliveries), recordId, e)
    {
      var channels := e.deliveries.Keys;
      ghost var done: set<Key> := {};
      while channels != {}
        invariant channels <= e.deliveries.Keys
        invariant done == set c | c in e.deliveries.Keys - channels :: Key(e.id, c)
        invariant done !! old(deliveries).Keys
        invariant deliveries == old(deliveries) + map k | k in done :: Row(recordId, PENDING)
        decreases |channels|
      {
        var c :| c in channels;
        assert Key(e.id, c) !in done;
        if Key(e.id, c) in deliveries {
          assert Key(e.id, c) in KeysOf(e);
          return false;
        }
        deliveries := deliveries[Key(e.id, c) := Row(recordId, PENDING)];
        channels := channels - {c};
        done := done + {Key(e.id, c)};
      }
      assert done == KeysOf(e);
      return true;
    }

    /** One transaction: the record, its pending deliveries, the state of the monitor and of its items. */
    method CommitMonitorExecution(record: Record, monitorId: string, state: MonitorState, itemStates: map<string, string>, commits: bool)
      returns (ok: bool)
      modifies this
      ensures ok <==> commits && CanCommit(old(Now()), record, monitorId, itemStates)
      ensures Now() == if ok then AfterCommit(old(Now()), record, monitorId, state, itemStates) else old(Now())
      ensures items.Keys == old(items).Keys
      ensures ok ==> forall id :: id in items ==> items[id] == if id in itemStates then itemStates[id] else old(items)[id]
    {
      var deliveriesBefore, itemsBefore := deliveries, items;
      if record.id in records {
        return false;
      }
      ok := AddPendingDeliveries(record);
      if !ok || monitorId !in monitors {
        deliveries := deliveriesBefore;
        return false;
      }
      ok := UpdateItems(itemStates);
      if !ok || !commits {
        deliveries, items := deliveriesBefore, itemsBefore;
        return false;
      }
      records, order := records[record.id := Stored(record)], order + [record.id];
      monitors := monitors[monitorId := state];
    }

    method UpdateItems(itemStates: map<string, string>) returns (ok: bool)
      modifies this`items
      ensures ok <==> itemStates.Keys <= old(items).Keys
      ensures ok ==> items == old(items) + itemStates
    {
      var rest := itemStates.Keys;
      while rest != {}
        invariant rest <= itemStates.Keys && itemStates.Keys - rest <= old(items).Keys
        invariant items.Keys == old(items).Keys
        invariant forall id :: id in items ==> items[id] == if id in itemStates.Keys - rest then itemStates[id] else old(items)[id]
        decreases |rest|
      {
        var id :| id in rest;
        if id !in items {
          return false;
        }
        items := items[id := itemStates[id]];
        rest := rest - {id};
      }
      assert items == old(items) + itemStates;
      return true;
    }

    /** The outcomes of the deliveries; a delivery whose row is gone is passed over. */
    method UpdateRecordNotificationEvents(id: string, events: seq<Event>, commits: bool)
      modifies this`records, this`deliveries
      ensures Now() == if commits then AfterOutcomes(old(Now()), id, events) else old(Now())
    {
      if !commits {
        return;
      }
      if id in records {
        records := records[id := records[id].(events := Metadata(events))];
      }
      ghost var updated := records;
      for i := 0 to |events|
        invariant records == updated && deliveries == WithOutcomes(old(deliveries), events[..i])
      {
        assert events[..i + 1][..i] == events[..i];
        UpdateEventDeliveries(events[i]);
      }
      assert events[..|events|] == events;
    }

    method UpdateEventDeliveries(e: Event)
      modifies this`deliveries
      ensures deliveries == WithOutcome(old(deliveries), e)
    {
      var channels := e.deliveries.Keys;
      while channels != {}
        invariant channels <= e.deliveries.Keys && deliveries.Keys == old(deliveries).Keys
        invariant forall k :: k in deliveries ==> deliveries[k] == PartlyUpdated(k, old(deliveries)[k], e, channels)
        decreases |channels|
      {
        var c :| c in channels;
        var key := Key(e.id, c);
        if key in deliveries {
          deliveries := deliveries[key := deliveries[key].(delivery := e.deliveries[c])];
        }
        channels := channels - {c};
      }
      assert deliveries == WithOutcome(old(deliveries), e);
    }

    method GetRecord(monitorId: string, id: string) returns (record: Option<Record>)
      ensures record == if id in records && records[id].monitorId == monitorId then Some(Hydrated(deliveries, records[id])) else None
    {
      if id !in records || records[id].monitorId != monitorId {
        return None;
      }
      var page := new Record[] [records[id]];
      HydrateDeliveries(page);
      return Some(page[0]);
    }

    /** Fills in the deliveries of a page of records, from rows that come in any order. */
    method HydrateDeliveries(page: array<Record>)
      requires DistinctIds(page[..])
      modifies page
      ensures forall i :: 0 <= i < page.Length ==> page[i] == Hydrated(deliveries, old(page[i]))
    {
      hide Hydrated;
      hide Among;
      hide DistinctIds;
      ghost var was := page[..];
      NoneAmong(deliveries);
      var index := ResetDeliveries(page);
      var keys := SelectRows(index.Keys);
      assert KeySet(keys[..0]) == {};
      for i := 0 to |keys|
        invariant forall j :: 0 <= j < page.Length ==> page[j] == Hydrated(Among(deliveries, KeySet(keys[..i])), was[j])
      {
        var k := keys[i];
        MoreKeys(keys, i);
        JoinRow(page, k, index[deliveries[k].recordId], was, KeySet(keys[..i]));
      }
      forall i | 0 <= i < page.Length
        ensures Hydrated(Among(deliveries, KeySet(keys)), was[i]) == Hydrated(deliveries, was[i])
      {
        RowsJoined(deliveries, KeySet(keys), was[i]);
      }
      assert keys[..|keys|] == keys;
    }

    /** The rows of some records, each once, in any order. */
    method SelectRows(recordIds: set<string>) returns (keys: seq<Key>)
      ensures forall i, j :: 0 <= i < j < |keys| ==> keys[i] != keys[j]
      ensures forall k :: k in keys <==> k in deliveries && deliveries[k].recordId in recordIds
    {
      keys := [];
      var rest := set k | k in deliveries && deliveries[k].recordId in recordIds;
      while rest != {}
        invariant forall i, j :: 0 <= i < j < |keys| ==> keys[i] != keys[j]
        invariant forall k :: k in keys ==> k !in rest
        invariant forall k :: k in keys || k in rest <==> k in deliveries && deliveries[k].recordId in recordIds
        decreases |rest|
      {
        var k :| k in rest;
        keys, rest := keys + [k], rest - {k};
      }
    }

    method JoinRow(page: array<Record>, k: Key, i: nat, ghost was: seq<Record>, ghost joined: set<Key>)
      requires k in deliveries && k !in joined && i < page.Length == |was|
      requires was[i].id == deliveries[k].recordId && DistinctIds(was)
      requires forall j :: 0 <= j < page.Length ==> page[j] == Hydrated(Among(deliveries, joined), was[j])
      modifies page
      ensures forall j :: 0 <= j < page.Length ==> page[j] == Hydrated(Among(deliveries, joined + {k}), was[j])
    {
      hide Hydrated;
      hide Among;
      hide AddDelivery;
      RowJoins(deliveries, joined, k, was, i);
      page[i] := AddDelivery(page[i], k, deliveries[k].delivery);
    }

    method ResetDeliveries(page: array<Record>) returns (index: map<string, nat>)
      modifies page
      requires DistinctIds(page[..])
      ensures forall i :: 0 <= i < page.Length ==> page[i] == Hydrated(map[], old(page[i]))
      ensures forall i :: 0 <= i < page.Length ==> old(page[i]).id in index && index[old(page[i]).id] == i
      ensures forall id :: id in index ==> index[id] < page.Length && old(page[index[id]]).id == id
    {
      ghost var was := page[..];
      index := map[];
      for i := 0 to page.Length
        invariant forall k :: 0 <= k < i ==> page[k] == Hydrated(map[], was[k])
        invariant forall k :: i <= k < page.Length ==> page[k] == was[k]
        invariant forall k :: 0 <= k < i ==> was[k].id in index && index[was[k].id] == k
        invariant forall id :: id in index ==> index[id] < i && was[index[id]].id == id
      {
        index := index[page[i].id := i];
        page[i] := Stored(page[i]);
        assert page[i] == Hydrated(map[], was[i]);
      }
    }
  }

  ghost function Among(rows: Rows, keys: set<Key>): Rows { map k | k in keys && k in rows :: rows[k] }

  lemma NoneAmong(rows: Rows)
    ensures Among(rows, {}) == map[]
  {
  }

  ghost function KeySet(keys: seq<Key>): set<Key> { set k | k in keys }

  lemma MoreKeys(keys: seq<Key>, i: nat)
    requires i < |keys| && forall i, j :: 0 <= i < j < |keys| ==> keys[i] != keys[j]
    ensures keys[i] !in KeySet(keys[..i]) && KeySet(keys[..i + 1]) == KeySet(keys[..i]) + {keys[i]}
  {
    assert keys[..i + 1] == keys[..i] + [keys[i]];
  }

  /** One more row joins its record. */
  lemma RowJoins(rows: Rows, keys: set<Key>, k: Key, records: seq<Record>, i: nat)
    requires k in rows && k !in keys && i < |records| && records[i].id == rows[k].recordId && DistinctIds(records)
    ensures AddDelivery(Hydrated(Among(rows, keys), records[i]), k, rows[k].delivery) == Hydrated(Among(rows, keys + {k}), records[i])
    ensures forall j :: 0 <= j < |records| && j != i ==>
      Hydrated(Among(rows, keys + {k}), records[j]) == Hydrated(Among(rows, keys), records[j])
  {
    assert Among(rows, keys + {k}) == Among(rows, keys)[k := rows[k]];
    OneMoreRow(Among(rows, keys), k, rows[k], records, i);
  }

  lemma RowsJoined(rows: Rows, keys: set<Key>, record: Record)
    requires forall k :: k in rows && rows[k].recordId == record.id ==> k in keys
    ensures Hydrated(Among(rows, keys), record) == Hydrated(rows, record)
  {
    OnlyOwnRows(Among(rows, keys), rows, record);
  }

  /** The delivery goes to the first event with its id, if there is one. */
  function AddDelivery(record: Record, k: Key, d: Delivery): Record {
    record.(events := AddTo(record.events, k, d))
  }

  function AddTo(events: seq<Event>, k: Key, d: Delivery): seq<Event> {
    if events == [] then []
    else if events[0].id == k.eventId
    then [events[0].(deliveries := events[0].deliveries[k.channelId := d])] + events[1..]
    else [events[0]] + AddTo(events[1..], k, d)
  }

  lemma {:induction false} AddToFirst(events: seq<Event>, k: Key, d: Delivery)
    ensures |AddTo(events, k, d)| == |events|
    ensures forall j :: 0 <= j < |events| ==>
      AddTo(events, k, d)[j] ==
        if events[j].id == k.eventId && IsFirst(events, j)
        then events[j].(deliveries := events[j].deliveries[k.channelId := d]) else events[j]
  {
    if events != [] && events[0].id != k.eventId {
      var others := events[1..];
      AddToFirst(others, k, d);
      forall j | 1 <= j < |events|
        ensures AddTo(events, k, d)[j] == AddTo(others, k, d)[j - 1] && events[j] == others[j - 1]
        ensures events[j].id == k.eventId ==> (IsFirst(events, j) <==> IsFirst(others, j - 1))
      {
        assert forall i :: 0 < i < j ==> events[i] == others[i - 1];
        assert forall i :: 0 <= i < j - 1 ==> others[i] == events[i + 1];
      }
    }
  }

  lemma OneMoreRow(seen: Rows, k: Key, row: Row, records: seq<Record>, i: nat)
    requires k !in seen && i < |records| && records[i].id == row.recordId && DistinctIds(records)
    ensures AddDelivery(Hydrated(seen, records[i]), k, row.delivery) == Hydrated(seen[k := row], records[i])
    ensures forall j :: 0 <= j < |records| && j != i ==> Hydrated(seen[k := row], records[j]) == Hydrated(seen, records[j])
  {
    forall j | 0 <= j < |records| && j != i
      ensures Hydrated(seen[k := row], records[j]) == Hydrated(seen, records[j])
    {
      assert records[j].id != records[i].id;
      OthersKeepDeliveries(seen, k, row, records[j]);
    }
    OwnDelivery(seen, k, row, records[i]);
  }

  lemma OthersKeepDeliveries(seen: Rows, k: Key, row: Row, record: Record)
    requires k !in seen && record.id != row.recordId
    ensures Hydrated(seen[k := row], record) == Hydrated(seen, record)
  {
    OnlyOwnRows(seen, seen[k := row], record);
  }

  lemma SameFirst(a: seq<Event>, b: seq<Event>, j: nat)
    requires |a| == |b| && j < |a| && forall i :: 0 <= i < |a| ==> a[i].id == b[i].id
    ensures IsFirst(a, j) <==> IsFirst(b, j)
  {
  }

  lemma OwnDelivery(seen: Rows, k: Key, row: Row, record: Record)
    requires k !in seen && record.id == row.recordId
    ensures AddDelivery(Hydrated(seen, record), k, row.delivery) == Hydrated(seen[k := row], record)
  {
    var before, after := Hydrated(seen, record).events, Hydrated(seen[k := row], record).events;
    AddToFirst(before, k, row.delivery);
    assert forall i :: 0 <= i < |record.events| ==> before[i].id == record.events[i].id;
    forall j | 0 <= j < |record.events|
      ensures AddTo(before, k, row.delivery)[j] == after[j]
    {
      SameFirst(before, record.events, j);
      OneMoreDelivery(seen, k, row, record.events[j].id);
    }
    assert AddTo(before, k, row.delivery) == after;
  }

  lemma DeliveryIs(rows: Rows, recordId: string, eventId: string, c: string)
    ensures c in DeliveriesOf(rows, recordId, eventId) <==> Key(eventId, c) in rows && rows[Key(eventId, c)].recordId == recordId
    ensures c in DeliveriesOf(rows, recordId, eventId) ==>
      DeliveriesOf(rows, recordId, eventId)[c] == rows[Key(eventId, c)].delivery
  {
  }

  lemma OneMoreDelivery(seen: Rows, k: Key, row: Row, eventId: string)
    requires k !in seen
    ensures DeliveriesOf(seen[k := row], row.recordId, eventId) ==
      if eventId == k.eventId then DeliveriesOf(seen, row.recordId, eventId)[k.channelId := row.delivery]
      else DeliveriesOf(seen, row.recordId, eventId)
  {
    hide DeliveriesOf;
    var before, after := DeliveriesOf(seen, row.recordId, eventId), DeliveriesOf(seen[k := row], row.recordId, eventId);
    forall c
      ensures Key(eventId, c) == k ==> c in after && after[c] == row.delivery
      ensures Key(eventId, c) != k ==> (c in after <==> c in before) && (c in after ==> after[c] == before[c])
    {
      DeliveryIs(seen, row.recordId, eventId, c);
      DeliveryIs(seen[k := row], row.recordId, eventId, c);
    }
    if eventId == k.eventId {
      assert Key(eventId, k.channelId) == k;
    }
  }

  /** Rows of other records do not matter. */
  lemma OnlyOwnRows(some: Rows, rows: Rows, record: Record)
    requires forall k :: k in some ==> k in rows && some[k] == rows[k]
    requires forall k :: k in rows && rows[k].recordId == record.id ==> k in some
    ensures Hydrated(some, record) == Hydrated(rows, record)
  {
    forall j | 0 <= j < |record.events|
      ensures DeliveriesOf(some, record.id, record.events[j].id) == DeliveriesOf(rows, record.id, record.events[j].id)
    {}
  }
}
