/**
 Exporting the configuration, and importing the export into another store in place of what is there.
 */
module ConfigExport {
  import opened ConfigBundles
  import opened ConfigImport
  import opened ConfigTransfer

  /** The bundle lists the rows of one table, each once, as they are exported. */
  ghost predicate Exports<V(!new)>(ids: seq<string>, rows: seq<V>, table: map<string, V>) {
    |ids| == |rows| && Distinct(ids) && Elements(ids) == table.Keys
    && forall k :: 0 <= k < |ids| ==> ids[k] in table && rows[k] == table[ids[k]]
  }

  /** What a store is configured to be: its own channels, and no state of monitors and items. */
  ghost function Configuration(t: Tables): Tables {
    Tables(
      t.channels - {BUILT_IN_CHANNEL},
      map id | id in t.monitors :: t.monitors[id].(runtimeState := EMPTY_STATE),
      map id | id in t.items :: t.items[id].(runtimeState := EMPTY_STATE),
      t.shares)
  }

  ghost predicate IsExport(b: Bundle, t: Tables) {
    && Exports(ChannelIds(b.channels), b.channels, Configuration(t).channels)
    && Exports(MonitorIds(b.monitors), b.monitors, Configuration(t).monitors)
    && Exports(ItemIds(b.items), b.items, Configuration(t).items)
    && Exports(ShareIds(b.shares), b.shares, Configuration(t).shares)
  }

  lemma IdAppended(ids: seq<string>, id: string)
    ensures Elements(ids + [id]) == Elements(ids) + {id}
    ensures Distinct(ids) && id !in Elements(ids) ==> Distinct(ids + [id])
  {
    Longer(ids + [id], |ids|);
    assert (ids + [id])[..|ids|] == ids && (ids + [id])[..|ids| + 1] == ids + [id];
  }

  lemma NoIds()
    ensures Distinct<string>([]) && Elements([]) == {}
  {
  }

  method ListRows<V>(table: map<string, V>) returns (ids: seq<string>, rows: seq<V>)
    ensures |ids| == |rows| && Distinct(ids) && Elements(ids) == table.Keys
    ensures forall k :: 0 <= k < |ids| ==> ids[k] in table && rows[k] == table[ids[k]]
  {
    hide Distinct;
    hide Elements;
    NoIds();
    ids, rows := [], [];
    var rest := table.Keys;
    while rest != {}
      invariant rest <= table.Keys && Elements(ids) == table.Keys - rest && |ids| == |rows| && Distinct(ids)
      invariant forall k :: 0 <= k < |ids| ==> ids[k] in table && rows[k] == table[ids[k]]
      decreases |rest|
    {
      var id :| id in rest;
      IdAppended(ids, id);
      ids, rows, rest := ids + [id], rows + [table[id]], rest - {id};
    }
  }

  /** A full export: everything but the built-in channel, and without state. */
  method ExportConfiguration(t: Tables) returns (b: Bundle)
    requires WellFormed(t)
    ensures IsExport(b, t)
  {
    hide Exports;
    var channels := ExportChannels(t);
    var monitors := ExportMonitors(t);
    var items := ExportItems(t);
    var shares := ExportShares(t);
    return Bundle(channels, monitors, items, shares);
  }

  method ExportMonitors(t: Tables) returns (monitors: seq<Monitor>)
    requires WellFormed(t)
    ensures Exports(MonitorIds(monitors), monitors, Configuration(t).monitors)
  {
    var ids;
    ids, monitors := ListRows(t.monitors);
    for i := 0 to |monitors|
      invariant |monitors| == |ids|
      invariant forall k :: 0 <= k < i ==> monitors[k] == t.monitors[ids[k]].(runtimeState := EMPTY_STATE)
      invariant forall k :: i <= k < |ids| ==> monitors[k] == t.monitors[ids[k]]
    {
      monitors := monitors[i := monitors[i].(runtimeState := EMPTY_STATE)];
    }
    assert MonitorIds(monitors) == ids;
  }

  method ExportItems(t: Tables) returns (items: seq<Item>)
    requires WellFormed(t)
    ensures Exports(ItemIds(items), items, Configuration(t).items)
  {
    var ids;
    ids, items := ListRows(t.items);
    for i := 0 to |items|
      invariant |items| == |ids|
      invariant forall k :: 0 <= k < i ==> items[k] == t.items[ids[k]].(runtimeState := EMPTY_STATE)
      invariant forall k :: i <= k < |ids| ==> items[k] == t.items[ids[k]]
    {
      items := items[i := items[i].(runtimeState := EMPTY_STATE)];
    }
    assert ItemIds(items) == ids;
  }

  method ExportShares(t: Tables) returns (shares: seq<Share>)
    requires WellFormed(t)
    ensures Exports(ShareIds(shares), shares, Configuration(t).shares)
  {
    var ids;
    ids, shares := ListRows(t.shares);
    assert ShareIds(shares) == ids;
  }

  method ExportChannels(t: Tables) returns (channels: seq<Channel>)
    requires WellFormed(t)
    ensures Exports(ChannelIds(channels), channels, Configuration(t).channels)
  {
    var ids, listed := ListRows(t.channels);
    channels := [];
    for i := 0 to |listed|
      invariant Distinct(ChannelIds(channels)) && Elements(ChannelIds(channels)) == Elements(ids[..i]) - {BUILT_IN_CHANNEL}
      invariant forall k :: 0 <= k < |channels| ==>
        channels[k].id in t.channels - {BUILT_IN_CHANNEL} && channels[k] == t.channels[channels[k].id]
    {
      Longer(ids, i);
      assert listed[i].id == ids[i];
      assert ids[i] !in Elements(ids[..i]);
      if listed[i].builtIn || listed[i].id == BUILT_IN_CHANNEL {
        continue;
      }
      IdsAppend(channels, listed[i]);
      channels := channels + [listed[i]];
    }
    assert ids[..|listed|] == ids;
  }

  // ----- Importing an export -----

  ghost predicate RowsOk(t: Tables) {
    && (forall id :: id in t.channels && id != BUILT_IN_CHANNEL ==> ChannelOk(t.channels[id]))
    && (forall id :: id in t.monitors ==> MonitorOk(t.monitors[id]))
    && (forall id :: id in t.items ==> ItemOk(t.items[id]))
    && (forall id :: id in t.shares ==> ShareOk(t.shares[id]))
  }

  /** Every row would pass the validation, and every reference in the store leads to a row. */
  ghost predicate Transferable(t: Tables) {
    && RowsOk(t)
    && (forall id :: id in t.monitors ==> AllIn(t.monitors[id].channelIds, t.channels.Keys))
    && (forall id :: id in t.items ==> AllIn(t.items[id].channelIds, t.channels.Keys))
    && (forall id :: id in t.shares ==> SelectionOk(t.shares[id], t.monitors.Keys, t.items.Keys))
  }

  lemma ExportKnows(b: Bundle, t: Tables, other: Tables)
    requires WellFormed(t) && IsExport(b, t)
    ensures KnownChannels(b, other, true) == t.channels.Keys
    ensures KnownMonitors(b, other, true) == t.monitors.Keys && KnownItems(b, other, true) == t.items.Keys
  {
  }

  /** What holds of all rows listed holds of all rows of the table. */
  lemma RowByRow<V(!new)>(ids: seq<string>, rows: seq<V>, table: map<string, V>, p: V -> bool)
    requires Exports(ids, rows, table)
    ensures (forall k :: 0 <= k < |rows| ==> p(rows[k])) <==> (forall id :: id in table ==> p(table[id]))
  {
    forall id | id in table
      ensures exists k :: 0 <= k < |rows| && rows[k] == table[id]
    {
      assert id in Elements(ids);
      var k :| 0 <= k < |ids| && ids[k] == id;
      assert rows[k] == table[id];
    }
    forall k | 0 <= k < |rows|
      ensures ids[k] in table && rows[k] == table[ids[k]]
    {}
  }

  lemma MonitorsTransfer(b: Bundle, t: Tables)
    requires IsExport(b, t)
    ensures (forall i :: 0 <= i < |b.monitors| ==> MonitorOk(b.monitors[i]) && AllIn(b.monitors[i].channelIds, t.channels.Keys))
      <==> (forall id :: id in t.monitors ==> MonitorOk(t.monitors[id]) && AllIn(t.monitors[id].channelIds, t.channels.Keys))
  {
    var rows := Configuration(t).monitors;
    RowByRow(MonitorIds(b.monitors), b.monitors, rows, (m: Monitor) => MonitorOk(m) && AllIn(m.channelIds, t.channels.Keys));
    assert forall id :: id in t.monitors ==> rows[id] == t.monitors[id].(runtimeState := EMPTY_STATE);
  }

  lemma ItemsTransfer(b: Bundle, t: Tables)
    requires IsExport(b, t)
    ensures (forall i :: 0 <= i < |b.items| ==> ItemOk(b.items[i]) && AllIn(b.items[i].channelIds, t.channels.Keys))
      <==> (forall id :: id in t.items ==> ItemOk(t.items[id]) && AllIn(t.items[id].channelIds, t.channels.Keys))
  {
    var rows := Configuration(t).items;
    RowByRow(ItemIds(b.items), b.items, rows, (x: Item) => ItemOk(x) && AllIn(x.channelIds, t.channels.Keys));
    assert forall id :: id in t.items ==> rows[id] == t.items[id].(runtimeState := EMPTY_STATE);
  }

  lemma ItemsHaveMonitors(b: Bundle, t: Tables)
    requires WellFormed(t) && IsExport(b, t)
    ensures forall i :: 0 <= i < |b.items| ==> b.items[i].monitorId in t.monitors
  {
    var rows := Configuration(t).items;
    assert forall id :: id in t.items ==> rows[id] == t.items[id].(runtimeState := EMPTY_STATE);
    RowByRow(ItemIds(b.items), b.items, rows, (x: Item) => x.monitorId in t.monitors);
  }

  lemma SharesTransfer(b: Bundle, t: Tables)
    requires WellFormed(t) && IsExport(b, t)
    ensures SharesOk(b.shares, map[], t.monitors.Keys, t.items.Keys) <==>
      forall id :: id in t.shares ==> ShareOk(t.shares[id]) && SelectionOk(t.shares[id], t.monitors.Keys, t.items.Keys)
  {
    RowByRow(ShareIds(b.shares), b.shares, t.shares,
      (x: Share) => ShareOk(x) && SelectionOk(x, t.monitors.Keys, t.items.Keys));
    var ids := ShareIds(b.shares);
    forall i, j | 0 <= i < j < |b.shares|
      ensures b.shares[i].token != b.shares[j].token
    {
      assert ids[i] != ids[j] && b.shares[i] == t.shares[ids[i]] && b.shares[j] == t.shares[ids[j]];
    }
  }

  lemma ChannelsTransfer(b: Bundle, t: Tables)
    requires IsExport(b, t)
    ensures (forall i :: 0 <= i < |b.channels| ==> ChannelOk(b.channels[i])) <==>
      forall id :: id in t.channels && id != BUILT_IN_CHANNEL ==> ChannelOk(t.channels[id])
  {
    RowByRow(ChannelIds(b.channels), b.channels, Configuration(t).channels, (c: Channel) => ChannelOk(c));
    assert forall id :: id in t.channels && id != BUILT_IN_CHANNEL ==> Configuration(t).channels[id] == t.channels[id];
  }

  /** A full export may replace any store's configuration, exactly if the exporting store was consistent. */
  lemma ExportAcceptedIff(b: Bundle, t: Tables, other: Tables)
    requires WellFormed(t) && IsExport(b, t)
    ensures Accepted(b, other, true) <==> Transferable(t)
  {
    hide MonitorOk;
    hide ChannelOk;
    hide ItemOk;
    hide ShareOk;
    hide SelectionOk;
    hide AllIn;
    hide SharesOk;
    ExportKnows(b, t, other);
    ChannelsTransfer(b, t);
    MonitorsTransfer(b, t);
    ItemsTransfer(b, t);
    ItemsHaveMonitors(b, t);
    SharesTransfer(b, t);
  }

  lemma {:induction false} NothingSkipped(channels: seq<Channel>)
    requires forall i :: 0 <= i < |channels| ==> channels[i].id != BUILT_IN_CHANNEL && !channels[i].builtIn
    ensures Stored(channels) == channels
  {
    if channels != [] {
      NothingSkipped(channels[..|channels| - 1]);
    }
  }

  lemma UpsertedAll<V(!new)>(base: map<string, V>, ids: seq<string>, rows: seq<V>, table: map<string, V>)
    requires Exports(ids, rows, table) && base.Keys <= table.Keys
    ensures Upserted(base, ids, rows) == table
  {
    UpsertedRows(base, ids, rows);
    var after := Upserted(base, ids, rows);
    forall id | id in table
      ensures after[id] == table[id]
    {
      assert id in Elements(ids);
      var k :| 0 <= k < |ids| && ids[k] == id;
      assert after[ids[k]] == rows[k];
    }
  }

  /** Exporting a consistent store, and importing the export into any other in place of what it has, gives
      the other the same configuration, and monitors and items that start without state. */
  lemma ExportImportRoundTrip(b: Bundle, t: Tables, other: Tables)
    requires WellFormed(t) && WellFormed(other) && IsExport(b, t) && Transferable(t)
    ensures Accepted(b, other, true) && NoConflict(other, b, true)
    ensures var s, c := Imported(other, b, true), Configuration(t);
      && s == Tables(WithBuiltIn(c.channels, other), c.monitors, c.items, c.shares)
      && Configuration(s) == c && IsExport(b, s)
  {
    hide Upserted;
    hide NoConflict;
    hide Accepted;
    hide Transferable;
    var base, c := Cleared(other, b), Configuration(t);
    ExportAcceptedIff(b, t, other);
    AcceptedImportSucceeds(other, b, true);
    UpsertedAll(base.monitors, MonitorIds(b.monitors), b.monitors, c.monitors);
    UpsertedAll(base.items, ItemIds(b.items), b.items, c.items);
    UpsertedAll(base.shares, ShareIds(b.shares), b.shares, c.shares);
    ChannelsReplaced(b, t, other);
    SameConfiguration(t, other);
  }

  /** The channels of a configuration, beside the built-in channel of the store itself. */
  ghost function WithBuiltIn(channels: map<string, Channel>, store: Tables): map<string, Channel>
    requires WellFormed(store)
  {
    channels[BUILT_IN_CHANNEL := store.channels[BUILT_IN_CHANNEL]]
  }

  lemma SameConfiguration(t: Tables, other: Tables)
    requires WellFormed(other)
    ensures var c := Configuration(t);
      Configuration(Tables(WithBuiltIn(c.channels, other), c.monitors, c.items, c.shares)) == c
  {
    var c := Configuration(t);
    assert WithBuiltIn(c.channels, other) - {BUILT_IN_CHANNEL} == c.channels;
  }

  lemma ExportedAreOwn(b: Bundle, t: Tables)
    requires WellFormed(t) && IsExport(b, t)
    ensures Stored(b.channels) == b.channels
  {
    RowByRow(ChannelIds(b.channels), b.channels, Configuration(t).channels,
      (c: Channel) => c.id != BUILT_IN_CHANNEL && !c.builtIn);
    NothingSkipped(b.channels);
  }

  lemma ChannelsReplaced(b: Bundle, t: Tables, other: Tables)
    requires WellFormed(t) && WellFormed(other) && IsExport(b, t)
    ensures Imported(other, b, true).channels == WithBuiltIn(Configuration(t).channels, other)
  {
    var base, c := Cleared(other, b).channels, Configuration(t).channels;
    ExportedAreOwn(b, t);
    UpsertedOver(base, ChannelIds(b.channels), b.channels, c, BUILT_IN_CHANNEL);
    assert base[BUILT_IN_CHANNEL] == other.channels[BUILT_IN_CHANNEL];
  }

  lemma UpsertedOver<V(!new)>(base: map<string, V>, ids: seq<string>, rows: seq<V>, table: map<string, V>, extra: string)
    requires Exports(ids, rows, table) && extra in base && extra !in table && base.Keys <= table.Keys + {extra}
    ensures Upserted(base, ids, rows) == table[extra := base[extra]]
  {
    UpsertedRows(base, ids, rows);
    var after := Upserted(base, ids, rows);
    forall id | id in table
      ensures after[id] == table[id]
    {
      assert id in Elements(ids);
      var k :| 0 <= k < |ids| && ids[k] == id;
      assert after[ids[k]] == rows[k];
    }
  }

  /** The round trip row by row: in the other store each monitor and item has all its fields, and no state,
      each share and each channel of its own is as it was, and there is nothing else. */
  lemma RowsAfterRoundTrip(b: Bundle, t: Tables, other: Tables)
    requires WellFormed(t) && WellFormed(other) && IsExport(b, t) && Transferable(t)
    ensures var s := Imported(other, b, true);
      && s.monitors.Keys == t.monitors.Keys && s.items.Keys == t.items.Keys && s.shares.Keys == t.shares.Keys
      && s.channels.Keys == t.channels.Keys
      && (forall id :: id in t.monitors ==>
            var m := t.monitors[id];
            s.monitors[id] == Monitor(m.id, m.name, m.moduleType, m.channelIds, m.config, "{}"))
      && (forall id :: id in t.items ==>
            var x := t.items[id];
            s.items[id] == Item(x.id, x.name, x.monitorId, x.channelIds, x.historyLimit, x.config, "{}"))
      && (forall id :: id in t.shares ==> s.shares[id] == t.shares[id])
      && (forall id :: id in t.channels ==>
            s.channels[id] == if id == BUILT_IN_CHANNEL then other.channels[id] else t.channels[id])
  {
    hide Imported, IsExport, Transferable, NoConflict, Accepted;
    ExportImportRoundTrip(b, t, other);
  }
}
