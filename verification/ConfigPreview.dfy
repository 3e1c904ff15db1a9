/**
 The preview of an import: per table, the ids it will add, overwrite and delete, against what the import
 then does.
 */
module ConfigPreview {
  import opened ConfigBundles
  import opened ConfigImport
  import opened ConfigTransfer

  datatype TransferItem = TransferItem(id: string, name: string)

  datatype Changes = Changes(added: seq<TransferItem>, overwritten: seq<TransferItem>, deleted: seq<TransferItem>)

  function Ids(items: seq<TransferItem>): set<string> { set i | 0 <= i < |items| :: items[i].id }

  lemma IdsOfAppend(items: seq<TransferItem>, item: TransferItem)
    ensures Ids(items + [item]) == Ids(items) + {item.id}
  {
    var longer := items + [item];
    assert longer[|items|] == item;
    assert forall i :: 0 <= i < |items| ==> longer[i] == items[i];
  }

  /** Every incoming item is either added or overwritten, and what would go is deleted. */
  method CompareTransferItems(incoming: seq<TransferItem>, existing: seq<TransferItem>, replace: bool)
    returns (changes: Changes)
    ensures multiset(changes.added) + multiset(changes.overwritten) == multiset(incoming)
    ensures Ids(changes.added) == Ids(incoming) - Ids(existing)
    ensures Ids(changes.overwritten) == Ids(incoming) * Ids(existing)
    ensures Ids(changes.deleted) == if replace then Ids(existing) - Ids(incoming) else {}
  {
    var existingIds, incomingIds: set<string> := {}, {};
    for i := 0 to |existing|
      invariant existingIds == Ids(existing[..i])
    {
      assert existing[..i + 1] == existing[..i] + [existing[i]];
      IdsOfAppend(existing[..i], existing[i]);
      existingIds := existingIds + {existing[i].id};
    }
    assert existing[..|existing|] == existing;
    var added, overwritten, deleted: seq<TransferItem> := [], [], [];
    for i := 0 to |incoming|
      invariant incomingIds == Ids(incoming[..i])
      invariant multiset(added) + multiset(overwritten) == multiset(incoming[..i])
      invariant Ids(added) == incomingIds - existingIds && Ids(overwritten) == incomingIds * existingIds
    {
      var item := incoming[i];
      assert incoming[..i + 1] == incoming[..i] + [item];
      IdsOfAppend(incoming[..i], item);
      incomingIds := incomingIds + {item.id};
      if item.id in existingIds {
        IdsOfAppend(overwritten, item);
        overwritten := overwritten + [item];
      } else {
        IdsOfAppend(added, item);
        added := added + [item];
      }
    }
    assert incoming[..|incoming|] == incoming;
    if replace {
      deleted := StaleItems(existing, incomingIds);
    }
    return Changes(added, overwritten, deleted);
  }

  method StaleItems(existing: seq<TransferItem>, incomingIds: set<string>) returns (deleted: seq<TransferItem>)
    ensures Ids(deleted) == Ids(existing) - incomingIds
  {
    deleted := [];
    for i := 0 to |existing|
      invariant Ids(deleted) == Ids(existing[..i]) - incomingIds
    {
      assert existing[..i + 1] == existing[..i] + [existing[i]];
      IdsOfAppend(existing[..i], existing[i]);
      if existing[i].id !in incomingIds {
        IdsOfAppend(deleted, existing[i]);
        deleted := deleted + [existing[i]];
      }
    }
    assert existing[..|existing|] == existing;
  }

  /** The ids of a preview of one table. */
  datatype IdChanges = IdChanges(added: set<string>, overwritten: set<string>, deleted: set<string>)

  ghost function Compared(incoming: set<string>, existing: set<string>, replace: bool): IdChanges {
    IdChanges(incoming - existing, incoming * existing, if replace then existing - incoming else {})
  }

  /** A preview of incoming rows describes a change: nothing is announced twice, the ids change as announced,
      rows not mentioned stay, and what is added or overwritten is then as it came, if it came once. */
  ghost predicate Describes<V(!new)>(
      changes: IdChanges, ids: seq<string>, rows: seq<V>, before: map<string, V>, after: map<string, V>)
    requires |ids| == |rows|
  {
    && changes.added !! before.Keys && changes.overwritten <= before.Keys && changes.deleted <= before.Keys
    && changes.overwritten !! changes.deleted
    && after.Keys == (before.Keys - changes.deleted) + changes.added
    && (forall id :: id in after.Keys - changes.added - changes.overwritten ==> after[id] == before[id])
    && changes.added + changes.overwritten == Elements(ids)
    && (Distinct(ids) ==> forall k :: 0 <= k < |ids| ==> ids[k] in after && after[ids[k]] == rows[k])
  }

  ghost function IdsOf(c: Changes): IdChanges { IdChanges(Ids(c.added), Ids(c.overwritten), Ids(c.deleted)) }

  method ListItems<V>(table: map<string, V>, nameOf: V -> string, hidden: set<string>) returns (items: seq<TransferItem>)
    ensures Ids(items) == table.Keys - hidden
  {
    items := [];
    var rest := table.Keys - hidden;
    while rest != {}
      invariant rest <= table.Keys - hidden && Ids(items) == table.Keys - hidden - rest
      decreases |rest|
    {
      var id :| id in rest;
      IdsOfAppend(items, TransferItem(id, nameOf(table[id])));
      items := items + [TransferItem(id, nameOf(table[id]))];
      rest := rest - {id};
    }
  }

  lemma IdsAreIds(items: seq<TransferItem>, ids: seq<string>)
    requires |items| == |ids| && forall i :: 0 <= i < |ids| ==> items[i].id == ids[i]
    ensures Ids(items) == Elements(ids)
  {
    forall i | 0 <= i < |ids|
      ensures ids[i] in Ids(items) && items[i].id in Elements(ids)
    {
      assert items[i].id == ids[i];
    }
  }

  /** The preview of all tables, for the tables as they are. */
  method BuildImportSummary(b: Bundle, t: Tables, replace: bool)
    returns (channels: Changes, monitors: Changes, items: Changes, shares: Changes)
    requires WellFormed(t)
    ensures IdsOf(channels) == Compared(Elements(ChannelIds(Stored(b.channels))), OwnChannels(t), replace)
    ensures IdsOf(monitors) == Compared(Elements(MonitorIds(b.monitors)), t.monitors.Keys, replace)
    ensures IdsOf(items) == Compared(Elements(ItemIds(b.items)), t.items.Keys, replace)
    ensures IdsOf(shares) == Compared(Elements(ShareIds(b.shares)), t.shares.Keys, replace)
  {
    hide Stored;
    var stored := Stored(b.channels);
    var names := seq(|stored|, i requires 0 <= i < |stored| => stored[i].name);
    channels := PreviewTable(ChannelIds(stored), names, t.channels, (c: Channel) => c.name, {BUILT_IN_CHANNEL}, replace);
    names := seq(|b.monitors|, i requires 0 <= i < |b.monitors| => b.monitors[i].name);
    monitors := PreviewTable(MonitorIds(b.monitors), names, t.monitors, (m: Monitor) => m.name, {}, replace);
    names := seq(|b.items|, i requires 0 <= i < |b.items| => b.items[i].name);
    items := PreviewTable(ItemIds(b.items), names, t.items, (i: Item) => i.name, {}, replace);
    names := seq(|b.shares|, i requires 0 <= i < |b.shares| => b.shares[i].name);
    shares := PreviewTable(ShareIds(b.shares), names, t.shares, (x: Share) => x.name, {}, replace);
    assert t.monitors.Keys - {} == t.monitors.Keys && t.items.Keys - {} == t.items.Keys;
    assert t.shares.Keys - {} == t.shares.Keys;
  }

  method PreviewTable<V>(
      ids: seq<string>, names: seq<string>, table: map<string, V>, nameOf: V -> string, hidden: set<string>, replace: bool)
    returns (changes: Changes)
    requires |ids| == |names|
    ensures IdsOf(changes) == Compared(Elements(ids), table.Keys - hidden, replace)
  {
    var incoming := seq(|ids|, i requires 0 <= i < |ids| => TransferItem(ids[i], names[i]));
    IdsAreIds(incoming, ids);
    var existing := ListItems(table, nameOf, hidden);
    changes := CompareTransferItems(incoming, existing, replace);
  }

  ghost function OwnChannels(t: Tables): set<string> { t.channels.Keys - {BUILT_IN_CHANNEL} }

  lemma DescribesUpsert<V(!new)>(before: map<string, V>, base: map<string, V>, ids: seq<string>, rows: seq<V>, replace: bool)
    requires |ids| == |rows|
    requires base.Keys <= before.Keys && (replace ==> base.Keys <= Elements(ids)) && (!replace ==> base == before)
    requires forall id :: id in base ==> base[id] == before[id]
    ensures Describes(Compared(Elements(ids), before.Keys, replace), ids, rows, before, Upserted(base, ids, rows))
  {
    UpsertedRows(base, ids, rows);
    assert forall k :: 0 <= k < |ids| ==> ids[k] in Elements(ids);
  }

  /** The preview of monitors, items and shares is exactly what the import does to them. */
  lemma PreviewIsEffect(t: Tables, b: Bundle, replace: bool)
    ensures var s := Imported(t, b, replace);
      && Describes(Compared(Elements(MonitorIds(b.monitors)), t.monitors.Keys, replace), MonitorIds(b.monitors), b.monitors, t.monitors, s.monitors)
      && Describes(Compared(Elements(ItemIds(b.items)), t.items.Keys, replace), ItemIds(b.items), b.items, t.items, s.items)
      && Describes(Compared(Elements(ShareIds(b.shares)), t.shares.Keys, replace), ShareIds(b.shares), b.shares, t.shares, s.shares)
  {
    var base := Base(t, b, replace);
    DescribesUpsert(t.monitors, base.monitors, MonitorIds(b.monitors), b.monitors, replace);
    DescribesUpsert(t.items, base.items, ItemIds(b.items), b.items, replace);
    DescribesUpsert(t.shares, base.shares, ShareIds(b.shares), b.shares, replace);
  }

  ghost predicate NoFlaggedRow(b: Bundle, t: Tables) {
    forall id :: Flagged(b, id) && id in t.channels ==> id == BUILT_IN_CHANNEL
  }

  /** The preview of the channels is what the import does exactly if, in replace mode, no channel flagged
      as built in has the id of an ordinary channel of the store: that one is announced as deleted, and stays. */
  lemma ChannelPreviewIsEffectIff(t: Tables, b: Bundle, replace: bool)
    requires WellFormed(t) && ContentsOk(b)
    ensures var s := Imported(t, b, replace);
      var rows := Stored(b.channels);
      var changes := Compared(Elements(ChannelIds(rows)), OwnChannels(t), replace);
      var before, after := t.channels - {BUILT_IN_CHANNEL}, s.channels - {BUILT_IN_CHANNEL};
      Describes(changes, ChannelIds(rows), rows, before, after) <==> (replace ==> NoFlaggedRow(b, t))
  {
    hide Imported, Elements, Stored, NoFlaggedRow, Distinct, Unflagged, Flagged, ContentsOk, WellFormed;
    var incoming := Elements(ChannelIds(Stored(b.channels)));
    IncomingChannels(b, incoming);
    ChannelKeys(t, b, replace, incoming);
    ChannelRowsKept(t, b, replace);
    ChannelRowsStand(t, b, replace);
    var changes := Compared(incoming, OwnChannels(t), replace);
    assert changes.added + changes.overwritten == incoming;
  }

  lemma IncomingChannels(b: Bundle, incoming: set<string>)
    requires ContentsOk(b) && incoming == Elements(ChannelIds(Stored(b.channels)))
    ensures forall id :: id in incoming <==> Unflagged(b.channels, id)
    ensures forall id :: id in Elements(ChannelIds(b.channels)) <==> Flagged(b, id) || Unflagged(b.channels, id)
    ensures forall id :: !(Flagged(b, id) && Unflagged(b.channels, id))
  {
    forall id
      ensures id in incoming <==> Unflagged(b.channels, id)
      ensures id in Elements(ChannelIds(b.channels)) <==> Flagged(b, id) || Unflagged(b.channels, id)
      ensures !(Flagged(b, id) && Unflagged(b.channels, id))
    {
      StoredIds(b.channels, id);
      FlaggedOrNot(b, id);
    }
  }

  lemma ChannelRowsKept(t: Tables, b: Bundle, replace: bool)
    ensures var s, incoming := Imported(t, b, replace), Elements(ChannelIds(Stored(b.channels)));
      forall id :: id in s.channels && id !in incoming ==> id in t.channels && s.channels[id] == t.channels[id]
  {
    UpsertedRows(Base(t, b, replace).channels, ChannelIds(Stored(b.channels)), Stored(b.channels));
  }

  lemma ChannelRowsStand(t: Tables, b: Bundle, replace: bool)
    ensures var rows, after := Stored(b.channels), Imported(t, b, replace).channels - {BUILT_IN_CHANNEL};
      Distinct(ChannelIds(rows)) ==>
        forall k :: 0 <= k < |rows| ==> ChannelIds(rows)[k] in after && after[ChannelIds(rows)[k]] == rows[k]
  {
    hide Upserted;
    var rows := Stored(b.channels);
    if Distinct(ChannelIds(rows)) {
      StandsUnderId(Base(t, b, replace).channels, ChannelIds(rows), rows);
    }
  }

  lemma ChannelKeys(t: Tables, b: Bundle, replace: bool, incoming: set<string>)
    requires WellFormed(t)
    requires forall id :: id in incoming <==> Unflagged(b.channels, id)
    requires forall id :: id in Elements(ChannelIds(b.channels)) <==> Flagged(b, id) || Unflagged(b.channels, id)
    requires forall id :: !(Flagged(b, id) && Unflagged(b.channels, id))
    ensures var keys := Imported(t, b, replace).channels.Keys - {BUILT_IN_CHANNEL};
      var announced := (OwnChannels(t) - Compared(incoming, OwnChannels(t), replace).deleted) + (incoming - OwnChannels(t));
      keys == announced <==> (replace ==> NoFlaggedRow(b, t))
  {
    var keys := Imported(t, b, replace).channels.Keys - {BUILT_IN_CHANNEL};
    forall id
      ensures id in keys <==>
              id != BUILT_IN_CHANNEL
              && (id in incoming || (id in t.channels && (replace ==> Flagged(b, id) || Unflagged(b.channels, id))))
    {
      ChannelAfter(t, b, replace, id);
    }
    if replace && !NoFlaggedRow(b, t) {
      var id :| Flagged(b, id) && id in t.channels && id != BUILT_IN_CHANNEL;
      assert id in keys && id !in incoming;
    }
  }
}
