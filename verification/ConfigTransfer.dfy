/**
 What an accepted import does to the store: it never violates a constraint, its references resolve, and
 a merge leaves the other rows alone.
 */
module ConfigTransfer {
  import opened ConfigBundles
  import opened ConfigImport
  import opened Wrappers

  // ----- The rows after an import -----

  ghost predicate Flagged(b: Bundle, id: string) {
    exists i :: 0 <= i < |b.channels| && b.channels[i].id == id && b.channels[i].builtIn
  }

  ghost predicate Unflagged(channels: seq<Channel>, id: string) {
    exists i :: 0 <= i < |channels| && channels[i].id == id && !channels[i].builtIn && id != BUILT_IN_CHANNEL
  }

  lemma IdsAppend(before: seq<Channel>, c: Channel)
    ensures Elements(ChannelIds(before + [c])) == Elements(ChannelIds(before)) + {c.id}
    ensures Distinct(ChannelIds(before)) && c.id !in Elements(ChannelIds(before)) ==> Distinct(ChannelIds(before + [c]))
  {
    var ids := ChannelIds(before + [c]);
    Longer(ids, |before|);
    assert ids[..|before|] == ChannelIds(before) && ids[..|before| + 1] == ids;
  }

  lemma {:induction false} StoredIds(channels: seq<Channel>, id: string)
    ensures id in Elements(ChannelIds(Stored(channels))) <==> Unflagged(channels, id)
  {
    if channels != [] {
      var n := |channels| - 1;
      var c := channels[n];
      StoredIds(channels[..n], id);
      IdsAppend(Stored(channels[..n]), c);
      assert Stored(channels[..n]) + [] == Stored(channels[..n]);
      UnflaggedAppend(channels, id);
    }
  }

  lemma UnflaggedAppend(channels: seq<Channel>, id: string)
    requires channels != []
    ensures var n := |channels| - 1;
      Unflagged(channels, id) <==>
      Unflagged(channels[..n], id) || (channels[n].id == id && !channels[n].builtIn && id != BUILT_IN_CHANNEL)
  {
    var n := |channels| - 1;
    assert forall i :: 0 <= i < n ==> channels[..n][i] == channels[i];
  }

  lemma {:induction false} StoredDistinct(channels: seq<Channel>)
    requires Distinct(ChannelIds(channels))
    ensures Distinct(ChannelIds(Stored(channels)))
  {
    if channels != [] {
      var n := |channels| - 1;
      var ids, c := ChannelIds(channels), channels[n];
      assert ChannelIds(channels[..n]) == ids[..n];
      StoredDistinct(channels[..n]);
      StoredIds(channels[..n], c.id);
      forall i | 0 <= i < n
        ensures channels[..n][i].id != c.id
      {
        assert ids[i] != ids[n];
      }
      IdsAppend(Stored(channels[..n]), c);
      assert Stored(channels[..n]) + [] == Stored(channels[..n]);
    }
  }

  /** The ids after an import are those the validation took references to. */
  lemma KeysAfter(t: Tables, b: Bundle, replace: bool)
    requires WellFormed(t)
    ensures Imported(t, b, replace).monitors.Keys == KnownMonitors(b, t, replace)
    ensures Imported(t, b, replace).items.Keys == KnownItems(b, t, replace)
    ensures Imported(t, b, replace).shares.Keys == Elements(ShareIds(b.shares)) + if replace then {} else t.shares.Keys
  {
    var base := Base(t, b, replace);
    UpsertedRows(base.monitors, MonitorIds(b.monitors), b.monitors);
    UpsertedRows(base.items, ItemIds(b.items), b.items);
    UpsertedRows(base.shares, ShareIds(b.shares), b.shares);
  }

  /** A channel is there after an import if it was there and did not go, or if the import wrote it. */
  lemma ChannelAfter(t: Tables, b: Bundle, replace: bool, id: string)
    requires WellFormed(t)
    ensures id in Imported(t, b, replace).channels <==>
      Unflagged(b.channels, id)
      || (id in t.channels && (replace ==> id == BUILT_IN_CHANNEL || id in Elements(ChannelIds(b.channels))))
  {
    var stored := Stored(b.channels);
    UpsertedRows(Base(t, b, replace).channels, ChannelIds(stored), stored);
    StoredIds(b.channels, id);
  }

  lemma FlaggedOrNot(b: Bundle, id: string)
    requires ContentsOk(b)
    ensures id in Elements(ChannelIds(b.channels)) <==> Flagged(b, id) || Unflagged(b.channels, id)
    ensures !(Flagged(b, id) && Unflagged(b.channels, id))
  {
    var ids := ChannelIds(b.channels);
    forall i, j | 0 <= i < |ids| && 0 <= j < |ids| && b.channels[i].id == b.channels[j].id
      ensures i == j
    {
      assert ids[i] == ids[j];
    }
    forall i | 0 <= i < |ids|
      ensures ids[i] == b.channels[i].id != BUILT_IN_CHANNEL
    {
      assert ChannelOk(b.channels[i]);
    }
    if id in Elements(ids) {
      var i :| 0 <= i < |ids| && ids[i] == id;
      assert b.channels[i].id == id;
    }
    if exists i :: 0 <= i < |ids| && b.channels[i].id == id {
      var i :| 0 <= i < |ids| && b.channels[i].id == id;
      assert ids[i] in Elements(ids);
    }
  }

  // ----- Constraints -----

  /** Where a row of the table of shares comes from after the first k of the bundle. */
  lemma ShareOrigin(t: Tables, b: Bundle, replace: bool, k: nat, id: string)
    requires k <= |b.shares| && Distinct(ShareIds(b.shares)) && id in SharesAfter(t, b, replace, k)
    ensures var share := SharesAfter(t, b, replace, k)[id];
      || (exists j :: 0 <= j < k && b.shares[j].id == id && share == b.shares[j])
      || (!replace && id in t.shares && share == t.shares[id] && forall j :: 0 <= j < k ==> b.shares[j].id != id)
  {
    var ids, base := ShareIds(b.shares), Base(t, b, replace).shares;
    assert Distinct(ids[..k]);
    UpsertedRows(base, ids[..k], b.shares[..k]);
    if id in Elements(ids[..k]) {
      var j :| 0 <= j < k && ids[..k][j] == id;
      assert SharesAfter(t, b, replace, k)[ids[..k][j]] == b.shares[..k][j];
    } else {
      forall j | 0 <= j < k
        ensures b.shares[j].id != id
      {
        assert ids[..k][j] == b.shares[j].id;
      }
    }
  }

  /** After every single upsert the tokens are distinct, and the next token is free. */
  lemma TokensStayUnique(t: Tables, b: Bundle, replace: bool, k: nat)
    requires WellFormed(t) && Accepted(b, t, replace) && k <= |b.shares|
    ensures TokensUnique(SharesAfter(t, b, replace, k))
    ensures k < |b.shares| ==> TokenFree(SharesAfter(t, b, replace, k), b.shares[k])
  {
    hide SharesAfter;
    hide KnownChannels;
    hide KnownMonitors;
    hide KnownItems;
    var after := SharesAfter(t, b, replace, k);
    forall x, y | x in after && y in after && x != y
      ensures after[x].token != after[y].token
    {
      ShareOrigin(t, b, replace, k, x);
      ShareOrigin(t, b, replace, k, y);
    }
    forall x | x in after && k < |b.shares| && x != b.shares[k].id
      ensures after[x].token != b.shares[k].token
    {
      ShareOrigin(t, b, replace, k, x);
    }
  }

  /** The store refuses no row of an accepted bundle, and stays well formed. */
  lemma AcceptedImportSucceeds(t: Tables, b: Bundle, replace: bool)
    requires WellFormed(t) && Accepted(b, t, replace)
    ensures NoConflict(t, b, replace) && WellFormed(Imported(t, b, replace))
  {
    KeysAfter(t, b, replace);
    forall k | 0 <= k < |b.shares|
      ensures TokenFree(SharesAfter(t, b, replace, k), b.shares[k])
    {
      TokensStayUnique(t, b, replace, k);
    }
    AllRowsWritten(t, b, replace);
    StoreStaysWellFormed(t, b, replace);
  }

  lemma AllRowsWritten(t: Tables, b: Bundle, replace: bool)
    ensures SharesAfter(t, b, replace, |b.shares|) == Imported(t, b, replace).shares
  {
    UpsertedStep(Base(t, b, replace).shares, ShareIds(b.shares), b.shares, |b.shares|);
  }

  lemma RowsKeepIds<V>(table: map<string, V>, ids: seq<string>, rows: seq<V>, idOf: V -> string)
    requires |ids| == |rows| && Distinct(ids)
    requires forall id :: id in table ==> idOf(table[id]) == id
    requires forall k :: 0 <= k < |ids| ==> idOf(rows[k]) == ids[k]
    ensures forall id :: id in Upserted(table, ids, rows) ==> idOf(Upserted(table, ids, rows)[id]) == id
  {
    UpsertedRows(table, ids, rows);
  }

  lemma StoreStaysWellFormed(t: Tables, b: Bundle, replace: bool)
    requires WellFormed(t) && Accepted(b, t, replace)
    ensures WellFormed(Imported(t, b, replace))
  {
    hide Upserted;
    var s, base := Imported(t, b, replace), Base(t, b, replace);
    RowsKeepIds(base.monitors, MonitorIds(b.monitors), b.monitors, (m: Monitor) => m.id);
    RowsKeepIds(base.items, ItemIds(b.items), b.items, (i: Item) => i.id);
    RowsKeepIds(base.shares, ShareIds(b.shares), b.shares, (x: Share) => x.id);
    AllRowsWritten(t, b, replace);
    TokensStayUnique(t, b, replace, |b.shares|);
    ItemsKeepMonitors(t, b, replace);
    ChannelsStayWellFormed(t, b, replace);
  }

  lemma ItemsKeepMonitors(t: Tables, b: Bundle, replace: bool)
    requires WellFormed(t) && Accepted(b, t, replace)
    ensures var s := Imported(t, b, replace); forall id :: id in s.items ==> s.items[id].monitorId in s.monitors
  {
    KeysAfter(t, b, replace);
    UpsertedRows(Base(t, b, replace).items, ItemIds(b.items), b.items);
    var s, ids := Imported(t, b, replace), ItemIds(b.items);
    forall id | id in s.items
      ensures s.items[id].monitorId in s.monitors
    {
      if id in Elements(ids) {
        var k :| 0 <= k < |ids| && ids[k] == id;
        assert s.items[id] == b.items[k];
      }
    }
  }

  lemma ChannelsStayWellFormed(t: Tables, b: Bundle, replace: bool)
    requires WellFormed(t) && ContentsOk(b)
    ensures var s := Imported(t, b, replace);
      && BUILT_IN_CHANNEL in s.channels
      && forall id :: id in s.channels ==> s.channels[id].id == id && (s.channels[id].builtIn <==> id == BUILT_IN_CHANNEL)
  {
    var base, stored := Base(t, b, replace).channels, Stored(b.channels);
    StoredDistinct(b.channels);
    UpsertedRows(base, ChannelIds(stored), stored);
    RowsKeepIds(base, ChannelIds(stored), stored, (c: Channel) => c.id);
    var ids, after := ChannelIds(stored), Upserted(base, ChannelIds(stored), stored);
    forall id | id in after
      ensures after[id].builtIn <==> id == BUILT_IN_CHANNEL
    {
      if id in Elements(ids) {
        var k :| 0 <= k < |ids| && ids[k] == id;
        assert after[ids[k]] == stored[k];
      }
    }
  }

  // ----- References -----

  /** Every reference of the bundle's rows leads to a row. */
  ghost predicate Resolves(b: Bundle, s: Tables) {
    && ReferencesOk(b, s.channels.Keys, s.monitors.Keys)
    && forall i :: 0 <= i < |b.shares| ==>
         AllIn(b.shares[i].monitorIds, s.monitors.Keys) && AllIn(b.shares[i].itemIds, s.items.Keys)
  }

  ghost predicate RefersTo(b: Bundle, id: string) {
    || (exists i :: 0 <= i < |b.monitors| && id in b.monitors[i].channelIds)
    || (exists i :: 0 <= i < |b.items| && id in b.items[i].channelIds)
  }

  /** The channels that the bundle flags as built in and that its rows refer to are in the store already. */
  ghost predicate FlaggedPresent(b: Bundle, t: Tables) {
    forall id :: Flagged(b, id) && RefersTo(b, id) ==> id in t.channels
  }

  lemma KnownChannelThere(t: Tables, b: Bundle, replace: bool, id: string)
    requires WellFormed(t) && ContentsOk(b) && id in KnownChannels(b, t, replace)
    ensures id in Imported(t, b, replace).channels <==> (Flagged(b, id) ==> id in t.channels)
  {
    ChannelAfter(t, b, replace, id);
    FlaggedOrNot(b, id);
  }

  ghost predicate Present(ids: seq<string>, b: Bundle, t: Tables) {
    forall id :: id in ids && Flagged(b, id) ==> id in t.channels
  }

  lemma PresentRowByRow(b: Bundle, t: Tables)
    ensures FlaggedPresent(b, t) <==>
      && (forall i :: 0 <= i < |b.monitors| ==> Present(b.monitors[i].channelIds, b, t))
      && (forall i :: 0 <= i < |b.items| ==> Present(b.items[i].channelIds, b, t))
  {
    hide Flagged;
    if FlaggedPresent(b, t) {
      forall i, id | 0 <= i < |b.monitors| && id in b.monitors[i].channelIds && Flagged(b, id)
        ensures id in t.channels
      {
        assert RefersTo(b, id);
      }
      forall i, id | 0 <= i < |b.items| && id in b.items[i].channelIds && Flagged(b, id)
        ensures id in t.channels
      {
        assert RefersTo(b, id);
      }
    }
  }

  lemma ChannelsResolve(t: Tables, b: Bundle, replace: bool, ids: seq<string>)
    requires WellFormed(t) && ContentsOk(b) && AllIn(ids, KnownChannels(b, t, replace))
    ensures AllIn(ids, Imported(t, b, replace).channels.Keys) <==> Present(ids, b, t)
  {
    hide KnownChannels;
    hide Imported;
    hide ContentsOk;
    hide WellFormed;
    hide Flagged;
    forall k | 0 <= k < |ids|
      ensures ids[k] in Imported(t, b, replace).channels <==> (Flagged(b, ids[k]) ==> ids[k] in t.channels)
    {
      KnownChannelThere(t, b, replace, ids[k]);
    }
    if Present(ids, b, t) {
      forall k | 0 <= k < |ids|
        ensures ids[k] in Imported(t, b, replace).channels
      {
        assert ids[k] in ids;
      }
    }
  }

  /** After an accepted import, in either mode, every imported reference resolves exactly if the channels
      flagged as built in and referred to are in the store: the import does not write those. */
  lemma ImportedReferencesResolve(t: Tables, b: Bundle, replace: bool)
    requires WellFormed(t) && Accepted(b, t, replace)
    ensures Resolves(b, Imported(t, b, replace)) <==> FlaggedPresent(b, t)
  {
    hide Imported;
    hide KnownChannels;
    hide KnownMonitors;
    hide KnownItems;
    hide WellFormed;
    hide ContentsOk;
    hide Present;
    hide FlaggedPresent;
    var s := Imported(t, b, replace);
    KeysAfter(t, b, replace);
    PresentRowByRow(b, t);
    forall i | 0 <= i < |b.monitors|
      ensures AllIn(b.monitors[i].channelIds, s.channels.Keys) <==> Present(b.monitors[i].channelIds, b, t)
    {
      ChannelsResolve(t, b, replace, b.monitors[i].channelIds);
    }
    forall i | 0 <= i < |b.items|
      ensures AllIn(b.items[i].channelIds, s.channels.Keys) <==> Present(b.items[i].channelIds, b, t)
    {
      ChannelsResolve(t, b, replace, b.items[i].channelIds);
    }
  }

  /** A bundle that passes the validation and whose only monitor refers to nothing: the channel it names
      is flagged as built in under another id, and is not written. */
  lemma FlaggedChannelLost()
    ensures WellFormed(NewStore()) && Accepted(MisflaggedBundle(), NewStore(), false)
    ensures !Resolves(MisflaggedBundle(), Imported(NewStore(), MisflaggedBundle(), false))
  {
    hide Imported;
    hide Resolves;
    var t, b := NewStore(), MisflaggedBundle();
    assert ChannelIds(b.channels)[0] == "c";
    assert "c" in KnownChannels(b, t, false);
    assert b.channels[0].id == "c" && Flagged(b, "c");
    assert "c" in b.monitors[0].channelIds && RefersTo(b, "c");
    assert !FlaggedPresent(b, t);
    assert Accepted(b, t, false);
    ImportedReferencesResolve(t, b, false);
  }

  function NewStore(): Tables {
    Tables(map[BUILT_IN_CHANNEL := Channel(BUILT_IN_CHANNEL, "in-app", "inapp", true, Config("{}", true))], map[], map[], map[])
  }

  function MisflaggedBundle(): Bundle {
    Bundle([Channel("c", "mail", "email", true, Config("{}", true))],
           [Monitor("m", "site", "http", ["c"], Config("{}", true), EMPTY_STATE)], [], [])
  }

  /** A merge touches no row outside the bundle, and no reference of such a row is lost. */
  lemma MergeKeepsOtherRows(t: Tables, b: Bundle)
    requires WellFormed(t) && Accepted(b, t, false)
    ensures var s := Imported(t, b, false);
      && t.channels.Keys <= s.channels.Keys && t.monitors.Keys <= s.monitors.Keys && t.items.Keys <= s.items.Keys
      && (forall id :: id in t.monitors && id !in Elements(MonitorIds(b.monitors)) ==> s.monitors[id] == t.monitors[id])
      && (forall id :: id in t.items && id !in Elements(ItemIds(b.items)) ==> s.items[id] == t.items[id])
      && (forall id :: id in t.shares && id !in Elements(ShareIds(b.shares)) ==> id in s.shares && s.shares[id] == t.shares[id])
      && (forall id :: id in t.channels && !Unflagged(b.channels, id) ==> s.channels[id] == t.channels[id])
  {
    var stored := Stored(b.channels);
    KeysAfter(t, b, false);
    UpsertedRows(t.channels, ChannelIds(stored), stored);
    UpsertedRows(t.monitors, MonitorIds(b.monitors), b.monitors);
    UpsertedRows(t.items, ItemIds(b.items), b.items);
    UpsertedRows(t.shares, ShareIds(b.shares), b.shares);
    forall id | id in t.channels && !Unflagged(b.channels, id)
      ensures Imported(t, b, false).channels[id] == t.channels[id]
    {
      StoredIds(b.channels, id);
    }
  }

  // ----- The rows of the bundle -----

  lemma StandsUnderId<V>(base: map<string, V>, ids: seq<string>, rows: seq<V>)
    requires |ids| == |rows| && Distinct(ids)
    ensures forall k :: 0 <= k < |ids| ==> ids[k] in Upserted(base, ids, rows) && Upserted(base, ids, rows)[ids[k]] == rows[k]
  {
    UpsertedRows(base, ids, rows);
    assert forall k :: 0 <= k < |ids| ==> ids[k] in Elements(ids);
  }

  lemma StoredRow(channels: seq<Channel>, i: nat)
    requires i < |channels| && !channels[i].builtIn && channels[i].id != BUILT_IN_CHANNEL
    ensures exists k :: 0 <= k < |Stored(channels)| && Stored(channels)[k] == channels[i]
  {
    var n := |channels| - 1;
    var front := Stored(channels[..n]);
    if i < n {
      StoredRow(channels[..n], i);
      var k :| 0 <= k < |front| && front[k] == channels[i];
      assert Stored(channels)[k] == channels[i];
    } else {
      assert Stored(channels)[|front|] == channels[i];
    }
  }

  /** After an accepted import, in either mode, every row of the bundle stands under its id exactly as the
      bundle has it, whatever stood there before; of the channels those not flagged as built in. */
  lemma ImportedRowsStand(t: Tables, b: Bundle, replace: bool)
    requires Accepted(b, t, replace)
    ensures var s := Imported(t, b, replace);
      && (forall i :: 0 <= i < |b.monitors| ==> b.monitors[i].id in s.monitors && s.monitors[b.monitors[i].id] == b.monitors[i])
      && (forall i :: 0 <= i < |b.items| ==> b.items[i].id in s.items && s.items[b.items[i].id] == b.items[i])
      && (forall i :: 0 <= i < |b.shares| ==> b.shares[i].id in s.shares && s.shares[b.shares[i].id] == b.shares[i])
      && (forall i :: 0 <= i < |b.channels| && !b.channels[i].builtIn ==>
            b.channels[i].id in s.channels && s.channels[b.channels[i].id] == b.channels[i])
  {
    hide Upserted;
    var s, base, stored := Imported(t, b, replace), Base(t, b, replace), Stored(b.channels);
    StandsUnderId(base.monitors, MonitorIds(b.monitors), b.monitors);
    StandsUnderId(base.items, ItemIds(b.items), b.items);
    StandsUnderId(base.shares, ShareIds(b.shares), b.shares);
    assert forall i :: 0 <= i < |b.monitors| ==> MonitorIds(b.monitors)[i] == b.monitors[i].id;
    assert forall i :: 0 <= i < |b.items| ==> ItemIds(b.items)[i] == b.items[i].id;
    assert forall i :: 0 <= i < |b.shares| ==> ShareIds(b.shares)[i] == b.shares[i].id;
    StoredDistinct(b.channels);
    StandsUnderId(base.channels, ChannelIds(stored), stored);
    forall i | 0 <= i < |b.channels| && !b.channels[i].builtIn
      ensures b.channels[i].id in s.channels && s.channels[b.channels[i].id] == b.channels[i]
    {
      assert ChannelOk(b.channels[i]);
      StoredRow(b.channels, i);
      var k :| 0 <= k < |stored| && stored[k] == b.channels[i];
      assert ChannelIds(stored)[k] == b.channels[i].id;
    }
  }

  /** Starting the state anew does not change whether a bundle is acceptable. */
  lemma NormalizedAccepted(t: Tables, b: Bundle, replace: bool)
    requires Accepted(b, t, replace)
    ensures Accepted(Normalized(b), t, replace)
  {
    var n := Normalized(b);
    assert MonitorIds(n.monitors) == MonitorIds(b.monitors) && ItemIds(n.items) == ItemIds(b.items);
    assert KnownChannels(n, t, replace) == KnownChannels(b, t, replace);
    assert KnownMonitors(n, t, replace) == KnownMonitors(b, t, replace) && KnownItems(n, t, replace) == KnownItems(b, t, replace);
  }

  /** From the validation to the store: a bundle that is accepted is imported without a conflict, and each
      of its monitors and items then stands in the store with all its fields, and with no state. */
  lemma ValidatedIsImported(t: Tables, b: Bundle, replace: bool)
    requires WellFormed(t) && Accepted(b, t, replace)
    ensures NoConflict(t, Normalized(b), replace)
    ensures var s := Imported(t, Normalized(b), replace);
      && (forall i :: 0 <= i < |b.monitors| ==>
            var m := b.monitors[i];
            m.id in s.monitors && s.monitors[m.id] == Monitor(m.id, m.name, m.moduleType, m.channelIds, m.config, "{}"))
      && (forall i :: 0 <= i < |b.items| ==>
            var x := b.items[i];
            x.id in s.items && s.items[x.id] == Item(x.id, x.name, x.monitorId, x.channelIds, x.historyLimit, x.config, "{}"))
  {
    hide Accepted, Imported, NoConflict;
    var n := Normalized(b);
    NormalizedAccepted(t, b, replace);
    AcceptedImportSucceeds(t, n, replace);
    ImportedRowsStand(t, n, replace);
    assert forall i :: 0 <= i < |b.monitors| ==> n.monitors[i].id == b.monitors[i].id;
    assert forall i :: 0 <= i < |b.items| ==> n.items[i].id == b.items[i].id;
  }
}
