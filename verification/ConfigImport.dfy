/** Importing an accepted bundle: the upserts, and the one transaction that rewrites four tables. */
module ConfigImport {
  import opened ConfigBundles
  import opened Wrappers

  // ----- Upserts -----

  /** The table after one row after another has been inserted or overwritten. */
  ghost function Upserted<V>(table: map<string, V>, ids: seq<string>, rows: seq<V>): map<string, V>
    requires |ids| == |rows|
  {
    if ids == [] then table
    else
      var n := |ids| - 1;
      Upserted(table, ids[..n], rows[..n])[ids[n] := rows[n]]
  }

  lemma UpsertedStep<V>(table: map<string, V>, ids: seq<string>, rows: seq<V>, i: nat)
    requires i <= |ids| == |rows|
    ensures ids[..|ids|] == ids && rows[..|rows|] == rows
    ensures i < |ids| ==>
      Upserted(table, ids[..i + 1], rows[..i + 1]) == Upserted(table, ids[..i], rows[..i])[ids[i] := rows[i]]
  {
    if i < |ids| {
      assert ids[..i + 1][..i] == ids[..i] && rows[..i + 1][..i] == rows[..i];
    }
  }

  lemma {:induction false} UpsertedRows<V>(table: map<string, V>, ids: seq<string>, rows: seq<V>)
    requires |ids| == |rows|
    ensures Upserted(table, ids, rows).Keys == table.Keys + Elements(ids)
    ensures forall id :: id in table && id !in Elements(ids) ==> Upserted(table, ids, rows)[id] == table[id]
    ensures Distinct(ids) ==> forall k :: 0 <= k < |ids| ==> Upserted(table, ids, rows)[ids[k]] == rows[k]
  {
    if ids != [] {
      var n := |ids| - 1;
      UpsertedRows(table, ids[..n], rows[..n]);
      Longer(ids, n);
      assert ids[..n + 1] == ids;
      if Distinct(ids) {
        forall k | 0 <= k < |ids|
          ensures Upserted(table, ids, rows)[ids[k]] == rows[k]
        {
          assert k < n ==> ids[..n][k] == ids[k] && rows[..n][k] == rows[k];
        }
      }
    }
  }

  /** The channels an import writes: not the built-in one, and none flagged as built in. */
  function Stored(channels: seq<Channel>): (stored: seq<Channel>)
    ensures forall k :: 0 <= k < |stored| ==> !stored[k].builtIn && stored[k].id != BUILT_IN_CHANNEL
  {
    if channels == [] then []
    else
      var c := channels[|channels| - 1];
      Stored(channels[..|channels| - 1])
      + if c.id == BUILT_IN_CHANNEL || c.builtIn then [] else [c]
  }

  lemma UpsertedNothing<V>(table: map<string, V>, ids: seq<string>, rows: seq<V>)
    requires |ids| == |rows| == 0
    ensures Upserted(table, ids, rows) == table
  {
  }

  lemma UpsertedOneMore(table: map<string, Channel>, before: seq<Channel>, c: Channel)
    ensures Upserted(table, ChannelIds(before + [c]), before + [c]) == Upserted(table, ChannelIds(before), before)[c.id := c]
  {
    var ids, rows := ChannelIds(before + [c]), before + [c];
    assert rows[..|before|] == before && ids[..|before|] == ChannelIds(before);
  }

  lemma StoredStep(table: map<string, Channel>, channels: seq<Channel>, i: nat)
    requires i < |channels|
    ensures var c, before, after := channels[i], Stored(channels[..i]), Stored(channels[..i + 1]);
      if c.id == BUILT_IN_CHANNEL || c.builtIn then after == before
      else Upserted(table, ChannelIds(after), after) == Upserted(table, ChannelIds(before), before)[c.id := c]
  {
    hide Upserted;
    var c, before := channels[i], Stored(channels[..i]);
    assert channels[..i + 1][..i] == channels[..i];
    UpsertedOneMore(table, before, c);
  }

  // ----- The effect of an import -----

  ghost function Cleared(t: Tables, b: Bundle): Tables {
    Tables(
      map id | id in t.channels && (t.channels[id].builtIn || id in Elements(ChannelIds(b.channels))) :: t.channels[id],
      map id | id in t.monitors && id in Elements(MonitorIds(b.monitors)) :: t.monitors[id],
      map[], map[])
  }

  ghost function Base(t: Tables, b: Bundle, replace: bool): Tables { if replace then Cleared(t, b) else t }

  ghost function Imported(t: Tables, b: Bundle, replace: bool): Tables {
    var base := Base(t, b, replace);
    var channels := Stored(b.channels);
    Tables(
      Upserted(base.channels, ChannelIds(channels), channels),
      Upserted(base.monitors, MonitorIds(b.monitors), b.monitors),
      Upserted(base.items, ItemIds(b.items), b.items),
      Upserted(base.shares, ShareIds(b.shares), b.shares))
  }

  ghost function SharesAfter(t: Tables, b: Bundle, replace: bool, k: nat): map<string, Share>
    requires k <= |b.shares|
  {
    Upserted(Base(t, b, replace).shares, ShareIds(b.shares)[..k], b.shares[..k])
  }

  ghost predicate TokenFree(shares: map<string, Share>, s: Share) {
    forall id :: id in shares && id != s.id ==> shares[id].token != s.token
  }

  /** No row violates a constraint of the store when its turn comes. */
  ghost predicate NoConflict(t: Tables, b: Bundle, replace: bool) {
    && (forall k :: 0 <= k < |b.items| ==> b.items[k].monitorId in Imported(t, b, replace).monitors)
    && (forall k :: 0 <= k < |b.shares| ==> TokenFree(SharesAfter(t, b, replace, k), b.shares[k]))
  }

  class ConfigStore {
    var channels: map<string, Channel>
    var monitors: map<string, Monitor>
    var items: map<string, Item>
    var shares: map<string, Share>

    ghost function Rows(): Tables
      reads this
    {
      Tables(channels, monitors, items, shares)
    }

    constructor (t: Tables)
      ensures Rows() == t
    {
      channels, monitors, items, shares := t.channels, t.monitors, t.items, t.shares;
    }

    /** The rows that may go and are not in the import are collected first, then deleted one by one. */
    static method DeleteRowsNotIn<V>(table: map<string, V>, eligible: set<string>, retained: set<string>)
      returns (kept: map<string, V>)
      requires eligible <= table.Keys
      ensures kept == table - (eligible - retained)
    {
      var stale := eligible - retained;
      kept := table;
      while stale != {}
        invariant stale <= eligible - retained && kept - stale == table - (eligible - retained)
        decreases |stale|
      {
        var id :| id in stale;
        kept := kept - {id};
        stale := stale - {id};
      }
    }

    method ClearTransferable(b: Bundle)
      modifies this
      ensures Rows() == Cleared(old(Rows()), b)
    {
      shares := map[];
      items := map[];
      monitors := DeleteRowsNotIn(monitors, monitors.Keys, Elements(MonitorIds(b.monitors)));
      var removable := set id | id in channels && !channels[id].builtIn;
      channels := DeleteRowsNotIn(channels, removable, Elements(ChannelIds(b.channels)));
      assert monitors == Cleared(old(Rows()), b).monitors;
      assert channels == Cleared(old(Rows()), b).channels;
    }

    method UpsertChannels(imported: seq<Channel>)
      modifies this`channels
      ensures channels == Upserted(old(channels), ChannelIds(Stored(imported)), Stored(imported))
    {
      UpsertedNothing(channels, ChannelIds(Stored(imported[..0])), Stored(imported[..0]));
      hide Upserted;
      for i := 0 to |imported|
        invariant channels == Upserted(old(channels), ChannelIds(Stored(imported[..i])), Stored(imported[..i]))
      {
        var c := imported[i];
        StoredStep(old(channels), imported, i);
        if c.id == BUILT_IN_CHANNEL || c.builtIn {
          continue;
        }
        channels := channels[c.id := c.(builtIn := false)];
      }
      assert imported[..|imported|] == imported;
    }

    method UpsertMonitors(imported: seq<Monitor>)
      modifies this`monitors
      ensures monitors == Upserted(old(monitors), MonitorIds(imported), imported)
    {
      for i := 0 to |imported|
        invariant monitors == Upserted(old(monitors), MonitorIds(imported)[..i], imported[..i])
      {
        UpsertedStep(old(monitors), MonitorIds(imported), imported, i);
        monitors := monitors[imported[i].id := imported[i]];
      }
      UpsertedStep(old(monitors), MonitorIds(imported), imported, |imported|);
    }

    /** Fails at an item whose monitor does not exist. */
    method UpsertItems(imported: seq<Item>) returns (ok: bool)
      modifies this`items
      ensures ok <==> forall k :: 0 <= k < |imported| ==> imported[k].monitorId in monitors
      ensures ok ==> items == Upserted(old(items), ItemIds(imported), imported)
    {
      for i := 0 to |imported|
        invariant items == Upserted(old(items), ItemIds(imported)[..i], imported[..i])
        invariant forall k :: 0 <= k < i ==> imported[k].monitorId in monitors
      {
        if imported[i].monitorId !in monitors {
          return false;
        }
        UpsertedStep(old(items), ItemIds(imported), imported, i);
        items := items[imported[i].id := imported[i]];
      }
      UpsertedStep(old(items), ItemIds(imported), imported, |imported|);
      return true;
    }

    /** Fails at a share whose token another row has. */
    method UpsertShares(imported: seq<Share>) returns (ok: bool)
      modifies this`shares
      ensures ok <==> forall k :: 0 <= k < |imported| ==>
                        TokenFree(Upserted(old(shares), ShareIds(imported)[..k], imported[..k]), imported[k])
      ensures ok ==> shares == Upserted(old(shares), ShareIds(imported), imported)
    {
      hide Upserted;
      UpsertedNothing(shares, ShareIds(imported)[..0], imported[..0]);
      for i := 0 to |imported|
        invariant shares == Upserted(old(shares), ShareIds(imported)[..i], imported[..i])
        invariant forall k :: 0 <= k < i ==>
                    TokenFree(Upserted(old(shares), ShareIds(imported)[..k], imported[..k]), imported[k])
      {
        var free := IsTokenFree(imported[i]);
        if !free {
          return false;
        }
        UpsertedStep(old(shares), ShareIds(imported), imported, i);
        shares := shares[imported[i].id := imported[i]];
      }
      UpsertedStep(old(shares), ShareIds(imported), imported, |imported|);
      return true;
    }

    /** The unique index over the tokens. */
    method IsTokenFree(s: Share) returns (free: bool)
      ensures free <==> TokenFree(shares, s)
    {
      return !exists id :: id in shares && id != s.id && shares[id].token == s.token;
    }

    /** The transaction: all of the import, or nothing of it. */
    method ImportConfiguration(b: Bundle, replace: bool, commits: bool) returns (ok: bool)
      modifies this
      ensures ok <==> commits && NoConflict(old(Rows()), b, replace)
      ensures Rows() == if ok then Imported(old(Rows()), b, replace) else old(Rows())
    {
      var before := Tables(channels, monitors, items, shares);
      if replace {
        ClearTransferable(b);
      }
      UpsertChannels(b.channels);
      UpsertMonitors(b.monitors);
      ok := UpsertItems(b.items);
      if ok {
        ok := UpsertShares(b.shares);
      }
      if !ok || !commits {
        channels, monitors, items, shares := before.channels, before.monitors, before.items, before.shares;
        return false;
      }
    }
  }
}
