/**
 A configuration bundle, and the validation that decides whether it may be imported. Whether a
 configuration text suits its module, notifier or schedule is decided elsewhere and comes with the text.
 */
module ConfigBundles {
  import opened Strings
  import opened Wrappers

  const BUILT_IN_CHANNEL := "builtin-inapp"
  const EMPTY_STATE := "{}"

  datatype Config = Config(text: string, valid: bool)

  datatype Channel = Channel(id: string, name: string, notifierType: string, builtIn: bool, config: Config)

  datatype Monitor = Monitor(
    id: string, name: string, moduleType: string, channelIds: seq<string>, config: Config, runtimeState: string)

  datatype Item = Item(
    id: string, name: string, monitorId: string, channelIds: seq<string>, historyLimit: int, config: string,
    runtimeState: string)

  datatype Share = Share(
    id: string, token: string, name: string, monitorIds: seq<string>, itemIds: seq<string>, active: bool)

  datatype Bundle = Bundle(channels: seq<Channel>, monitors: seq<Monitor>, items: seq<Item>, shares: seq<Share>)

  /** The four tables of the store, by id. */
  datatype Tables = Tables(
    channels: map<string, Channel>, monitors: map<string, Monitor>, items: map<string, Item>, shares: map<string, Share>)

  /** What the store's own keys keep: rows stand under their ids, share tokens are unique, items belong to
      monitors, and the one built-in channel is there. */
  ghost predicate WellFormed(t: Tables) {
    && (forall id :: id in t.channels ==> t.channels[id].id == id && (t.channels[id].builtIn <==> id == BUILT_IN_CHANNEL))
    && BUILT_IN_CHANNEL in t.channels
    && (forall id :: id in t.monitors ==> t.monitors[id].id == id)
    && (forall id :: id in t.items ==> t.items[id].id == id && t.items[id].monitorId in t.monitors)
    && (forall id :: id in t.shares ==> t.shares[id].id == id)
    && TokensUnique(t.shares)
  }

  ghost predicate TokensUnique(shares: map<string, Share>) {
    forall a, b :: a in shares && b in shares && a != b ==> shares[a].token != shares[b].token
  }

  // ----- What is accepted -----

  ghost predicate MonitorOk(m: Monitor) { m.id != "" && m.name != "" && m.moduleType != "" && m.config.valid }

  ghost predicate ChannelOk(c: Channel) {
    c.id != "" && c.name != "" && c.notifierType != "" && c.config.valid && c.id != BUILT_IN_CHANNEL
  }

  ghost predicate ItemOk(i: Item) { i.id != "" && i.name != "" && i.monitorId != "" && 20 <= i.historyLimit <= 200 }

  ghost predicate ShareOk(s: Share) {
    s.id != "" && !Blank(s.name) && ValidToken(s.token) && (s.monitorIds != [] || s.itemIds != [])
  }

  function WithoutLineBreaks(s: string): string {
    if s == [] then []
    else (if s[0] == '\n' || s[0] == '\r' then [] else [s[0]]) + WithoutLineBreaks(s[1..])
  }

  predicate Base64Url(c: char) {
    'A' <= c <= 'Z' || 'a' <= c <= 'z' || '0' <= c <= '9' || c == '-' || c == '_'
  }

  /** Unpadded base64 (section 5 of RFC 4648) of 32 bytes; the decoder skips line breaks. */
  predicate ValidToken(token: string) {
    var digits := WithoutLineBreaks(token);
    |digits| == 43 && forall i :: 0 <= i < |digits| ==> Base64Url(digits[i])
  }

  lemma NoEmptyToken()
    ensures !ValidToken("")
  {
  }

  ghost predicate Distinct<T>(s: seq<T>) { forall i, j :: 0 <= i < j < |s| ==> s[i] != s[j] }

  ghost predicate AllIn(ids: seq<string>, known: set<string>) { forall k :: 0 <= k < |ids| ==> ids[k] in known }

  function ChannelIds(channels: seq<Channel>): seq<string> {
    seq(|channels|, i requires 0 <= i < |channels| => channels[i].id)
  }

  function MonitorIds(monitors: seq<Monitor>): seq<string> {
    seq(|monitors|, i requires 0 <= i < |monitors| => monitors[i].id)
  }

  function ItemIds(items: seq<Item>): seq<string> { seq(|items|, i requires 0 <= i < |items| => items[i].id) }

  function ShareIds(shares: seq<Share>): seq<string> { seq(|shares|, i requires 0 <= i < |shares| => shares[i].id) }

  function Elements(ids: seq<string>): set<string> { set i | 0 <= i < |ids| :: ids[i] }

  /** The ids a reference may name: those of the bundle, and those in the store unless it is replaced. */
  ghost function KnownChannels(b: Bundle, t: Tables, replace: bool): set<string> {
    Elements(ChannelIds(b.channels)) + {BUILT_IN_CHANNEL} + if replace then {} else t.channels.Keys
  }

  ghost function KnownMonitors(b: Bundle, t: Tables, replace: bool): set<string> {
    Elements(MonitorIds(b.monitors)) + if replace then {} else t.monitors.Keys
  }

  ghost function KnownItems(b: Bundle, t: Tables, replace: bool): set<string> {
    Elements(ItemIds(b.items)) + if replace then {} else t.items.Keys
  }

  ghost predicate ContentsOk(b: Bundle) {
    && (forall i :: 0 <= i < |b.monitors| ==> MonitorOk(b.monitors[i])) && Distinct(MonitorIds(b.monitors))
    && (forall i :: 0 <= i < |b.channels| ==> ChannelOk(b.channels[i])) && Distinct(ChannelIds(b.channels))
    && (forall i :: 0 <= i < |b.items| ==> ItemOk(b.items[i])) && Distinct(ItemIds(b.items))
  }

  ghost predicate ReferencesOk(b: Bundle, channels: set<string>, monitors: set<string>) {
    && (forall i :: 0 <= i < |b.monitors| ==> AllIn(b.monitors[i].channelIds, channels))
    && (forall i :: 0 <= i < |b.items| ==> b.items[i].monitorId in monitors && AllIn(b.items[i].channelIds, channels))
  }

  ghost predicate SelectionOk(s: Share, monitors: set<string>, items: set<string>) {
    && Distinct(s.monitorIds) && AllIn(s.monitorIds, monitors)
    && Distinct(s.itemIds) && AllIn(s.itemIds, items)
  }

  /** No two shares of the bundle have the same token, and none has that of another share of the store. */
  ghost predicate TokensFree(shares: seq<Share>, existing: map<string, Share>) {
    && (forall i, j :: 0 <= i < j < |shares| ==> shares[i].token != shares[j].token)
    && (forall i, id :: 0 <= i < |shares| && id in existing && existing[id].token == shares[i].token ==> id == shares[i].id)
  }

  ghost predicate SharesOk(shares: seq<Share>, existing: map<string, Share>, monitors: set<string>, items: set<string>) {
    && (forall i :: 0 <= i < |shares| ==> ShareOk(shares[i]) && SelectionOk(shares[i], monitors, items))
    && Distinct(ShareIds(shares)) && TokensFree(shares, existing)
  }

  ghost predicate Accepted(b: Bundle, t: Tables, replace: bool) {
    && ContentsOk(b)
    && ReferencesOk(b, KnownChannels(b, t, replace), KnownMonitors(b, t, replace))
    && SharesOk(b.shares, if replace then map[] else t.shares, KnownMonitors(b, t, replace), KnownItems(b, t, replace))
  }

  function FreshMonitors(monitors: seq<Monitor>): seq<Monitor> {
    seq(|monitors|, i requires 0 <= i < |monitors| => monitors[i].(runtimeState := EMPTY_STATE))
  }

  function FreshItems(items: seq<Item>): seq<Item> {
    seq(|items|, i requires 0 <= i < |items| => items[i].(runtimeState := EMPTY_STATE))
  }

  /** Validation starts the imported monitors and items from an empty state. */
  function Normalized(b: Bundle): Bundle { b.(monitors := FreshMonitors(b.monitors), items := FreshItems(b.items)) }

  // ----- The validation -----

  datatype ImportError =
    | MissingField | DuplicateId | BadConfig | BadHistoryLimit | UnknownChannel | UnknownMonitor | UnknownItem
    | BadToken | TokenTaken | NothingShared | DuplicateSelection

  method ValidateMonitors(monitors: seq<Monitor>)
    returns (error: Option<ImportError>, ids: set<string>, normalized: seq<Monitor>)
    ensures error.None? <==>
      (forall i :: 0 <= i < |monitors| ==> MonitorOk(monitors[i])) && Distinct(MonitorIds(monitors))
    ensures error.None? ==> ids == Elements(MonitorIds(monitors)) && normalized == FreshMonitors(monitors)
  {
    ids, normalized := {}, [];
    for i := 0 to |monitors|
      invariant ids == Elements(MonitorIds(monitors)[..i]) && normalized == FreshMonitors(monitors)[..i]
      invariant forall k :: 0 <= k < i ==> MonitorOk(monitors[k])
      invariant Distinct(MonitorIds(monitors)[..i])
    {
      var m := monitors[i];
      Longer(MonitorIds(monitors), i);
      if m.id == "" || m.name == "" || m.moduleType == "" {
        return Some(MissingField), ids, normalized;
      }
      if m.id in ids {
        return Some(DuplicateId), ids, normalized;
      }
      ids := ids + {m.id};
      if !m.config.valid {
        return Some(BadConfig), ids, normalized;
      }
      normalized := normalized + [m.(runtimeState := EMPTY_STATE)];
    }
    assert MonitorIds(monitors)[..|monitors|] == MonitorIds(monitors);
    return None, ids, normalized;
  }

  /** One more id: what it adds to the elements, and when the ids stay distinct. */
  lemma Longer(ids: seq<string>, i: nat)
    requires i < |ids|
    ensures Elements(ids[..i + 1]) == Elements(ids[..i]) + {ids[i]}
    ensures ids[i] in Elements(ids[..i]) ==> !Distinct(ids)
    ensures Distinct(ids[..i]) && ids[i] !in Elements(ids[..i]) ==> Distinct(ids[..i + 1])
  {
    assert ids[..i + 1][i] == ids[i];
    forall k | 0 <= k < i
      ensures ids[..i + 1][k] == ids[..i][k] == ids[k] && ids[k] in Elements(ids[..i])
    {
      assert ids[..i][k] == ids[k];
    }
  }

  method ValidateChannels(channels: seq<Channel>) returns (error: Option<ImportError>, ids: set<string>)
    ensures error.None? <==>
      (forall i :: 0 <= i < |channels| ==> ChannelOk(channels[i])) && Distinct(ChannelIds(channels))
    ensures error.None? ==> ids == Elements(ChannelIds(channels)) + {BUILT_IN_CHANNEL}
  {
    ids := {BUILT_IN_CHANNEL};
    for i := 0 to |channels|
      invariant ids == Elements(ChannelIds(channels)[..i]) + {BUILT_IN_CHANNEL}
      invariant forall k :: 0 <= k < i ==> ChannelOk(channels[k])
      invariant Distinct(ChannelIds(channels)[..i])
    {
      var c := channels[i];
      Longer(ChannelIds(channels), i);
      if c.id == "" || c.name == "" || c.notifierType == "" {
        return Some(MissingField), ids;
      }
      if c.id in ids {
        return Some(DuplicateId), ids;
      }
      ids := ids + {c.id};
      if !c.config.valid {
        return Some(BadConfig), ids;
      }
    }
    assert ChannelIds(channels)[..|channels|] == ChannelIds(channels);
    return None, ids;
  }

  method ValidateItems(items: seq<Item>) returns (error: Option<ImportError>, ids: set<string>, normalized: seq<Item>)
    ensures error.None? <==> (forall i :: 0 <= i < |items| ==> ItemOk(items[i])) && Distinct(ItemIds(items))
    ensures error.None? ==> ids == Elements(ItemIds(items)) && normalized == FreshItems(items)
  {
    ids, normalized := {}, [];
    for i := 0 to |items|
      invariant ids == Elements(ItemIds(items)[..i]) && normalized == FreshItems(items)[..i]
      invariant forall k :: 0 <= k < i ==> ItemOk(items[k])
      invariant Distinct(ItemIds(items)[..i])
    {
      var item := items[i];
      Longer(ItemIds(items), i);
      if item.id == "" || item.name == "" || item.monitorId == "" {
        return Some(MissingField), ids, normalized;
      }
      if item.id in ids {
        return Some(DuplicateId), ids, normalized;
      }
      ids := ids + {item.id};
      if item.historyLimit < 20 || item.historyLimit > 200 {
        return Some(BadHistoryLimit), ids, normalized;
      }
      normalized := normalized + [item.(runtimeState := EMPTY_STATE)];
    }
    assert ItemIds(items)[..|items|] == ItemIds(items);
    return None, ids, normalized;
  }

  method AllKnown(ids: seq<string>, known: set<string>) returns (ok: bool)
    ensures ok <==> AllIn(ids, known)
  {
    for i := 0 to |ids|
      invariant forall k :: 0 <= k < i ==> ids[k] in known
    {
      if ids[i] !in known {
        return false;
      }
    }
    return true;
  }

  method ValidateReferences(monitors: seq<Monitor>, items: seq<Item>, knownChannels: set<string>, knownMonitors: set<string>)
    returns (error: Option<ImportError>)
    ensures error.None? <==> ReferencesOk(Bundle([], monitors, items, []), knownChannels, knownMonitors)
  {
    for i := 0 to |monitors|
      invariant forall k :: 0 <= k < i ==> AllIn(monitors[k].channelIds, knownChannels)
    {
      var ok := AllKnown(monitors[i].channelIds, knownChannels);
      if !ok {
        return Some(UnknownChannel);
      }
    }
    for i := 0 to |items|
      invariant forall k :: 0 <= k < i ==>
        items[k].monitorId in knownMonitors && AllIn(items[k].channelIds, knownChannels)
    {
      if items[i].monitorId !in knownMonitors {
        return Some(UnknownMonitor);
      }
      var ok := AllKnown(items[i].channelIds, knownChannels);
      if !ok {
        return Some(UnknownChannel);
      }
    }
    return None;
  }

  method ValidateSelection(ids: seq<string>, known: set<string>, unknown: ImportError) returns (error: Option<ImportError>)
    ensures error.None? <==> Distinct(ids) && AllIn(ids, known)
  {
    var selected := {};
    for i := 0 to |ids|
      invariant selected == Elements(ids[..i]) && Distinct(ids[..i])
      invariant forall k :: 0 <= k < i ==> ids[k] in known
    {
      Longer(ids, i);
      if ids[i] in selected {
        return Some(DuplicateSelection);
      }
      selected := selected + {ids[i]};
      if ids[i] !in known {
        return Some(unknown);
      }
    }
    assert ids[..|ids|] == ids;
    return None;
  }

  ghost predicate Holds(existing: map<string, Share>, shares: seq<Share>, n: nat, id: string, token: string)
    requires n <= |shares|
  {
    || (id in existing && existing[id].token == token)
    || (exists k :: 0 <= k < n && shares[k].id == id && shares[k].token == token)
  }

  /** Who has each token among the shares of the store and the first n of the bundle. */
  ghost predicate OwnersOf(owners: map<string, string>, existing: map<string, Share>, shares: seq<Share>, n: nat)
    requires n <= |shares|
  {
    && (forall token :: token in owners ==> Holds(existing, shares, n, owners[token], token))
    && (forall id :: id in existing ==> existing[id].token in owners && owners[existing[id].token] == id)
    && (forall k :: 0 <= k < n ==> shares[k].token in owners && owners[shares[k].token] == shares[k].id)
  }

  lemma NoOwners()
    ensures OwnersOf(map[], map[], [], 0)
  {
  }

  lemma OneMoreOwner(owners: map<string, string>, existing: map<string, Share>, id: string, share: Share)
    requires OwnersOf(owners, existing, [], 0) && id !in existing
    requires forall other :: other in existing ==> existing[other].token != share.token
    ensures OwnersOf(owners[share.token := id], existing[id := share], [], 0)
  {
    var owners', existing' := owners[share.token := id], existing[id := share];
    forall token | token in owners'
      ensures Holds(existing', [], 0, owners'[token], token)
    {
      if token != share.token {
        assert Holds(existing, [], 0, owners[token], token);
      }
    }
  }

  lemma BeforeTheBundle(owners: map<string, string>, existing: map<string, Share>, shares: seq<Share>)
    requires OwnersOf(owners, existing, [], 0)
    ensures OwnersOf(owners, existing, shares, 0) && TokensFree(shares[..0], existing)
  {
    forall token | token in owners
      ensures Holds(existing, shares, 0, owners[token], token)
    {
      assert Holds(existing, [], 0, owners[token], token);
    }
  }

  lemma OwnerOfNext(owners: map<string, string>, existing: map<string, Share>, rest: set<string>, id: string)
    requires TokensUnique(existing) && rest <= existing.Keys && id in rest
    requires OwnersOf(owners, existing - rest, [], 0)
    ensures OwnersOf(owners[existing[id].token := id], existing - (rest - {id}), [], 0)
  {
    hide OwnersOf;
    OneMoreOwner(owners, existing - rest, id, existing[id]);
    assert (existing - rest)[id := existing[id]] == existing - (rest - {id});
  }

  method TokenOwners(existing: map<string, Share>) returns (owners: map<string, string>)
    requires TokensUnique(existing)
    ensures OwnersOf(owners, existing, [], 0)
  {
    hide OwnersOf;
    hide TokensUnique;
    owners := map[];
    NoOwners();
    var rest := existing.Keys;
    assert existing - rest == map[];
    while rest != {}
      invariant rest <= existing.Keys && OwnersOf(owners, existing - rest, [], 0)
      decreases |rest|
    {
      var id :| id in rest;
      OwnerOfNext(owners, existing, rest, id);
      owners := owners[existing[id].token := id];
      rest := rest - {id};
    }
    assert existing - {} == existing;
  }

  method ValidateShares(shares: seq<Share>, existing: map<string, Share>, monitors: set<string>, items: set<string>)
    returns (error: Option<ImportError>)
    requires TokensUnique(existing)
    ensures error.None? <==> SharesOk(shares, existing, monitors, items)
  {
    hide OwnersOf;
    hide TokensFree;
    hide ValidToken;
    hide Blank;
    var owners := TokenOwners(existing);
    var ids := {};
    BeforeTheBundle(owners, existing, shares);
    for i := 0 to |shares|
      invariant ids == Elements(ShareIds(shares)[..i]) && Distinct(ShareIds(shares)[..i])
      invariant forall k :: 0 <= k < i ==> ShareOk(shares[k]) && SelectionOk(shares[k], monitors, items)
      invariant TokensFree(shares[..i], existing) && OwnersOf(owners, existing, shares, i)
    {
      var share := shares[i];
      Longer(ShareIds(shares), i);
      if share.id == "" || Blank(share.name) || share.token == "" {
        NoEmptyToken();
        return Some(MissingField);
      }
      if share.id in ids {
        return Some(DuplicateId);
      }
      ids := ids + {share.id};
      if !ValidToken(share.token) {
        return Some(BadToken);
      }
      TokenCheck(shares, i, existing, owners);
      if share.token in owners && owners[share.token] != share.id {
        return Some(TokenTaken);
      }
      owners := owners[share.token := share.id];
      if share.monitorIds == [] && share.itemIds == [] {
        return Some(NothingShared);
      }
      error := ValidateSelection(share.monitorIds, monitors, UnknownMonitor);
      if error.Some? {
        return;
      }
      error := ValidateSelection(share.itemIds, items, UnknownItem);
      if error.Some? {
        return;
      }
    }
    assert ShareIds(shares)[..|shares|] == ShareIds(shares) && shares[..|shares|] == shares;
    return None;
  }

  /** The table of owners tells whether one more share has a free token. */
  lemma TokenCheck(shares: seq<Share>, i: nat, existing: map<string, Share>, owners: map<string, string>)
    requires i < |shares| && TokensFree(shares[..i], existing)
    requires OwnersOf(owners, existing, shares, i)
    requires shares[i].id !in Elements(ShareIds(shares)[..i])
    ensures var share := shares[i];
      var free := share.token !in owners || owners[share.token] == share.id;
      && (!free ==> !TokensFree(shares, existing))
      && (free ==> TokensFree(shares[..i + 1], existing)
                   && OwnersOf(owners[share.token := share.id], existing, shares, i + 1))
  {
    var share := shares[i];
    forall k | 0 <= k < i
      ensures shares[k].id != share.id
    {
      assert ShareIds(shares)[..i][k] == shares[k].id;
    }
    if share.token !in owners || owners[share.token] == share.id {
      FreeToken(shares, i, existing, owners);
    } else {
      assert Holds(existing, shares, i, owners[share.token], share.token);
    }
  }

  lemma FreeToken(shares: seq<Share>, i: nat, existing: map<string, Share>, owners: map<string, string>)
    requires i < |shares| && TokensFree(shares[..i], existing) && OwnersOf(owners, existing, shares, i)
    requires forall k :: 0 <= k < i ==> shares[k].id != shares[i].id
    requires shares[i].token !in owners || owners[shares[i].token] == shares[i].id
    ensures TokensFree(shares[..i + 1], existing)
    ensures OwnersOf(owners[shares[i].token := shares[i].id], existing, shares, i + 1)
  {
    var share, longer := shares[i], shares[..i + 1];
    forall k | 0 <= k < i
      ensures longer[k] == shares[..i][k] && shares[k].token != share.token
    {}
    var owners' := owners[share.token := share.id];
    forall token | token in owners'
      ensures Holds(existing, shares, i + 1, owners'[token], token)
    {
      if token != share.token {
        assert Holds(existing, shares, i, owners[token], token);
      }
    }
  }

  /** A bundle passes the validation exactly if it is acceptable for the store as it is. */
  method ValidateConfigBundle(b: Bundle, t: Tables, replace: bool) returns (result: Result<Bundle, ImportError>)
    requires WellFormed(t)
    ensures result.Ok? <==> Accepted(b, t, replace)
    ensures result.Ok? ==> result.value == Normalized(b)
  {
    var error, monitors, normalizedMonitors := ValidateMonitors(b.monitors);
    if error.Some? {
      return Err(error.value);
    }
    var channels, items, normalizedItems;
    error, channels := ValidateChannels(b.channels);
    if error.Some? {
      return Err(error.value);
    }
    error, items, normalizedItems := ValidateItems(b.items);
    if error.Some? {
      return Err(error.value);
    }
    var existingShares := map[];
    if !replace {
      monitors, channels, items := monitors + t.monitors.Keys, channels + t.channels.Keys, items + t.items.Keys;
      existingShares := t.shares;
    }
    error := ValidateReferences(b.monitors, b.items, channels, monitors);
    if error.Some? {
      return Err(error.value);
    }
    error := ValidateShares(b.shares, existingShares, monitors, items);
    if error.Some? {
      return Err(error.value);
    }
    return Ok(b.(monitors := normalizedMonitors, items := normalizedItems));
  }
}
