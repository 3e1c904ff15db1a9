/**
 The runtime configuration: six domains, held in memory with their versions, written to the store under a
 compare-and-swap on the version, and applied to the running program before they are written.

 The fields of a domain are named by their full paths. The hash of the administrator's key is part of the
 authentication domain in the store, and never of the one in memory.
 */
module RuntimeConfig {
  import opened Wrappers

  datatype ConfigType = Storage | Scheduler | Logging | Plugins | Auth | Mcp | Unmanaged(name: string)

  function ManagedTypes(): seq<ConfigType> { [Storage, Scheduler, Logging, Plugins, Auth, Mcp] }

  predicate IsManaged(t: ConfigType) { !t.Unmanaged? }

  lemma ManagedOnce()
    ensures forall t :: t in ManagedTypes() <==> IsManaged(t)
    ensures forall i, j :: 0 <= i < j < |ManagedTypes()| ==> ManagedTypes()[i] != ManagedTypes()[j]
  {
    assert ManagedTypes()[0] == Storage && ManagedTypes()[1] == Scheduler && ManagedTypes()[2] == Logging;
    assert ManagedTypes()[3] == Plugins && ManagedTypes()[4] == Auth && ManagedTypes()[5] == Mcp;
  }

  datatype Domain = Domain(values: map<string, string>, keyHash: string)

  datatype Row = Row(data: Domain, version: int)

  type Config = map<ConfigType, Domain>

  /** Data to be decoded on top of a domain: the fields it names. */
  datatype Patch = Malformed | Patch(values: map<string, string>, keyHash: Option<string>)

  /** The fields of each domain, and what the validation of a whole configuration says. */
  datatype Rules = Rules(schema: ConfigType -> set<string>, valid: Config -> bool)

  datatype ConfigError =
    | NotEditable | VersionConflict | BadData | KeyManagedElsewhere | Invalid | NotApplied | StoreFailed | NotFound

  /** What may go wrong in the store: the write itself, which then changes nothing, or reading the row
      back after the write. */
  datatype Fault = Works | WriteFails | ReadBackFails

  function Decode(rules: Rules, t: ConfigType, patch: Patch, d: Domain): Option<Domain> {
    if patch.Malformed? || !(patch.values.Keys <= rules.schema(t)) || (patch.keyHash.Some? && t != Auth) then None
    else Some(Domain(d.values + patch.values, if patch.keyHash.Some? then patch.keyHash.value else d.keyHash))
  }

  function Full(d: Domain): Patch { Patch(d.values, if d.keyHash == "" then None else Some(d.keyHash)) }

  // ----- The store -----

  /** A row of the authentication domain written without a key keeps the key it had. */
  function PreserveAuthKey(rows: map<ConfigType, Row>, t: ConfigType, data: Domain): Domain {
    if t == Auth && data.keyHash == "" && Auth in rows then data.(keyHash := rows[Auth].data.keyHash) else data
  }

  function StoreUpdate(rows: map<ConfigType, Row>, t: ConfigType, data: Domain, expected: int, fault: Fault)
    : (map<ConfigType, Row>, Result<Row, ConfigError>)
  {
    if expected < 1 || fault == WriteFails then (rows, Err(StoreFailed))
    else if t !in rows then (rows, Err(NotFound))
    else if rows[t].version != expected then (rows, Err(VersionConflict))
    else
      var row := Row(PreserveAuthKey(rows, t, data), expected + 1);
      (rows[t := row], if fault == ReadBackFails then Err(StoreFailed) else Ok(row))
  }

  /** The rows after an import: each managed domain written, its version one higher. */
  ghost function ImportRows(rows: map<ConfigType, Row>, domains: Config, keyHash: string): map<ConfigType, Row>
    requires forall t :: IsManaged(t) ==> t in domains
  {
    map t | t in rows :: ImportRow(rows, domains, keyHash, t)
  }

  function ImportRow(rows: map<ConfigType, Row>, domains: Config, keyHash: string, t: ConfigType): Row
    requires t in rows && (IsManaged(t) ==> t in domains)
  {
    if IsManaged(t) then Row(ImportedDomain(rows, t, domains[t], keyHash), rows[t].version + 1) else rows[t]
  }

  function ImportedDomain(rows: map<ConfigType, Row>, t: ConfigType, data: Domain, keyHash: string): Domain
    requires t in rows
  {
    if t == Auth then data.(keyHash := if keyHash != "" then keyHash else rows[t].data.keyHash) else data
  }

  class Store {
    var rows: map<ConfigType, Row>

    constructor (initial: map<ConfigType, Row>)
      ensures rows == initial
    {
      rows := initial;
    }

    method UpdateSystemConfig(t: ConfigType, data: Domain, expected: int, fault: Fault) returns (result: Result<Row, ConfigError>)
      modifies this
      ensures (rows, result) == StoreUpdate(old(rows), t, data, expected, fault)
    {
      if expected < 1 {
        return Err(StoreFailed);
      }
      var written := data;
      if t == Auth && data.keyHash == "" && Auth in rows {
        written := data.(keyHash := rows[Auth].data.keyHash);
      }
      if fault == WriteFails {
        return Err(StoreFailed);
      }
      if t !in rows {
        return Err(NotFound);
      }
      if rows[t].version != expected {
        return Err(VersionConflict);
      }
      rows := rows[t := Row(written, rows[t].version + 1)];
      if fault == ReadBackFails {
        return Err(StoreFailed);
      }
      return Ok(rows[t]);
    }

    /** Rotating the key leaves the version alone, so that it does not invalidate an edit in flight. */
    method SetAdminKeyHash(keyHash: string, commits: bool) returns (ok: bool)
      modifies this
      ensures ok == commits
      ensures rows == if ok then WithKey(old(rows), keyHash) else old(rows)
    {
      if !commits {
        return false;
      }
      var row := if Auth in rows then rows[Auth] else Row(Domain(map[], ""), 1);
      rows := rows[Auth := row.(data := row.data.(keyHash := keyHash))];
      return true;
    }

    /** The part of an import that concerns the runtime configuration. */
    method ImportRuntimeConfig(domains: Config, keyHash: string, commits: bool) returns (versions: Option<map<ConfigType, int>>)
      requires forall t :: t in domains <==> IsManaged(t)
      modifies this
      ensures versions.Some? <==> commits && HasManaged(old(rows))
      ensures versions.None? ==> rows == old(rows)
      ensures versions.Some? ==> rows == ImportRows(old(rows), domains, keyHash) && versions.value == VersionsOf(rows)
    {
      var work, reported: map<ConfigType, int> := rows, map[];
      var rest := domains.Keys;
      while rest != {}
        invariant rest <= domains.Keys && work.Keys == rows.Keys
        invariant domains.Keys - rest <= rows.Keys
        invariant forall t :: t in rows ==>
                    work[t] == if t in domains.Keys - rest then ImportRow(rows, domains, keyHash, t) else rows[t]
        invariant reported == map t | t in domains.Keys - rest :: work[t].version
        decreases |rest|
      {
        var t :| t in rest;
        if t !in rows {
          return None;
        }
        work := work[t := Row(ImportedDomain(work, t, domains[t], keyHash), work[t].version + 1)];
        reported := reported[t := work[t].version];
        rest := rest - {t};
      }
      if !commits {
        return None;
      }
      assert work == ImportRows(rows, domains, keyHash);
      rows := work;
      assert reported == VersionsOf(rows);
      return Some(reported);
    }
  }

  function VersionsOf(rows: map<ConfigType, Row>): map<ConfigType, int> {
    map t | t in rows && IsManaged(t) :: rows[t].version
  }

  function DomainsOf(rows: map<ConfigType, Row>): Config { map t | t in rows && IsManaged(t) :: rows[t].data }

  function WithKey(rows: map<ConfigType, Row>, keyHash: string): map<ConfigType, Row> {
    var row := if Auth in rows then rows[Auth] else Row(Domain(map[], ""), 1);
    rows[Auth := row.(data := row.data.(keyHash := keyHash))]
  }

  ghost predicate HasManaged(rows: map<ConfigType, Row>) { forall t :: IsManaged(t) ==> t in rows }

  // ----- The manager -----

  datatype State = State(rows: map<ConfigType, Row>, config: Config, versions: map<ConfigType, int>, applied: Config)

  ghost predicate Shaped(s: State) {
    && (forall t :: t in s.config <==> IsManaged(t))
    && (forall t :: t in s.versions <==> IsManaged(t))
  }

  /** What the manager would write, or why it refuses before it applies anything. */
  function Candidate(rules: Rules, config: Config, versions: map<ConfigType, int>, t: ConfigType, patch: Patch, expected: int)
    : Result<Config, ConfigError>
    requires forall x :: IsManaged(x) ==> x in config && x in versions
  {
    if !IsManaged(t) then Err(NotEditable)
    else if expected != versions[t] then Err(VersionConflict)
    else
      var decoded := Decode(rules, t, patch, config[t]);
      if decoded.None? then Err(BadData)
      else if t == Auth && decoded.value.keyHash != config[t].keyHash then Err(KeyManagedElsewhere)
      else if !rules.valid(config[t := decoded.value]) then Err(Invalid)
      else Ok(config[t := decoded.value])
  }

  lemma CandidateChangesOne(
      rules: Rules, config: Config, versions: map<ConfigType, int>, t: ConfigType, patch: Patch, expected: int)
    requires forall x :: IsManaged(x) ==> x in config && x in versions
    ensures var c := Candidate(rules, config, versions, t, patch, expected);
      c.Ok? ==> IsManaged(t) && expected == versions[t] && t in c.value && c.value.Keys == config.Keys
                && c.value == config[t := c.value[t]] && (t == Auth ==> c.value[t].keyHash == config[t].keyHash)
  {
  }

  /** The outcome of the calls an update makes: applying, writing, and applying the old again. */
  datatype Luck = Luck(applies: bool, fault: Fault, rollsBack: bool)

  ghost function AfterUpdate(rules: Rules, s: State, t: ConfigType, patch: Patch, expected: int, luck: Luck)
    : (State, Result<Config, ConfigError>)
    requires Shaped(s)
  {
    var candidate := Candidate(rules, s.config, s.versions, t, patch, expected);
    if candidate.Err? then (s, candidate)
    else if !luck.applies then (s, Err(NotApplied))
    else
      var (rows, result) := StoreUpdate(s.rows, t, candidate.value[t], expected, luck.fault);
      if result.Err?
      then (s.(rows := rows, applied := if luck.rollsBack then s.config else candidate.value), Err(result.error))
      else (State(rows, candidate.value, s.versions[t := result.value.version], candidate.value), candidate)
  }

  function WithoutKey(config: Config): Config
    requires Auth in config
  {
    config[Auth := config[Auth].(keyHash := "")]
  }

  ghost function AfterImport(rules: Rules, s: State, imported: Config, keyHash: string, luck: Luck): (State, bool)
    requires Shaped(s) && forall t :: t in imported <==> IsManaged(t)
  {
    var candidate := WithoutKey(imported);
    if !rules.valid(candidate) || !luck.applies then (s, false)
    else if luck.fault != Works || !HasManaged(s.rows)
    then (s.(applied := if luck.rollsBack then s.config else candidate), false)
    else
      var rows := ImportRows(s.rows, candidate, keyHash);
      (State(rows, candidate, VersionsOf(rows), candidate), true)
  }

  ghost predicate Present(rules: Rules, rows: map<ConfigType, Row>, t: ConfigType) {
    t in rows && rows[t].data.values.Keys <= rules.schema(t)
  }

  ghost predicate Loadable(rules: Rules, rows: map<ConfigType, Row>) {
    && (forall t :: IsManaged(t) ==> Present(rules, rows, t))
    && rules.valid(DomainsOf(rows))
  }

  ghost function Loaded(rows: map<ConfigType, Row>): State
    requires HasManaged(rows)
  {
    assert IsManaged(Auth);
    var config: Config := WithoutKey(DomainsOf(rows));
    State(rows, config, VersionsOf(rows), config)
  }

  class Manager {
    const rules: Rules
    const defaults: Config
    const store: Store
    var config: Config
    var versions: map<ConfigType, int>
    /** The configuration last handed to the running program. */
    var applied: Config

    constructor (rules: Rules, defaults: Config, store: Store)
      requires forall t :: t in defaults <==> IsManaged(t)
      ensures Valid() && this.rules == rules && this.defaults == defaults && this.store == store
    {
      this.rules, this.defaults, this.store := rules, defaults, store;
      config, applied := defaults, defaults;
      versions := map t | t in defaults :: 0;
    }

    ghost predicate Valid()
      reads this
    {
      && (forall t :: t in config <==> IsManaged(t)) && (forall t :: t in versions <==> IsManaged(t))
      && (forall t :: t in defaults <==> IsManaged(t))
    }

    ghost function Now(): State
      reads this, store
    {
      State(store.rows, config, versions, applied)
    }

    /** Takes over what the store has, except for the hash of the key. */
    method Load() returns (ok: bool)
      requires Valid()
      modifies this`config, this`versions, this`applied
      ensures Valid() && (ok <==> Loadable(rules, store.rows))
      ensures ok ==> Now() == Loaded(store.rows)
    {
      assert IsManaged(Auth);
      var loaded, found;
      ok, loaded, found := ReadRows();
      if !ok || !rules.valid(loaded) {
        return false;
      }
      config, versions := WithoutKey(loaded), found;
      applied := config;
    }

    method ReadRows() returns (ok: bool, loaded: Config, found: map<ConfigType, int>)
      ensures ok <==> forall t :: IsManaged(t) ==> Present(rules, store.rows, t)
      ensures ok ==> loaded == DomainsOf(store.rows) && found == VersionsOf(store.rows)
    {
      ManagedOnce();
      hide ManagedTypes;
      loaded, found := map[], map[];
      for i := 0 to |ManagedTypes()|
        invariant forall k :: 0 <= k < i ==> Present(rules, store.rows, ManagedTypes()[k])
        invariant forall t :: t in loaded <==> exists k :: 0 <= k < i && ManagedTypes()[k] == t
        invariant found.Keys == loaded.Keys
        invariant forall t :: t in loaded ==> t in store.rows && loaded[t] == store.rows[t].data && found[t] == store.rows[t].version
      {
        var t := ManagedTypes()[i];
        if t !in store.rows || !(store.rows[t].data.values.Keys <= rules.schema(t)) {
          assert !Present(rules, store.rows, t);
          return false, loaded, found;
        }
        loaded, found := loaded[t := store.rows[t].data], found[t := store.rows[t].version];
      }
      forall t | IsManaged(t)
        ensures Present(rules, store.rows, t) && t in loaded
      {
        assert t in ManagedTypes();
      }
      assert forall t :: t in loaded ==> IsManaged(t);
      assert loaded == DomainsOf(store.rows) && found == VersionsOf(store.rows);
      return true, loaded, found;
    }

    method Update(t: ConfigType, patch: Patch, expected: int, luck: Luck) returns (result: Result<Config, ConfigError>)
      requires Valid()
      modifies this`config, this`versions, this`applied, store
      ensures Valid() && (Now(), result) == AfterUpdate(rules, old(Now()), t, patch, expected, luck)
    {
      hide StoreUpdate;
      hide Candidate;
      var checked := CheckUpdate(t, patch, expected);
      if checked.Err? {
        return checked;
      }
      var candidate := checked.value;
      CandidateChangesOne(rules, config, versions, t, patch, expected);
      var before := config;
      if !luck.applies {
        return Err(NotApplied);
      }
      applied := candidate;
      var updated := store.UpdateSystemConfig(t, candidate[t], expected, luck.fault);
      if updated.Err? {
        if luck.rollsBack {
          applied := before;
        }
        return Err(updated.error);
      }
      config := candidate;
      versions := versions[t := updated.value.version];
      return Ok(config);
    }

    method CheckUpdate(t: ConfigType, patch: Patch, expected: int) returns (checked: Result<Config, ConfigError>)
      requires Valid()
      ensures checked == Candidate(rules, config, versions, t, patch, expected)
    {
      if !IsManaged(t) {
        return Err(NotEditable);
      }
      if expected != versions[t] {
        return Err(VersionConflict);
      }
      var decoded := Decode(rules, t, patch, config[t]);
      if decoded.None? {
        return Err(BadData);
      }
      var candidate := config[t := decoded.value];
      if t == Auth && candidate[Auth].keyHash != config[Auth].keyHash {
        return Err(KeyManagedElsewhere);
      }
      if !rules.valid(candidate) {
        return Err(Invalid);
      }
      return Ok(candidate);
    }

    /** The half of a path update that reads, before the half that writes: the whole domain, one field changed. */
    method ReadPath(t: ConfigType, path: string, value: string) returns (patch: Option<Patch>)
      requires Valid()
      ensures patch == if IsManaged(t) then Some(PathPatch(config[t], path, value)) else None
    {
      if !IsManaged(t) {
        return None;
      }
      var d := config[t];
      return Some(Full(d.(values := d.values[path := value])));
    }

    method Reset(t: ConfigType, luck: Luck) returns (result: Result<Config, ConfigError>)
      requires Valid() && IsManaged(t)
      modifies this`config, this`versions, this`applied, store
      ensures Valid()
      ensures (Now(), result) == AfterUpdate(rules, old(Now()), t, Full(defaults[t]), old(versions[t]), luck)
    {
      result := Update(t, Full(defaults[t]), versions[t], luck);
    }

    /** The persistence is the import into the store, inside its transaction. */
    method Import(imported: Config, keyHash: string, luck: Luck) returns (ok: bool)
      requires Valid() && forall t :: t in imported <==> IsManaged(t)
      modifies this`config, this`versions, this`applied, store
      ensures Valid() && (Now(), ok) == AfterImport(rules, old(Now()), imported, keyHash, luck)
    {
      var candidate := WithoutKey(imported);
      if !rules.valid(candidate) {
        return false;
      }
      var before := config;
      if !luck.applies {
        return false;
      }
      applied := candidate;
      var persisted := store.ImportRuntimeConfig(candidate, keyHash, luck.fault == Works);
      if persisted.None? {
        if luck.rollsBack {
          applied := before;
        }
        return false;
      }
      versions := persisted.value;
      config := candidate;
      return true;
    }
  }

  function PathPatch(d: Domain, path: string, value: string): Patch { Full(d.(values := d.values[path := value])) }
}
