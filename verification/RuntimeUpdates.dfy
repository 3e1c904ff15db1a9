/**
 What an update of the runtime configuration needs in order to succeed and what it then changes, field by
 field; and that no invalid configuration is ever in force, over whole runs.
 */
module RuntimeUpdates {
  import opened RuntimeConfig
  import opened RuntimeRuns
  import opened Wrappers

  /** Every field that the patch names exists, and it names no key but the empty one. */
  ghost predicate Fits(rules: Rules, t: ConfigType, patch: Patch) {
    && patch.Patch?
    && (forall field :: field in patch.values ==> field in rules.schema(t))
    && (patch.keyHash.Some? ==> t == Auth && patch.keyHash.value == "")
  }

  /** After is before with the fields of one domain that the patch names. */
  ghost predicate IsPatched(before: Config, t: ConfigType, patch: Patch, after: Config)
    requires patch.Patch?
  {
    && after.Keys == before.Keys
    && (forall other :: other in before && other != t ==> after[other] == before[other])
    && t in before && after[t].keyHash == before[t].keyHash
    && (forall field :: field in after[t].values <==> field in before[t].values || field in patch.values)
    && (forall field :: field in after[t].values ==>
          after[t].values[field] == if field in patch.values then patch.values[field] else before[t].values[field])
  }

  /** There is one such configuration. */
  lemma PatchedOnce(before: Config, t: ConfigType, patch: Patch, after: Config, other: Config)
    requires patch.Patch? && IsPatched(before, t, patch, after) && IsPatched(before, t, patch, other)
    ensures after == other
  {
    assert after[t].values == other[t].values;
    forall x | x in after
      ensures after[x] == other[x]
    {
      if x != t { assert x in before; }
    }
  }

  /** An update succeeds exactly if its domain may be edited, the version it expects is the one in memory and
      in the store, its patch fits, the patched configuration is valid, and all its calls succeed; and then
      that configuration is in memory, in the store under the next version, and in force. */
  lemma UpdateSucceedsIff(rules: Rules, s: State, step: Step, patched: Config)
    requires Sound(s) && step.Update? && IsManaged(step.t) && Fits(rules, step.t, step.patch)
    requires IsPatched(s.config, step.t, step.patch, patched)
    ensures Succeeds(rules, s, step) <==>
      && step.expected == s.versions[step.t] == s.rows[step.t].version && rules.valid(patched)
      && step.luck.applies && step.luck.fault == Works
    ensures Succeeds(rules, s, step) ==>
      var next, t := Next(rules, s, step), step.t;
      && next.config == patched && next.applied == patched
      && t in next.rows && next.rows[t].data.values == patched[t].values && next.rows[t].version == step.expected + 1
      && (forall other :: IsManaged(other) && other != t ==>
            other in next.rows && next.rows[other] == s.rows[other] && next.versions[other] == s.versions[other])
  {
    var c := Candidate(rules, s.config, s.versions, step.t, step.patch, step.expected);
    CandidateIsPatched(rules, s, step, patched);
    assert SoundRow(s, step.t);
    if step.luck.applies && c.Ok? {
      UpdateReaches(rules, s, step);
    } else {
      UpdateStops(rules, s, step);
    }
  }

  lemma CandidateIsPatched(rules: Rules, s: State, step: Step, patched: Config)
    requires Sound(s) && step.Update? && IsManaged(step.t) && Fits(rules, step.t, step.patch)
    requires IsPatched(s.config, step.t, step.patch, patched)
    ensures var c := Candidate(rules, s.config, s.versions, step.t, step.patch, step.expected);
      && (c.Ok? <==> step.expected == s.versions[step.t] && rules.valid(patched))
      && (c.Ok? ==> c.value == patched)
  {
    assert IsManaged(Auth);
    var t := step.t;
    assert s.config[t].keyHash == "";
    var decoded := Decode(rules, t, step.patch, s.config[t]);
    assert decoded.Some?;
    PatchedOnce(s.config, t, step.patch, s.config[t := decoded.value], patched);
  }

  /** A patch that does not fit, or of a domain that may not be edited, changes nothing. */
  lemma MisfitChangesNothing(rules: Rules, s: State, step: Step)
    requires Sound(s) && step.Update? && !(IsManaged(step.t) && Fits(rules, step.t, step.patch))
    ensures !Succeeds(rules, s, step) && Next(rules, s, step) == s
  {
    assert IsManaged(Auth);
    assert Candidate(rules, s.config, s.versions, step.t, step.patch, step.expected).Err?;
    UpdateStops(rules, s, step);
  }

  /** A reset, where the defaults name every field, that succeeds gives the domain its default values. */
  lemma ResetGivesDefaults(rules: Rules, s: State, t: ConfigType, defaults: Domain, luck: Luck)
    requires Sound(s) && IsManaged(t) && defaults.keyHash == ""
    requires s.config[t].values.Keys <= defaults.values.Keys
    requires Succeeds(rules, s, Update(t, Full(defaults), s.versions[t], luck))
    ensures var next := Next(rules, s, Update(t, Full(defaults), s.versions[t], luck));
      && t in next.config && next.config[t].values == defaults.values
      && t in next.rows && next.rows[t].data.values == defaults.values
  {
    var step, patched := Update(t, Full(defaults), s.versions[t], luck), s.config[t := s.config[t].(values := defaults.values)];
    if Fits(rules, t, Full(defaults)) {
      UpdateSucceedsIff(rules, s, step, patched);
    } else {
      MisfitChangesNothing(rules, s, step);
    }
  }

  /** The configuration in memory, and the one in force, are valid. */
  ghost predicate AllValid(rules: Rules, s: State) { rules.valid(s.config) && rules.valid(s.applied) }

  lemma StepKeepsValid(rules: Rules, s: State, step: Step)
    requires Sound(s) && Possible(step) && AllValid(rules, s)
    ensures AllValid(rules, Next(rules, s, step))
  {
  }

  /** Over any run, whatever fails, no invalid configuration is ever in memory or applied. */
  lemma {:induction false} NeverInvalid(rules: Rules, s: State, steps: seq<Step>)
    requires Sound(s) && AllPossible(steps) && AllValid(rules, s)
    ensures AllValid(rules, Run(rules, s, steps))
  {
    hide Next;
    if steps != [] {
      var front := steps[..|steps| - 1];
      NeverInvalid(rules, s, front);
      StepKeepsValid(rules, Run(rules, s, front), steps[|steps| - 1]);
    }
  }

  /** An import succeeds exactly if what it brings, without a key, is valid and all its calls succeed. */
  lemma ImportSucceedsIff(rules: Rules, s: State, step: Step, keyless: Config)
    requires Sound(s) && step.Import? && Possible(step)
    requires keyless.Keys == step.imported.Keys && forall t :: t in keyless ==> keyless[t] == Domain(step.imported[t].values, "")
    ensures Succeeds(rules, s, step) <==> rules.valid(keyless) && step.luck.applies && step.luck.fault == Works
  {
    assert IsManaged(Auth);
    assert WithoutKey(step.imported) == keyless;
  }

  /** After an import each managed domain has the imported fields, in memory and in the store, under the next
      version; the key in the store is the new one, or if there is none the old. */
  lemma ImportWritesAll(rules: Rules, s: State, step: Step, t: ConfigType)
    requires Sound(s) && step.Import? && Possible(step) && IsManaged(t)
    requires Succeeds(rules, s, step)
    ensures var next := Next(rules, s, step);
      && t in next.config && t in next.versions && t in next.rows
      && next.config[t].values == step.imported[t].values == next.rows[t].data.values
      && next.versions[t] == next.rows[t].version == s.rows[t].version + 1
      && next.config[t].keyHash == ""
      && (t == Auth ==> next.rows[t].data.keyHash == if step.keyHash != "" then step.keyHash else s.rows[t].data.keyHash)
      && next.applied == next.config
  {
    assert IsManaged(Auth);
  }
}
