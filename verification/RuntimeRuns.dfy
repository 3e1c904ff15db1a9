/**
 Whole runs of the runtime configuration: updates, imports and rotations of the administrator's key, in
 any order, with calls that fail.
 */
module RuntimeRuns {
  import opened RuntimeConfig
  import opened Wrappers

  /** A path update and a reset are updates, with the data they read earlier. */
  datatype Step =
    | Update(t: ConfigType, patch: Patch, expected: int, luck: Luck)
    | Import(imported: Config, keyHash: string, luck: Luck)
    | SetKey(keyHash: string, commits: bool)

  /** Only the authentication domain has a field for the key. */
  ghost predicate WellShaped(config: Config) {
    && (forall t :: t in config <==> IsManaged(t))
    && (forall t :: t in config && t != Auth ==> config[t].keyHash == "")
  }

  ghost predicate Possible(step: Step) { step.Import? ==> WellShaped(step.imported) }

  ghost function Next(rules: Rules, s: State, step: Step): State
    requires Shaped(s) && Possible(step)
  {
    match step
    case Update(t, patch, expected, luck) => AfterUpdate(rules, s, t, patch, expected, luck).0
    case Import(imported, keyHash, luck) => AfterImport(rules, s, imported, keyHash, luck).0
    case SetKey(keyHash, commits) => if commits then s.(rows := WithKey(s.rows, keyHash)) else s
  }

  ghost predicate Succeeds(rules: Rules, s: State, step: Step)
    requires Shaped(s) && Possible(step)
  {
    match step
    case Update(t, patch, expected, luck) => AfterUpdate(rules, s, t, patch, expected, luck).1.Ok?
    case Import(imported, keyHash, luck) => AfterImport(rules, s, imported, keyHash, luck).1
    case SetKey(_, commits) => commits
  }

  /** What holds whatever fails: the manager holds no key, every managed row is there, and no version in
      memory is ahead of the store. */
  ghost predicate Sound(s: State) {
    && Shaped(s) && WellShaped(s.config) && s.config[Auth].keyHash == "" && HasManaged(s.rows)
    && forall t :: IsManaged(t) ==> SoundRow(s, t)
  }

  ghost predicate SoundRow(s: State, t: ConfigType)
    requires Shaped(s) && HasManaged(s.rows) && IsManaged(t)
  {
    1 <= s.versions[t] <= s.rows[t].version && (t != Auth ==> s.rows[t].data.keyHash == "")
  }

  /** Memory says what the store says. */
  ghost predicate Mirrors(s: State, t: ConfigType)
    requires Shaped(s) && HasManaged(s.rows) && IsManaged(t)
  {
    s.rows[t].data.values == s.config[t].values && s.rows[t].version == s.versions[t]
  }

  ghost predicate Mirror(s: State) {
    Sound(s) && s.applied == s.config && forall t :: IsManaged(t) ==> Mirrors(s, t)
  }

  // ----- One step -----

  /** What an update does that gets as far as the store. */
  lemma UpdateReaches(rules: Rules, s: State, step: Step)
    requires Sound(s) && step.Update?
    requires step.luck.applies && Candidate(rules, s.config, s.versions, step.t, step.patch, step.expected).Ok?
    ensures var c, t, next := Candidate(rules, s.config, s.versions, step.t, step.patch, step.expected).value, step.t, Next(rules, s, step);
      var wrote := step.luck.fault != WriteFails && s.rows[t].version == s.versions[t];
      && IsManaged(t) && WellShaped(c) && c == s.config[t := c[t]] && c[Auth].keyHash == ""
      && next.rows == (if wrote then s.rows[t := Row(Domain(c[t].values, s.rows[t].data.keyHash), s.versions[t] + 1)] else s.rows)
      && (Succeeds(rules, s, step) <==> wrote && step.luck.fault == Works)
      && next.config == (if Succeeds(rules, s, step) then c else s.config)
      && next.versions == (if Succeeds(rules, s, step) then s.versions[t := s.versions[t] + 1] else s.versions)
      && next.applied == (if Succeeds(rules, s, step) || !step.luck.rollsBack then c else s.config)
  {
    var t := step.t;
    CandidateChangesOne(rules, s.config, s.versions, t, step.patch, step.expected);
    CandidateKeepsShape(rules, s, t, step.patch, step.expected);
    assert SoundRow(s, t);
  }

  lemma CandidateKeepsShape(rules: Rules, s: State, t: ConfigType, patch: Patch, expected: int)
    requires Sound(s)
    ensures var c := Candidate(rules, s.config, s.versions, t, patch, expected);
      c.Ok? ==> WellShaped(c.value) && c.value[Auth].keyHash == ""
  {
    assert IsManaged(Auth);
  }

  lemma UpdateStops(rules: Rules, s: State, step: Step)
    requires Sound(s) && step.Update?
    requires !(step.luck.applies && Candidate(rules, s.config, s.versions, step.t, step.patch, step.expected).Ok?)
    ensures Next(rules, s, step) == s && !Succeeds(rules, s, step)
  {
  }

  lemma UpdateKeepsSound(rules: Rules, s: State, step: Step)
    requires Sound(s) && step.Update?
    ensures Sound(Next(rules, s, step))
  {
    hide Next;
    hide Succeeds;
    hide Candidate;
    if step.luck.applies && Candidate(rules, s.config, s.versions, step.t, step.patch, step.expected).Ok? {
      UpdateReaches(rules, s, step);
      var next := Next(rules, s, step);
      assert Shaped(next) && HasManaged(next.rows);
      forall t | IsManaged(t)
        ensures SoundRow(next, t)
      {
        assert SoundRow(s, t);
      }
    } else {
      UpdateStops(rules, s, step);
    }
  }

  /** An update keeps the mirror exactly if it is refused, or all its calls succeed, or the write fails and
      the old configuration is applied again; a write that cannot be read back is lost on the manager. */
  lemma UpdateMirrorsIff(rules: Rules, s: State, step: Step)
    requires Mirror(s) && step.Update?
    ensures var c, luck := Candidate(rules, s.config, s.versions, step.t, step.patch, step.expected), step.luck;
      Mirror(Next(rules, s, step)) <==>
        (c.Ok? && luck.applies ==>
           luck.fault == Works || (luck.fault == WriteFails && (luck.rollsBack || c.value == s.config)))
  {
    hide Next;
    hide Succeeds;
    hide Candidate;
    UpdateKeepsSound(rules, s, step);
    var c, t, next := Candidate(rules, s.config, s.versions, step.t, step.patch, step.expected), step.t, Next(rules, s, step);
    if step.luck.applies && c.Ok? {
      UpdateReaches(rules, s, step);
      assert Mirrors(s, t);
      if step.luck.fault == ReadBackFails {
        assert !Mirrors(next, t);
      } else {
        forall x | IsManaged(x)
          ensures Mirrors(next, x)
        {
          assert Mirrors(s, x);
        }
      }
    } else {
      UpdateStops(rules, s, step);
    }
  }

  /** A successful import makes memory mirror the store, whatever went wrong before. */
  lemma ImportRestoresMirror(rules: Rules, s: State, step: Step)
    requires Sound(s) && step.Import? && Possible(step)
    ensures Sound(Next(rules, s, step))
    ensures Succeeds(rules, s, step) ==> Mirror(Next(rules, s, step))
    ensures !Succeeds(rules, s, step) ==>
      var next := Next(rules, s, step);
      next == s.(applied := next.applied) && (step.luck.rollsBack ==> next.applied == s.config || next.applied == s.applied)
  {
    if Succeeds(rules, s, step) {
      var next := Next(rules, s, step);
      assert Shaped(next) && HasManaged(next.rows) && IsManaged(Auth);
      forall t | IsManaged(t)
        ensures SoundRow(next, t) && Mirrors(next, t)
      {
        assert SoundRow(s, t);
      }
    }
  }

  lemma KeyKeepsSound(rules: Rules, s: State, step: Step)
    requires Sound(s) && step.SetKey?
    ensures Sound(Next(rules, s, step)) && (Mirror(s) ==> Mirror(Next(rules, s, step)))
  {
    var next := Next(rules, s, step);
    assert IsManaged(Auth);
    forall t | IsManaged(t)
      ensures SoundRow(next, t) && (Mirrors(s, t) ==> Mirrors(next, t))
    {
      assert SoundRow(s, t);
    }
  }

  lemma StepKeepsSound(rules: Rules, s: State, step: Step)
    requires Sound(s) && Possible(step)
    ensures Sound(Next(rules, s, step))
  {
    match step
    case Update(_, _, _, _) => UpdateKeepsSound(rules, s, step);
    case Import(_, _, _) => ImportRestoresMirror(rules, s, step);
    case SetKey(_, _) => KeyKeepsSound(rules, s, step);
  }

  // ----- Runs -----

  ghost predicate AllPossible(steps: seq<Step>) { forall i :: 0 <= i < |steps| ==> Possible(steps[i]) }

  ghost function Run(rules: Rules, s: State, steps: seq<Step>): (after: State)
    requires Sound(s) && AllPossible(steps)
    ensures Sound(after)
  {
    if steps == [] then s
    else
      var before := Run(rules, s, steps[..|steps| - 1]);
      StepKeepsSound(rules, before, steps[|steps| - 1]);
      Next(rules, before, steps[|steps| - 1])
  }

  /** A failing call of the store changes nothing, and applying the old configuration again succeeds. */
  ghost predicate Clean(step: Step) { step.SetKey? || (step.luck.fault != ReadBackFails && step.luck.rollsBack) }

  /** From the mirror, over any run of clean steps, memory mirrors the store and the running program has
      what memory says. */
  lemma {:induction false} RunMirrors(rules: Rules, s: State, steps: seq<Step>)
    requires Mirror(s) && AllPossible(steps) && forall i :: 0 <= i < |steps| ==> Clean(steps[i])
    ensures Mirror(Run(rules, s, steps))
  {
    if steps != [] {
      var front, step := steps[..|steps| - 1], steps[|steps| - 1];
      RunMirrors(rules, s, front);
      var before := Run(rules, s, front);
      assert Clean(step);
      match step {
        case Update(_, _, _, _) => UpdateMirrorsIff(rules, before, step);
        case Import(_, _, _) => ImportRestoresMirror(rules, before, step);
        case SetKey(_, _) => KeyKeepsSound(rules, before, step);
      }
      if step.Import? && !Succeeds(rules, before, step) {
        FailedImportMirrors(rules, before, step);
      }
    }
  }

  lemma FailedImportMirrors(rules: Rules, s: State, step: Step)
    requires Mirror(s) && step.Import? && Possible(step) && step.luck.rollsBack && !Succeeds(rules, s, step)
    ensures Next(rules, s, step) == s
  {
  }

  lemma LoadMirrors(rules: Rules, rows: map<ConfigType, Row>)
    requires Loadable(rules, rows)
    requires forall t :: t in rows && IsManaged(t) ==> rows[t].version >= 1 && (t != Auth ==> rows[t].data.keyHash == "")
    ensures HasManaged(rows) && Mirror(Loaded(rows))
  {
    forall t | IsManaged(t)
      ensures t in rows
    {
      assert Present(rules, rows, t);
    }
    var s := Loaded(rows);
    assert IsManaged(Auth);
    assert Shaped(s);
    forall t | IsManaged(t)
      ensures SoundRow(s, t) && Mirrors(s, t)
    {}
  }

  // ----- Versions -----

  /** The version of a domain never falls, in memory or in the store; while it stays, so do the values. */
  ghost predicate VersionTells(s: State, next: State, t: ConfigType)
    requires Sound(s) && Sound(next) && IsManaged(t)
  {
    && s.versions[t] <= next.versions[t] && (s.versions[t] == next.versions[t] ==> s.config[t] == next.config[t])
    && s.rows[t].version <= next.rows[t].version
    && (s.rows[t].version == next.rows[t].version ==> s.rows[t].data.values == next.rows[t].data.values)
  }

  lemma StepVersionTells(rules: Rules, s: State, step: Step, t: ConfigType)
    requires Sound(s) && Possible(step) && IsManaged(t)
    ensures Sound(Next(rules, s, step)) && VersionTells(s, Next(rules, s, step), t)
  {
    StepKeepsSound(rules, s, step);
    hide Next;
    hide Candidate;
    hide VersionTells;
    match step {
      case Update(_, patch, expected, luck) =>
        if luck.applies && Candidate(rules, s.config, s.versions, step.t, patch, expected).Ok? {
          UpdateVersionTells(rules, s, step, t);
        } else {
          UpdateStops(rules, s, step);
          NothingChanged(s, t);
        }
      case Import(_, _, _) => ImportVersionTells(rules, s, step, t);
      case SetKey(_, _) => KeyVersionTells(rules, s, step, t);
    }
  }

  lemma NothingChanged(s: State, t: ConfigType)
    requires Sound(s) && IsManaged(t)
    ensures VersionTells(s, s, t)
  {
  }

  lemma ImportVersionTells(rules: Rules, s: State, step: Step, t: ConfigType)
    requires Sound(s) && step.Import? && Possible(step) && IsManaged(t) && Sound(Next(rules, s, step))
    ensures VersionTells(s, Next(rules, s, step), t)
  {
    ImportCounts(rules, s, step, t);
    ImportRestoresMirror(rules, s, step);
    hide Next;
    hide Succeeds;
    assert SoundRow(s, t);
  }

  lemma ImportCounts(rules: Rules, s: State, step: Step, t: ConfigType)
    requires Sound(s) && step.Import? && Possible(step) && IsManaged(t) && Sound(Next(rules, s, step))
    ensures Succeeds(rules, s, step) ==>
      var next := Next(rules, s, step);
      next.rows[t].version == next.versions[t] == s.rows[t].version + 1
  {
  }

  lemma KeyVersionTells(rules: Rules, s: State, step: Step, t: ConfigType)
    requires Sound(s) && step.SetKey? && IsManaged(t) && Sound(Next(rules, s, step))
    ensures VersionTells(s, Next(rules, s, step), t)
  {
    assert IsManaged(Auth);
  }

  lemma UpdateVersionTells(rules: Rules, s: State, step: Step, t: ConfigType)
    requires Sound(s) && step.Update? && IsManaged(t)
    requires step.luck.applies && Candidate(rules, s.config, s.versions, step.t, step.patch, step.expected).Ok?
    ensures Sound(Next(rules, s, step)) && VersionTells(s, Next(rules, s, step), t)
  {
    hide Next;
    hide Succeeds;
    hide Candidate;
    UpdateKeepsSound(rules, s, step);
    UpdateReaches(rules, s, step);
  }

  lemma {:induction false} RunVersionTells(rules: Rules, s: State, steps: seq<Step>, t: ConfigType)
    requires Sound(s) && AllPossible(steps) && IsManaged(t)
    ensures VersionTells(s, Run(rules, s, steps), t)
  {
    if steps != [] {
      var front := steps[..|steps| - 1];
      RunVersionTells(rules, s, front, t);
      StepVersionTells(rules, Run(rules, s, front), steps[|steps| - 1], t);
    }
  }

  /** Only an update that expects the current version succeeds, and then the version rises. */
  lemma SuccessRaises(rules: Rules, s: State, step: Step)
    requires Sound(s) && step.Update? && Succeeds(rules, s, step)
    ensures var next := Next(rules, s, step);
      && Sound(next) && IsManaged(step.t) && step.expected == s.versions[step.t] && next.versions[step.t] == s.versions[step.t] + 1
  {
    StepKeepsSound(rules, s, step);
    if step.luck.applies && Candidate(rules, s.config, s.versions, step.t, step.patch, step.expected).Ok? {
      UpdateReaches(rules, s, step);
    } else {
      UpdateStops(rules, s, step);
    }
  }

  /** Two writers that hold the same version of a domain never both succeed, whatever happens between. */
  lemma TwoWritersNeverBothSucceed(rules: Rules, s: State, first: Step, between: seq<Step>, second: Step)
    requires Sound(s) && first.Update? && second.Update? && AllPossible(between)
    requires first.t == second.t && first.expected == second.expected
    requires Succeeds(rules, s, first)
    ensures Sound(Next(rules, s, first))
    ensures !Succeeds(rules, Run(rules, Next(rules, s, first), between), second)
  {
    hide Next, Succeeds;
    var next := Next(rules, s, first);
    SuccessRaises(rules, s, first);
    RunVersionTells(rules, next, between, first.t);
    if Succeeds(rules, Run(rules, next, between), second) {
      SuccessRaises(rules, Run(rules, next, between), second);
    }
  }

  // ----- A write that was not read back -----

  ghost predicate Behind(s: State, t: ConfigType) {
    Sound(s) && IsManaged(t) && s.versions[t] < s.rows[t].version
  }

  /** After such a write the manager is behind the store ... */
  lemma LostReadBack(rules: Rules, s: State, step: Step)
    requires Mirror(s) && step.Update? && step.luck.applies && step.luck.fault == ReadBackFails
    requires Candidate(rules, s.config, s.versions, step.t, step.patch, step.expected).Ok?
    ensures Behind(Next(rules, s, step), step.t)
  {
    UpdateKeepsSound(rules, s, step);
    UpdateReaches(rules, s, step);
    assert Mirrors(s, step.t);
  }

  lemma StaysBehind(rules: Rules, s: State, step: Step, t: ConfigType)
    requires Behind(s, t) && !step.Import? && Possible(step)
    ensures Behind(Next(rules, s, step), t)
    ensures step.Update? && step.t == t ==> !Succeeds(rules, s, step) && Next(rules, s, step).rows == s.rows
  {
    StepKeepsSound(rules, s, step);
    if step.Update? {
      if step.luck.applies && Candidate(rules, s.config, s.versions, step.t, step.patch, step.expected).Ok? {
        UpdateReaches(rules, s, step);
      } else {
        UpdateStops(rules, s, step);
      }
    }
  }

  /** ... and until an import or a restart no update of the domain succeeds. */
  lemma {:induction false} NoUpdateWhileBehind(rules: Rules, s: State, steps: seq<Step>, t: ConfigType, update: Step)
    requires Behind(s, t) && AllPossible(steps) && forall i :: 0 <= i < |steps| ==> !steps[i].Import?
    requires update.Update? && update.t == t
    ensures Behind(Run(rules, s, steps), t) && !Succeeds(rules, Run(rules, s, steps), update)
  {
    if steps != [] {
      var front := steps[..|steps| - 1];
      NoUpdateWhileBehind(rules, s, front, t, update);
      StaysBehind(rules, Run(rules, s, front), steps[|steps| - 1], t);
    }
    StaysBehind(rules, Run(rules, s, steps), update, t);
  }

  // ----- The key -----

  ghost function KeyOf(s: State): string
    requires Sound(s)
  {
    assert IsManaged(Auth);
    s.rows[Auth].data.keyHash
  }

  /** The key that a successful step sets, if it sets one. */
  ghost function NewKey(step: Step): Option<string> {
    if step.SetKey? then Some(step.keyHash)
    else if step.Import? && step.keyHash != "" then Some(step.keyHash) else None
  }

  /** The key changes by a rotation, or by an import that carries a key, and in no other way. */
  lemma KeyChanges(rules: Rules, s: State, step: Step)
    requires Sound(s) && Possible(step)
    ensures Sound(Next(rules, s, step))
    ensures KeyOf(Next(rules, s, step)) ==
      if Succeeds(rules, s, step) && NewKey(step).Some? then NewKey(step).value else KeyOf(s)
  {
    StepKeepsSound(rules, s, step);
    assert IsManaged(Auth);
    if step.Update? {
      if step.luck.applies && Candidate(rules, s.config, s.versions, step.t, step.patch, step.expected).Ok? {
        UpdateReaches(rules, s, step);
      } else {
        UpdateStops(rules, s, step);
      }
    }
  }

  ghost predicate SetsKey(step: Step) { step.SetKey? || (step.Import? && step.keyHash != "") }

  lemma {:induction false} KeyOutlivesRun(rules: Rules, s: State, steps: seq<Step>)
    requires Sound(s) && AllPossible(steps) && forall i :: 0 <= i < |steps| ==> !SetsKey(steps[i])
    ensures KeyOf(Run(rules, s, steps)) == KeyOf(s)
  {
    if steps != [] {
      var front := steps[..|steps| - 1];
      KeyOutlivesRun(rules, s, front);
      assert !SetsKey(steps[|steps| - 1]);
      KeyChanges(rules, Run(rules, s, front), steps[|steps| - 1]);
    }
  }
}
