/**
 An update of one field: it reads the whole domain before it takes the lock to write, and writes all of it.
 When that takes back what others have written in between.
 */
module PathUpdates {
  import opened RuntimeConfig
  import opened RuntimeRuns
  import opened Wrappers

  /** The write that follows a read of `read`. */
  function PathUpdate(read: Domain, t: ConfigType, path: string, value: string, expected: int, luck: Luck): Step {
    Update(t, PathPatch(read, path, value), expected, luck)
  }

  ghost function WithField(config: Config, t: ConfigType, path: string, value: string): Config
    requires t in config
  {
    config[t := config[t].(values := config[t].values[path := value])]
  }

  /** If the write succeeds, it has changed one field of the configuration it found, and nothing else. */
  ghost predicate LosesNothing(rules: Rules, now: State, update: Step, t: ConfigType, path: string, value: string)
    requires Sound(now) && IsManaged(t) && update.Update?
  {
    Succeeds(rules, now, update) ==> Next(rules, now, update).config == WithField(now.config, t, path, value)
  }

  /** Whatever happens between reading in s and writing, nothing is lost. */
  ghost predicate NeverLoses(rules: Rules, s: State, t: ConfigType, path: string, value: string, expected: int)
    requires Sound(s) && IsManaged(t)
  {
    forall between: seq<Step>, luck: Luck :: AllPossible(between) ==>
      LosesNothing(rules, Run(rules, s, between), PathUpdate(s.config[t], t, path, value, expected, luck), t, path, value)
  }

  // ----- A version that is there when the domain is read -----

  lemma WritesWhatWasRead(rules: Rules, now: State, t: ConfigType, read: Domain, path: string, value: string, expected: int, luck: Luck)
    requires Sound(now) && IsManaged(t) && (now.versions[t] == expected ==> read == now.config[t])
    ensures LosesNothing(rules, now, PathUpdate(read, t, path, value, expected, luck), t, path, value)
  {
    assert read.values + read.values[path := value] == read.values[path := value];
  }

  lemma KnownVersionLosesNothing(rules: Rules, s: State, between: seq<Step>, t: ConfigType, path: string, value: string, expected: int, luck: Luck)
    requires Sound(s) && AllPossible(between) && IsManaged(t) && expected <= s.versions[t]
    ensures LosesNothing(rules, Run(rules, s, between), PathUpdate(s.config[t], t, path, value, expected, luck), t, path, value)
  {
    hide LosesNothing;
    RunVersionTells(rules, s, between, t);
    WritesWhatWasRead(rules, Run(rules, s, between), t, s.config[t], path, value, expected, luck);
  }

  // ----- A version that is not there yet -----

  const LUCKY := Luck(true, Works, true)

  ghost function Overlaid(config: Config, t: ConfigType, values: map<string, string>): Config
    requires t in config
  {
    config[t := config[t].(values := config[t].values + values)]
  }

  lemma OneFieldOverlaid(config: Config, t: ConfigType, field: string, value: string)
    requires t in config
    ensures Overlaid(config, t, map[field := value]) == WithField(config, t, field, value)
    ensures Overlaid(WithField(config, t, field, value), t, map[field := value]) == WithField(config, t, field, value)
  {
    var was := config[t].values;
    assert was + map[field := value] == was[field := value] == was[field := value] + map[field := value];
    var c := WithField(config, t, field, value);
    assert c[t := c[t]] == c;
  }

  lemma StaleOverlaid(config: Config, t: ConfigType, path: string, value: string, field: string, other: string)
    requires t in config && field in config[t].values
    ensures Overlaid(WithField(config, t, field, other), t, config[t].values[path := value]) == WithField(config, t, path, value)
  {
    var was := config[t].values;
    assert was[field := other] + was[path := value] == was[path := value];
    assert WithField(config, t, field, other)[t := config[t].(values := was[path := value])] == WithField(config, t, path, value);
  }

  lemma MirrorIsSound(s: State, t: ConfigType)
    requires Mirror(s) && IsManaged(t)
    ensures Sound(s) && Shaped(s) && t in s.config && t in s.versions
  {
  }

  lemma LuckyUpdate(rules: Rules, s: State, t: ConfigType, values: map<string, string>)
    requires Mirror(s) && IsManaged(t) && values.Keys <= rules.schema(t)
    requires rules.valid(Overlaid(s.config, t, values))
    ensures var update := Update(t, Patch(values, None), s.versions[t], LUCKY);
      var next := Next(rules, s, update);
      && Succeeds(rules, s, update) && Mirror(next)
      && next.config == Overlaid(s.config, t, values) && next.versions == s.versions[t := s.versions[t] + 1]
  {
    hide Next;
    hide Succeeds;
    var update := Update(t, Patch(values, None), s.versions[t], LUCKY);
    assert Mirrors(s, t);
    assert Candidate(rules, s.config, s.versions, t, update.patch, update.expected) == Ok(Overlaid(s.config, t, values));
    hide Candidate;
    UpdateReaches(rules, s, update);
    UpdateMirrorsIff(rules, s, update);
  }

  /** n updates that set one field, at consecutive versions. */
  function Others(t: ConfigType, field: string, value: string, version: int, n: nat): seq<Step> {
    seq(n, i => Update(t, Patch(map[field := value], None), version + i, LUCKY))
  }

  /** Setting the field, once or again. */
  lemma OneOther(rules: Rules, config: Config, before: State, t: ConfigType, field: string, value: string)
    requires Mirror(before) && IsManaged(t) && field in rules.schema(t) && t in config
    requires before.config == config || before.config == WithField(config, t, field, value)
    requires rules.valid(WithField(config, t, field, value))
    ensures var update := Update(t, Patch(map[field := value], None), before.versions[t], LUCKY);
      var next := Next(rules, before, update);
      && Succeeds(rules, before, update) && Mirror(next) && Sound(next)
      && next.config == WithField(config, t, field, value) && t in next.versions && next.versions[t] == before.versions[t] + 1
  {
    hide Next;
    hide Succeeds;
    hide Overlaid;
    hide WithField;
    MirrorIsSound(before, t);
    OneFieldOverlaid(config, t, field, value);
    LuckyUpdate(rules, before, t, map[field := value]);
  }

  ghost predicate AfterOthers(rules: Rules, s: State, t: ConfigType, field: string, value: string, n: nat, after: State)
    requires Sound(s) && IsManaged(t)
  {
    && Mirror(after) && t in after.versions && after.versions[t] == s.versions[t] + n
    && after.config == if n == 0 then s.config else WithField(s.config, t, field, value)
  }

  lemma {:induction false} OthersSucceed(rules: Rules, s: State, t: ConfigType, field: string, value: string, n: nat)
    requires Mirror(s) && IsManaged(t) && field in rules.schema(t) && rules.valid(WithField(s.config, t, field, value))
    ensures var others := Others(t, field, value, s.versions[t], n);
      AllPossible(others) && AfterOthers(rules, s, t, field, value, n, Run(rules, s, others))
  {
    hide Next;
    hide Succeeds;
    hide Mirror;
    hide WithField;
    hide Run;
    hide Sound;
    hide Shaped;
    MirrorIsSound(s, t);
    var others := Others(t, field, value, s.versions[t], n);
    if n == 0 {
      NoSteps(rules, s, others);
    } else {
      assert others[..n - 1] == Others(t, field, value, s.versions[t], n - 1);
      OthersSucceed(rules, s, t, field, value, n - 1);
      OneOther(rules, s.config, Run(rules, s, others[..n - 1]), t, field, value);
      LastStep(rules, s, others);
    }
  }

  lemma NoSteps(rules: Rules, s: State, steps: seq<Step>)
    requires Sound(s) && |steps| == 0
    ensures Run(rules, s, steps) == s
  {
  }

  lemma LastStep(rules: Rules, s: State, steps: seq<Step>)
    requires Sound(s) && AllPossible(steps) && steps != []
    ensures Run(rules, s, steps) == Next(rules, Run(rules, s, steps[..|steps| - 1]), steps[|steps| - 1])
  {
    hide Next;
  }

  /** Another caller's field, changed in between, is set back. */
  lemma EarlyVersionLoses(
      rules: Rules, s: State, t: ConfigType, path: string, value: string, expected: int, field: string, other: string)
    requires Mirror(s) && IsManaged(t) && expected > s.versions[t]
    requires field != path && field in s.config[t].values && s.config[t].values[field] != other
    requires s.config[t].values.Keys + {path} <= rules.schema(t)
    requires rules.valid(WithField(s.config, t, field, other)) && rules.valid(WithField(s.config, t, path, value))
    ensures var others := Others(t, field, other, s.versions[t], expected - s.versions[t]);
      var update := PathUpdate(s.config[t], t, path, value, expected, LUCKY);
      && AllPossible(others) && Succeeds(rules, Run(rules, s, others), update)
      && Next(rules, Run(rules, s, others), update).config == WithField(s.config, t, path, value)
      && !LosesNothing(rules, Run(rules, s, others), update, t, path, value)
  {
    hide Next;
    hide Succeeds;
    hide Mirror;
    hide WithField;
    hide Run;
    hide LosesNothing;
    hide AfterOthers;
    MirrorIsSound(s, t);
    var n := expected - s.versions[t];
    OthersSucceed(rules, s, t, field, other, n);
    StaleWrite(rules, s, Run(rules, s, Others(t, field, other, s.versions[t], n)), t, path, value, field, other, n);
  }

  lemma StaleWrite(
      rules: Rules, s: State, now: State, t: ConfigType, path: string, value: string, field: string, other: string, n: nat)
    requires Mirror(s) && IsManaged(t) && n > 0 && AfterOthers(rules, s, t, field, other, n, now)
    requires field != path && field in s.config[t].values && s.config[t].values[field] != other
    requires s.config[t].values.Keys + {path} <= rules.schema(t) && rules.valid(WithField(s.config, t, path, value))
    ensures var update := PathUpdate(s.config[t], t, path, value, s.versions[t] + n, LUCKY);
      && Succeeds(rules, now, update) && Next(rules, now, update).config == WithField(s.config, t, path, value)
      && !LosesNothing(rules, now, update, t, path, value)
  {
    hide Next;
    hide Succeeds;
    hide Mirror;
    hide Sound;
    hide Shaped;
    hide Overlaid;
    hide WithField;
    hide LosesNothing;
    NoKeyRead(s, t);
    MirrorIsSound(s, t);
    MirrorIsSound(now, t);
    StaleOverlaid(s.config, t, path, value, field, other);
    LuckyUpdate(rules, now, t, s.config[t].values[path := value]);
    SetBack(rules, s.config, now, PathUpdate(s.config[t], t, path, value, s.versions[t] + n, LUCKY), t, path, value, field, other);
  }

  lemma SetBack(
      rules: Rules, config: Config, now: State, update: Step, t: ConfigType, path: string, value: string, field: string, other: string)
    requires Sound(now) && IsManaged(t) && update.Update? && t in config
    requires field != path && field in config[t].values && config[t].values[field] != other
    requires now.config == WithField(config, t, field, other)
    requires Succeeds(rules, now, update) && Next(rules, now, update).config == WithField(config, t, path, value)
    ensures !LosesNothing(rules, now, update, t, path, value)
  {
    hide Next;
    hide Succeeds;
    hide WithField;
    FieldSetBack(config, t, path, value, field, other);
  }

  lemma NoKeyRead(s: State, t: ConfigType)
    requires Mirror(s) && IsManaged(t)
    ensures s.config[t].keyHash == ""
  {
  }

  lemma FieldSetBack(config: Config, t: ConfigType, path: string, value: string, field: string, other: string)
    requires t in config && field != path && field in config[t].values && config[t].values[field] != other
    ensures WithField(config, t, path, value) != WithField(WithField(config, t, field, other), t, path, value)
  {
    assert WithField(config, t, path, value)[t].values[field] == config[t].values[field];
    assert WithField(WithField(config, t, field, other), t, path, value)[t].values[field] == other;
  }

  /** A path update never loses anything, whatever happens between its read and its write, if and only if
      the version that its caller expects is not later than the one there was at the read; provided that
      the domain has another field that the validation lets somebody change, and lets this one be changed. */
  lemma PathUpdateNeverLosesIff(
      rules: Rules, s: State, t: ConfigType, path: string, value: string, expected: int, field: string, other: string)
    requires Mirror(s) && IsManaged(t)
    requires field != path && field in s.config[t].values && s.config[t].values[field] != other
    requires s.config[t].values.Keys + {path} <= rules.schema(t)
    requires rules.valid(WithField(s.config, t, field, other)) && rules.valid(WithField(s.config, t, path, value))
    ensures NeverLoses(rules, s, t, path, value, expected) <==> expected <= s.versions[t]
  {
    hide LosesNothing;
    if expected <= s.versions[t] {
      forall between: seq<Step>, luck: Luck | AllPossible(between)
        ensures LosesNothing(rules, Run(rules, s, between), PathUpdate(s.config[t], t, path, value, expected, luck), t, path, value)
      {
        KnownVersionLosesNothing(rules, s, between, t, path, value, expected, luck);
      }
    } else {
      EarlyVersionLoses(rules, s, t, path, value, expected, field, other);
    }
  }
}
