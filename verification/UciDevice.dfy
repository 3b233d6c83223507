/** The whole device's staging and commit (src/getDeviceScript.ts, stageRecords and
    finaliseRecords; src/engine/uci.ts, changedConfigs; src/applyDiff.ts, configsAfter). */
module UciDevice {
  import opened Wrappers
  import opened Uci
  import opened UciStaging
  import opened UciRefinement

  /** Declared configs, each once, in the order they are written. */
  type DeclaredConfigs = seq<(string, seq<Decl>)>

  predicate DistinctKeys(declared: DeclaredConfigs) {
    forall i, j :: 0 <= i < j < |declared| ==> declared[i].0 != declared[j].0
  }

  function DeclsOf(declared: DeclaredConfigs, config: string): seq<Decl> {
    if declared == [] then []
    else if declared[0].0 == config then declared[0].1
    else DeclsOf(declared[1..], config)
  }

  /** The keys of a map, each once, in some order: an object's entries. */
  ghost predicate Lists<T>(keys: seq<string>, m: map<string, T>) {
    && (forall i, j :: 0 <= i < j < |keys| ==> keys[i] != keys[j])
    && forall key :: key in keys <==> key in m
  }

  function WipeAll(keys: seq<string>, current: Configs, keep: seq<Keep>): seq<Op>
    requires forall key :: key in keys ==> key in current
  {
    if keys == [] then [] else WipeOps(keys[0], current[keys[0]], keep) + WipeAll(keys[1..], current, keep)
  }

  function DeclareAll(declared: DeclaredConfigs): seq<Op> {
    if declared == [] then [] else DeclsOps(declared[0].0, declared[0].1) + DeclareAll(declared[1..])
  }

  /** The operations of a stage: the wipe, then the declared config. */
  function StageOps(keys: seq<string>, current: Configs, declared: DeclaredConfigs, keep: seq<Keep>): seq<Op>
    requires forall key :: key in keys ==> key in current
  {
    WipeAll(keys, current, keep) + DeclareAll(declared)
  }

  /** One `uci` process after another; None when one is refused (its config not there, say). */
  function Run(configs: Configs, ops: seq<Op>): Option<Configs>
    decreases ops
  {
    if ops == [] then Some(configs)
    else if ops[0].config !in configs then None
    else match Do(configs[ops[0].config], ops[0])
      case None => None
      case Some(next) => Run(configs[ops[0].config := next], ops[1..])
  }

  function OpsOn(ops: seq<Op>, config: string): seq<Op> {
    if ops == [] then []
    else (if ops[0].config == config then [ops[0]] else []) + OpsOn(ops[1..], config)
  }

  /** Each config only sees its own operations. */
  lemma {:induction false} RunByConfig(configs: Configs, ops: seq<Op>) returns (result: Configs)
    requires forall i :: 0 <= i < |ops| ==> ops[i].config in configs
    requires forall config :: config in configs ==> DoAll(configs[config], OpsOn(ops, config)).Some?
    ensures Run(configs, ops) == Some(result) && result.Keys == configs.Keys
    ensures forall config :: config in configs ==> DoAll(configs[config], OpsOn(ops, config)) == Some(result[config])
    decreases ops
  {
    if ops == [] { return configs; }
    var at := ops[0].config;
    assert OpsOn(ops, at) == [ops[0]] + OpsOn(ops[1..], at);
    assert ([ops[0]] + OpsOn(ops[1..], at))[1..] == OpsOn(ops[1..], at);
    var next := configs[at := Do(configs[at], ops[0]).value];
    forall config | config in next
      ensures DoAll(next[config], OpsOn(ops[1..], config)) == DoAll(configs[config], OpsOn(ops, config))
    {
      if config != at { assert OpsOn(ops, config) == OpsOn(ops[1..], config); }
    }
    result := RunByConfig(next, ops[1..]);
  }

  lemma {:induction false} OpsOnJoined(a: seq<Op>, b: seq<Op>, config: string)
    ensures OpsOn(a + b, config) == OpsOn(a, config) + OpsOn(b, config)
    decreases |a|
  {
    if a == [] {
      assert a + b == b;
    } else {
      var first := if a[0].config == config then [a[0]] else [];
      calc {
        OpsOn(a + b, config);
        { assert (a + b)[0] == a[0] && (a + b)[1..] == a[1..] + b; }
        first + OpsOn(a[1..] + b, config);
        { OpsOnJoined(a[1..], b, config); }
        first + (OpsOn(a[1..], config) + OpsOn(b, config));
        OpsOn(a, config) + OpsOn(b, config);
      }
    }
  }

  /** Operations that are all one config's. */
  predicate AllOn(ops: seq<Op>, config: string) {
    forall i :: 0 <= i < |ops| ==> ops[i].config == config
  }

  lemma {:induction false} OpsOnOwn(ops: seq<Op>, at: string, config: string)
    requires AllOn(ops, at)
    ensures OpsOn(ops, config) == if config == at then ops else []
    decreases |ops|
  {
    if ops != [] { OpsOnOwn(ops[1..], at, config); }
  }

  lemma {:induction false} WipeIsOwn(config: string, sections: seq<Section>, keep: seq<Keep>)
    ensures AllOn(WipeNamed(config, sections, keep), config) && AllOn(WipeAnonymous(config, sections, keep), config)
    decreases |sections|
  {
    if sections != [] { WipeIsOwn(config, sections[1..], keep); }
  }

  lemma {:induction false} OptionsAreOwn(config: string, name: string, options: seq<(string, Declared)>)
    ensures AllOn(OptionsOps(config, name, options), config)
    decreases |options|
  {
    if options != [] { OptionsAreOwn(config, name, options[..|options| - 1]); }
  }

  lemma {:induction false} DeclsAreOwn(config: string, decls: seq<Decl>)
    ensures AllOn(DeclsOps(config, decls), config)
    decreases |decls|
  {
    if decls != [] {
      DeclsAreOwn(config, decls[..|decls| - 1]);
      OptionsAreOwn(config, decls[|decls| - 1].name, decls[|decls| - 1].options);
    }
  }

  lemma {:induction false} WipeAllOn(keys: seq<string>, current: Configs, keep: seq<Keep>, config: string)
    requires forall key :: key in keys ==> key in current
    requires forall i, j :: 0 <= i < j < |keys| ==> keys[i] != keys[j]
    ensures OpsOn(WipeAll(keys, current, keep), config) == if config in keys then WipeOps(config, current[config], keep) else []
    ensures forall i :: 0 <= i < |WipeAll(keys, current, keep)| ==> WipeAll(keys, current, keep)[i].config in current
    decreases |keys|
  {
    if keys != [] {
      WipeIsOwn(keys[0], current[keys[0]], keep);
      OpsOnOwn(WipeOps(keys[0], current[keys[0]], keep), keys[0], config);
      WipeAllOn(keys[1..], current, keep, config);
      OpsOnJoined(WipeOps(keys[0], current[keys[0]], keep), WipeAll(keys[1..], current, keep), config);
    }
  }

  lemma {:induction false} NotDeclaredOn(declared: DeclaredConfigs, config: string)
    requires forall i :: 0 <= i < |declared| ==> declared[i].0 != config
    ensures DeclsOf(declared, config) == []
    decreases |declared|
  {
    if declared != [] { NotDeclaredOn(declared[1..], config); }
  }

  lemma {:induction false} DeclareAllOn(declared: DeclaredConfigs, config: string)
    requires DistinctKeys(declared)
    ensures OpsOn(DeclareAll(declared), config) == DeclsOps(config, DeclsOf(declared, config))
    decreases |declared|
  {
    if declared != [] {
      DeclsAreOwn(declared[0].0, declared[0].1);
      OpsOnOwn(DeclsOps(declared[0].0, declared[0].1), declared[0].0, config);
      DeclareAllOn(declared[1..], config);
      OpsOnJoined(DeclsOps(declared[0].0, declared[0].1), DeclareAll(declared[1..]), config);
      if declared[0].0 == config { NotDeclaredOn(declared[1..], config); }
    }
  }

  lemma {:induction false} DeclareAllWithin(declared: DeclaredConfigs, current: Configs)
    requires forall i :: 0 <= i < |declared| && declared[i].1 != [] ==> declared[i].0 in current
    ensures forall i :: 0 <= i < |DeclareAll(declared)| ==> DeclareAll(declared)[i].config in current
    decreases |declared|
  {
    if declared != [] {
      DeclsAreOwn(declared[0].0, declared[0].1);
      DeclareAllWithin(declared[1..], current);
    }
  }

  // ----- The specification -----

  function ConfigsAfter(current: Configs, declared: DeclaredConfigs, keep: seq<Keep>): Configs {
    map config | config in current.Keys + (set i | 0 <= i < |declared| :: declared[i].0)
      && (config in current || After(config, [], AsSections(DeclsOf(declared, config)), keep) != []) ::
      After(config, if config in current then current[config] else [], AsSections(DeclsOf(declared, config)), keep)
  }

  /** The configs a wipe or the declared config changes, and so must commit. */
  predicate IsChanged(config: string, current: Configs, declared: DeclaredConfigs, keep: seq<Keep>) {
    || (config in current && exists i :: 0 <= i < |current[config]| && !IsKept(keep, config, current[config][i].typ))
    || DeclsOf(declared, config) != []
  }

  /** `uci commit` of each changed config, by name: the rest stay as they were committed. */
  function Committed(before: Configs, staged: Configs, declared: DeclaredConfigs, keep: seq<Keep>): Configs {
    map config | config in staged :: if config in before && !IsChanged(config, before, declared, keep) then before[config] else staged[config]
  }

  /** What the device holds and what is declared, as uci and the engine guarantee them: names told
      once, and every config with something declared there (prepare writes one that is missing). */
  predicate Applicable(current: Configs, declared: DeclaredConfigs) {
    && DistinctKeys(declared)
    && (forall config :: config in current ==> UniqueNames(current[config]))
    && forall i :: 0 <= i < |declared| ==> WellDeclared(declared[i].1) && (declared[i].1 != [] ==> declared[i].0 in current)
  }

  lemma {:induction false} DeclsWell(current: Configs, declared: DeclaredConfigs, config: string)
    requires Applicable(current, declared)
    ensures WellDeclared(DeclsOf(declared, config)) && (DeclsOf(declared, config) != [] ==> config in current)
    decreases |declared|
  {
    if declared != [] && declared[0].0 != config {
      assert Applicable(current, declared[1..]);
      DeclsWell(current, declared[1..], config);
    }
  }

  lemma {:induction false} StageOpsOn(keys: seq<string>, current: Configs, declared: DeclaredConfigs, keep: seq<Keep>, config: string)
    requires Lists(keys, current) && DistinctKeys(declared) && config in current
    ensures OpsOn(StageOps(keys, current, declared, keep), config)
      == WipeOps(config, current[config], keep) + DeclsOps(config, DeclsOf(declared, config))
  {
    WipeAllOn(keys, current, keep, config);
    DeclareAllOn(declared, config);
    OpsOnJoined(WipeAll(keys, current, keep), DeclareAll(declared), config);
  }

  /** Staging the whole device is never refused, and config by config is what StagingComesTo says. */
  lemma {:induction false} StageRuns(keys: seq<string>, current: Configs, declared: DeclaredConfigs, keep: seq<Keep>) returns (staged: Configs)
    requires Lists(keys, current) && Applicable(current, declared)
    ensures Run(current, StageOps(keys, current, declared, keep)) == Some(staged) && staged.Keys == current.Keys
    ensures forall config :: config in current ==>
      DoAll(current[config], WipeOps(config, current[config], keep) + DeclsOps(config, DeclsOf(declared, config))) == Some(staged[config])
  {
    var ops := StageOps(keys, current, declared, keep);
    forall config | config in current
      ensures OpsOn(ops, config) == WipeOps(config, current[config], keep) + DeclsOps(config, DeclsOf(declared, config))
      ensures DoAll(current[config], OpsOn(ops, config)).Some?
    {
      StageOpsOn(keys, current, declared, keep, config);
      DeclsWell(current, declared, config);
      StagingComesTo(config, current[config], DeclsOf(declared, config), keep);
    }
    DeclareAllWithin(declared, current);
    WipeAllOn(keys, current, keep, "");
    staged := RunByConfig(current, ops);
  }

  /** With every declared config there, configsAfter has the device's configs and no others. */
  lemma {:induction false} AfterKeys(current: Configs, declared: DeclaredConfigs, keep: seq<Keep>)
    requires Applicable(current, declared)
    ensures ConfigsAfter(current, declared, keep).Keys == current.Keys
  {
    forall config | config !in current ensures After(config, [], AsSections(DeclsOf(declared, config)), keep) == [] {
      DeclsWell(current, declared, config);
    }
  }

  /** One config, staged: as reviewed just when its sections agree, and untouched unless it is among
      those committed. */
  lemma {:induction false} OneStaged(config: string, current: Configs, declared: DeclaredConfigs, keep: seq<Keep>, staged: seq<Section>)
    requires Applicable(current, declared) && config in current
    requires DoAll(current[config], WipeOps(config, current[config], keep) + DeclsOps(config, DeclsOf(declared, config))) == Some(staged)
    ensures !IsChanged(config, current, declared, keep) ==> staged == current[config]
    ensures staged == After(config, current[config], AsSections(DeclsOf(declared, config)), keep)
      <==> AllAgree(config, keep, KeptSections(config, current[config], keep), DeclsOf(declared, config))
  {
    DeclsWell(current, declared, config);
    StagingRefinesReview(config, current[config], DeclsOf(declared, config), keep);
    StagingComesTo(config, current[config], DeclsOf(declared, config), keep);
    if !IsChanged(config, current, declared, keep) { AllKeptStay(config, current[config], keep); }
  }

  predicate AgreesThroughout(current: Configs, declared: DeclaredConfigs, keep: seq<Keep>) {
    forall config | config in current :: AllAgree(config, keep, KeptSections(config, current[config], keep), DeclsOf(declared, config))
  }

  lemma {:induction false} AfterAt(config: string, current: Configs, declared: DeclaredConfigs, keep: seq<Keep>)
    requires config in current
    ensures config in ConfigsAfter(current, declared, keep)
    ensures ConfigsAfter(current, declared, keep)[config] == After(config, current[config], AsSections(DeclsOf(declared, config)), keep)
  {
  }

  /** The path from the device's config and the declared one, through the operations, to what is
      committed: exactly configsAfter if, and only if, every declared section agrees with the kept
      one of its name; and no config outside changedConfigs was touched, so committing those by
      name commits it all. */
  lemma {:induction false} ApplyRefinesReview(keys: seq<string>, current: Configs, declared: DeclaredConfigs, keep: seq<Keep>) returns (staged: Configs)
    requires Lists(keys, current) && Applicable(current, declared)
    ensures Run(current, StageOps(keys, current, declared, keep)) == Some(staged)
    ensures Committed(current, staged, declared, keep) == staged
    ensures staged == ConfigsAfter(current, declared, keep) <==> AgreesThroughout(current, declared, keep)
  {
    staged := StageRuns(keys, current, declared, keep);
    AfterKeys(current, declared, keep);
    CommitsItAll(current, declared, keep, staged);
    SameAsReviewed(current, declared, keep, staged, ConfigsAfter(current, declared, keep));
  }

  ghost predicate IsStaged(current: Configs, declared: DeclaredConfigs, keep: seq<Keep>, staged: Configs) {
    && staged.Keys == current.Keys
    && forall config :: config in current ==>
      DoAll(current[config], WipeOps(config, current[config], keep) + DeclsOps(config, DeclsOf(declared, config))) == Some(staged[config])
  }

  lemma {:induction false} CommitsItAll(current: Configs, declared: DeclaredConfigs, keep: seq<Keep>, staged: Configs)
    requires Applicable(current, declared) && IsStaged(current, declared, keep, staged)
    ensures Committed(current, staged, declared, keep) == staged
  {
    forall config | config in staged && !IsChanged(config, current, declared, keep)
      ensures current[config] == staged[config]
    {
      OneStaged(config, current, declared, keep, staged[config]);
    }
  }

  lemma {:induction false} SameAsReviewed(current: Configs, declared: DeclaredConfigs, keep: seq<Keep>, staged: Configs, after: Configs)
    requires Applicable(current, declared) && IsStaged(current, declared, keep, staged)
    requires after == ConfigsAfter(current, declared, keep) && after.Keys == current.Keys
    ensures staged == after <==> AgreesThroughout(current, declared, keep)
  {
    forall config | config in current
      ensures staged[config] == after[config] <==> AllAgree(config, keep, KeptSections(config, current[config], keep), DeclsOf(declared, config))
    {
      OneStaged(config, current, declared, keep, staged[config]);
      AfterAt(config, current, declared, keep);
    }
    if forall config :: config in current ==> staged[config] == after[config] {
      assert staged == after;
    }
  }

  lemma {:induction false} AllKeptStay(config: string, sections: seq<Section>, keep: seq<Keep>)
    requires forall i :: 0 <= i < |sections| ==> IsKept(keep, config, sections[i].typ)
    ensures KeptSections(config, sections, keep) == sections
    ensures StagedForm(KeptSections(config, sections, keep), []) == sections
    decreases |sections|
  {
    if sections != [] { AllKeptStay(config, sections[1..], keep); }
    assert AllDeclaredOver(sections, []) == sections;
  }
}
