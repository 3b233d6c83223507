/** A hand-written config's own conditions and overrides, pushed down into its sections'
    conditions (src/lowLevel/parse.ts, sectionOf and configSections), and what then applies to a
    device (src/engine/resolvePlan.ts, resolveSections). */
module Pushdown {
  import opened Wrappers
  import opened When

  /** Options as written, whatever their values are. */
  type Options = map<string, string>

  // ----- As written -----

  datatype RawOverride = RawOverride(condition: When, name: Option<string>, options: Options)

  datatype RawSection = RawSection(name: Option<string>, condition: Option<When>, overrides: seq<RawOverride>, options: Options)

  /** Replaces the whole list of each type it names. */
  datatype ConfigOverride = ConfigOverride(condition: When, types: map<string, seq<RawSection>>)

  datatype RawConfig = RawConfig(base: Option<When>, types: map<string, seq<RawSection>>, overrides: seq<ConfigOverride>)

  // ----- As compiled -----

  datatype Section = Section(name: Option<string>, condition: Option<When>, overrides: seq<RawOverride>, options: Options)

  function Listed<T>(value: Option<T>): seq<T> {
    if value.Some? then [value.value] else []
  }

  function SectionOf(raw: RawSection, extra: seq<When>): Section {
    var conditions := extra + Listed(raw.condition);
    Section(raw.name, if conditions != [] then Some(Joined(AllOf, conditions)) else None, raw.overrides, raw.options)
  }

  function SectionsOf(raws: seq<RawSection>, extra: seq<When>): seq<Section> {
    seq(|raws|, i requires 0 <= i < |raws| => SectionOf(raws[i], extra))
  }

  /** The conditions of the overrides that name a type. */
  function Replacing(overrides: seq<ConfigOverride>, typ: string): seq<When> {
    if overrides == [] then []
    else (if typ in overrides[0].types then [overrides[0].condition] else []) + Replacing(overrides[1..], typ)
  }

  /** That none of these overrides names the type and matches. */
  function Unless(overrides: seq<ConfigOverride>, typ: string): seq<When> {
    var later := Replacing(overrides, typ);
    if later != [] then [Not(Joined(AnyOf, later))] else []
  }

  /** Each override's list for the type, under its condition and unless a later one matches. */
  function Replacements(base: Option<When>, overrides: seq<ConfigOverride>, typ: string): seq<Section> {
    if overrides == [] then []
    else
      (if typ in overrides[0].types
       then SectionsOf(overrides[0].types[typ], Listed(base) + ([overrides[0].condition] + Unless(overrides[1..], typ)))
       else [])
      + Replacements(base, overrides[1..], typ)
  }

  function Own(raw: RawConfig, typ: string): seq<RawSection> {
    if typ in raw.types then raw.types[typ] else []
  }

  function TypeSections(raw: RawConfig, typ: string): seq<Section> {
    SectionsOf(Own(raw, typ), Listed(raw.base) + Unless(raw.overrides, typ)) + Replacements(raw.base, raw.overrides, typ)
  }

  function OverrideTypes(overrides: seq<ConfigOverride>): set<string> {
    if overrides == [] then {} else overrides[0].types.Keys + OverrideTypes(overrides[1..])
  }

  function ConfigSections(raw: RawConfig): map<string, seq<Section>> {
    map typ | typ in raw.types.Keys + OverrideTypes(raw.overrides) :: TypeSections(raw, typ)
  }

  // ----- On a device -----

  datatype Resolved = Resolved(name: Option<string>, options: Options)

  predicate Applies(condition: Option<When>, device: Device) {
    condition.None? || Evaluate(condition.value, device)
  }

  /** Each matching override merged over the last, its name too where it gives one. */
  function Overridden(section: Resolved, overrides: seq<RawOverride>, device: Device): Resolved
    decreases |overrides|
  {
    if overrides == [] then section
    else
      var o := overrides[0];
      Overridden(
        if Evaluate(o.condition, device) then Resolved(if o.name.Some? then o.name else section.name, section.options + o.options) else section,
        overrides[1..], device)
  }

  function ResolveSections(sections: seq<Section>, device: Device): seq<Resolved> {
    if sections == [] then []
    else
      (if Applies(sections[0].condition, device)
       then [Overridden(Resolved(sections[0].name, sections[0].options), sections[0].overrides, device)] else [])
      + ResolveSections(sections[1..], device)
  }

  // ----- What it is meant to be -----

  /** The list in force: the last matching override's for the type, or else the config's own. */
  function InForce(own: seq<RawSection>, overrides: seq<ConfigOverride>, typ: string, device: Device): seq<RawSection>
    decreases |overrides|
  {
    if overrides == [] then own
    else
      var o := overrides[0];
      InForce(if typ in o.types && Evaluate(o.condition, device) then o.types[typ] else own, overrides[1..], typ, device)
  }

  /** Each of a list's sections that applies, by its own condition alone. */
  function ResolveRaw(raws: seq<RawSection>, device: Device): seq<Resolved> {
    if raws == [] then []
    else
      (if Applies(raws[0].condition, device)
       then [Overridden(Resolved(raws[0].name, raws[0].options), raws[0].overrides, device)] else [])
      + ResolveRaw(raws[1..], device)
  }

  function Meaning(raw: RawConfig, typ: string, device: Device): seq<Resolved> {
    if Applies(raw.base, device) then ResolveRaw(InForce(Own(raw, typ), raw.overrides, typ, device), device) else []
  }

  // ----- They are the same -----

  lemma {:induction false} ResolveJoined(a: seq<Section>, b: seq<Section>, device: Device)
    ensures ResolveSections(a + b, device) == ResolveSections(a, device) + ResolveSections(b, device)
    decreases |a|
  {
    if a == [] {
      assert a + b == b;
    } else {
      assert (a + b)[1..] == a[1..] + b;
      ResolveJoined(a[1..], b, device);
    }
  }

  lemma {:induction false} SectionApplies(raw: RawSection, extra: seq<When>, device: Device)
    ensures Applies(SectionOf(raw, extra).condition, device) <==> EachHolds(extra, device) && Applies(raw.condition, device)
  {
    JoinedKeepsValue(AllOf, extra + Listed(raw.condition), device);
    EveryJoined(extra, Listed(raw.condition), device);
    if raw.condition.Some? { assert Listed(raw.condition)[0] == raw.condition.value; }
  }

  /** Sections under conditions: as without, or none. */
  lemma {:induction false} SectionsUnder(raws: seq<RawSection>, extra: seq<When>, device: Device)
    ensures ResolveSections(SectionsOf(raws, extra), device) == if EachHolds(extra, device) then ResolveRaw(raws, device) else []
    decreases |raws|
  {
    if raws != [] {
      SectionApplies(raws[0], extra, device);
      SectionsUnder(raws[1..], extra, device);
      assert SectionsOf(raws, extra)[1..] == SectionsOf(raws[1..], extra);
    }
  }

  /** Some override that names the type matches. */
  predicate Replaced(overrides: seq<ConfigOverride>, typ: string, device: Device) {
    exists i :: 0 <= i < |overrides| && typ in overrides[i].types && Evaluate(overrides[i].condition, device)
  }

  lemma {:induction false} ReplacingHolds(overrides: seq<ConfigOverride>, typ: string, device: Device)
    ensures OneHolds(Replacing(overrides, typ), device) <==> Replaced(overrides, typ, device)
    decreases |overrides|
  {
    if overrides != [] {
      var first := if typ in overrides[0].types then [overrides[0].condition] else [];
      ReplacingHolds(overrides[1..], typ, device);
      EveryJoined(first, Replacing(overrides[1..], typ), device);
      ReplacedSplits(overrides, typ, device);
      if first != [] { assert first[0] == overrides[0].condition; }
    }
  }

  lemma {:induction false} ReplacedSplits(overrides: seq<ConfigOverride>, typ: string, device: Device)
    requires overrides != []
    ensures Replaced(overrides, typ, device)
      <==> (typ in overrides[0].types && Evaluate(overrides[0].condition, device)) || Replaced(overrides[1..], typ, device)
  {
    assert forall i :: 0 < i < |overrides| ==> overrides[i] == overrides[1..][i - 1];
    assert forall i :: 0 <= i < |overrides| - 1 ==> overrides[1..][i] == overrides[i + 1];
  }

  lemma {:induction false} UnlessHolds(overrides: seq<ConfigOverride>, typ: string, device: Device)
    ensures EachHolds(Unless(overrides, typ), device) <==> !Replaced(overrides, typ, device)
  {
    ReplacingHolds(overrides, typ, device);
    var later := Replacing(overrides, typ);
    if later != [] {
      JoinedKeepsValue(AnyOf, later, device);
      assert Unless(overrides, typ)[0] == Not(Joined(AnyOf, later));
    }
  }

  /** With an override in force, the config's own list makes no difference. */
  lemma {:induction false} InForceReplaced(a: seq<RawSection>, b: seq<RawSection>, overrides: seq<ConfigOverride>, typ: string, device: Device)
    requires Replaced(overrides, typ, device)
    ensures InForce(a, overrides, typ, device) == InForce(b, overrides, typ, device)
    decreases |overrides|
  {
    ReplacedSplits(overrides, typ, device);
    if !(typ in overrides[0].types && Evaluate(overrides[0].condition, device)) {
      InForceReplaced(a, b, overrides[1..], typ, device);
    }
  }

  lemma {:induction false} InForceOwn(own: seq<RawSection>, overrides: seq<ConfigOverride>, typ: string, device: Device)
    requires !Replaced(overrides, typ, device)
    ensures InForce(own, overrides, typ, device) == own
    decreases |overrides|
  {
    if overrides != [] {
      ReplacedSplits(overrides, typ, device);
      InForceOwn(own, overrides[1..], typ, device);
    }
  }

  lemma {:induction false} ConditionsHold(base: Option<When>, more: seq<When>, device: Device)
    ensures EachHolds(Listed(base) + more, device) <==> Applies(base, device) && EachHolds(more, device)
  {
    EveryJoined(Listed(base), more, device);
    if base.Some? { assert Listed(base)[0] == base.value; }
  }

  /** One override's list: as without its conditions, where it is the last that matches. */
  lemma {:induction false} ReplacementResolves(base: Option<When>, o: ConfigOverride, rest: seq<ConfigOverride>, typ: string, device: Device)
    requires typ in o.types
    ensures ResolveSections(SectionsOf(o.types[typ], Listed(base) + ([o.condition] + Unless(rest, typ))), device)
      == if Applies(base, device) && Evaluate(o.condition, device) && !Replaced(rest, typ, device) then ResolveRaw(o.types[typ], device) else []
  {
    UnlessHolds(rest, typ, device);
    ConditionsHold(base, [o.condition] + Unless(rest, typ), device);
    EveryJoined([o.condition], Unless(rest, typ), device);
    assert [o.condition][0] == o.condition;
    SectionsUnder(o.types[typ], Listed(base) + ([o.condition] + Unless(rest, typ)), device);
  }

  lemma {:induction false} ReplacementsResolve(base: Option<When>, overrides: seq<ConfigOverride>, typ: string, device: Device)
    ensures ResolveSections(Replacements(base, overrides, typ), device)
      == if Applies(base, device) && Replaced(overrides, typ, device) then ResolveRaw(InForce([], overrides, typ, device), device) else []
    decreases |overrides|
  {
    if overrides != [] {
      var o, rest := overrides[0], overrides[1..];
      ReplacementsResolve(base, rest, typ, device);
      ReplacedSplits(overrides, typ, device);
      if typ in o.types {
        ReplacementResolves(base, o, rest, typ, device);
        var here := SectionsOf(o.types[typ], Listed(base) + ([o.condition] + Unless(rest, typ)));
        ResolveJoined(here, Replacements(base, rest, typ), device);
        if Replaced(rest, typ, device) {
          InForceReplaced(o.types[typ], [], rest, typ, device);
        } else {
          InForceOwn(o.types[typ], rest, typ, device);
        }
      } else {
        assert [] + Replacements(base, rest, typ) == Replacements(base, rest, typ);
      }
    }
  }

  /** Pushing down changes no meaning: on every device and for every type the config or an override
      names, what the compiled sections resolve to is the list in force, in its order, and nothing
      where the config's own condition is false. */
  lemma {:induction false} PushdownKeepsMeaning(raw: RawConfig, typ: string, device: Device)
    requires typ in ConfigSections(raw)
    ensures ResolveSections(ConfigSections(raw)[typ], device) == Meaning(raw, typ, device)
  {
    var own, base, overrides := Own(raw, typ), raw.base, raw.overrides;
    var extra := Listed(base) + Unless(overrides, typ);
    UnlessHolds(overrides, typ, device);
    ConditionsHold(base, Unless(overrides, typ), device);
    SectionsUnder(own, extra, device);
    ReplacementsResolve(base, overrides, typ, device);
    ResolveJoined(SectionsOf(own, extra), Replacements(base, overrides, typ), device);
    if Replaced(overrides, typ, device) {
      InForceReplaced(own, [], overrides, typ, device);
    } else {
      InForceOwn(own, overrides, typ, device);
    }
  }

  /** The types left out are those nothing declares. */
  lemma {:induction false} OtherTypesEmpty(raw: RawConfig, typ: string, device: Device)
    requires typ !in ConfigSections(raw)
    ensures Meaning(raw, typ, device) == []
  {
    NotNamed(raw.overrides, typ, device);
    InForceOwn(Own(raw, typ), raw.overrides, typ, device);
  }

  lemma {:induction false} NotNamed(overrides: seq<ConfigOverride>, typ: string, device: Device)
    requires typ !in OverrideTypes(overrides)
    ensures !Replaced(overrides, typ, device)
    decreases |overrides|
  {
    if overrides != [] {
      NotNamed(overrides[1..], typ, device);
      ReplacedSplits(overrides, typ, device);
    }
  }

  /** The conditions a config's sections are given are ones that print and read back. */
  lemma {:induction false} PushdownShaped(raw: RawSection, extra: seq<When>)
    requires AllShaped(extra) && (raw.condition.Some? ==> Shaped(raw.condition.value))
    ensures SectionOf(raw, extra).condition.Some? ==> Shaped(SectionOf(raw, extra).condition.value)
  {
    JoinedShaped(AllOf, extra + Listed(raw.condition));
  }

  lemma {:induction false} UnlessShaped(overrides: seq<ConfigOverride>, typ: string)
    requires forall i :: 0 <= i < |overrides| ==> Shaped(overrides[i].condition)
    ensures AllShaped(Unless(overrides, typ)) && AllShaped(Replacing(overrides, typ))
    decreases |overrides|
  {
    if overrides != [] {
      UnlessShaped(overrides[1..], typ);
      JoinedShaped(AnyOf, Replacing(overrides, typ));
    }
  }

  // ----- What a section's overrides come to -----

  /** An override that applies, and sets the option. */
  predicate Sets(o: RawOverride, option: string, device: Device) {
    Evaluate(o.condition, device) && option in o.options
  }

  /** An option is as the last matching override that sets it says, ... */
  lemma {:induction false} LastOverrideStands(section: Resolved, overrides: seq<RawOverride>, option: string, k: nat, device: Device)
    requires k < |overrides| && Sets(overrides[k], option, device)
    requires forall j :: k < j < |overrides| ==> !Sets(overrides[j], option, device)
    ensures option in Overridden(section, overrides, device).options
    ensures Overridden(section, overrides, device).options[option] == overrides[k].options[option]
    decreases |overrides|
  {
    var o, rest := overrides[0], overrides[1..];
    var first := if Evaluate(o.condition, device) then Resolved(if o.name.Some? then o.name else section.name, section.options + o.options) else section;
    if k == 0 {
      forall j | 0 <= j < |rest| ensures !Sets(rest[j], option, device) { assert rest[j] == overrides[j + 1]; }
      OptionStays(first, rest, option, device);
    } else {
      LastOverrideStands(first, rest, option, k - 1, device);
    }
  }

  /** ... and if none does, as the section has it. */
  lemma {:induction false} OptionStays(section: Resolved, overrides: seq<RawOverride>, option: string, device: Device)
    requires forall j :: 0 <= j < |overrides| ==> !Sets(overrides[j], option, device)
    ensures option in Overridden(section, overrides, device).options <==> option in section.options
    ensures option in section.options ==> Overridden(section, overrides, device).options[option] == section.options[option]
    decreases |overrides|
  {
    if overrides != [] {
      var o, rest := overrides[0], overrides[1..];
      var first := if Evaluate(o.condition, device) then Resolved(if o.name.Some? then o.name else section.name, section.options + o.options) else section;
      assert !Sets(overrides[0], option, device);
      OptionStays(first, rest, option, device);
    }
  }

  /** An override that applies, and gives a name. */
  predicate Names(o: RawOverride, device: Device) {
    Evaluate(o.condition, device) && o.name.Some?
  }

  /** The name is the last matching override's that gives one, else the section's. */
  lemma {:induction false} LastNameStands(section: Resolved, overrides: seq<RawOverride>, k: nat, device: Device)
    requires k <= |overrides| && (k < |overrides| ==> Names(overrides[k], device))
    requires forall j :: 0 <= j < |overrides| && (j > k || k == |overrides|) ==> !Names(overrides[j], device)
    ensures Overridden(section, overrides, device).name == if k < |overrides| then overrides[k].name else section.name
    decreases |overrides|
  {
    if overrides != [] {
      var o, rest := overrides[0], overrides[1..];
      var first := if Evaluate(o.condition, device) then Resolved(if o.name.Some? then o.name else section.name, section.options + o.options) else section;
      forall j | 0 <= j < |rest| && (j + 1 > k || k == |overrides|) ensures !Names(rest[j], device) { assert rest[j] == overrides[j + 1]; }
      LastNameStands(first, rest, if k == 0 || k == |overrides| then |rest| else k - 1, device);
    }
  }
}
