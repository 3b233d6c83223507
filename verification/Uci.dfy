/** A device's uci config as data (src/engine/uci.ts), what `uci` does to it one operation at a
    time, and the operations an apply stages (src/engine/uci.ts, wipeOperations;
    src/engine/getUciCommands.ts, uciOperations). */
module Uci {

  import opened Wrappers

  datatype Value = One(text: string) | Many(items: seq<string>)

  type Options = map<string, Value>

  /** Unnamed: an anonymous section. */
  datatype Section = Section(typ: string, name: Option<string>, options: Options)

  type Configs = map<string, seq<Section>>

  /** A config the wipe leaves, whole or only its sections of one type. */
  datatype Keep = Keep(config: string, typ: Option<string>)

  predicate IsKept(keep: seq<Keep>, config: string, typ: string) {
    exists i :: 0 <= i < |keep| && keep[i].config == config && (keep[i].typ.None? || keep[i].typ.value == typ)
  }

  // ----- What is declared (src/engine/openWrtState.ts) -----

  /** A number as it prints, never as nothing. */
  type Numeral = s: string | |s| > 0 witness "0"

  datatype Scalar = Text(text: string) | Number(digits: Numeral) | Flag(on: bool)

  datatype Declared = Single(value: Scalar) | List(values: seq<Scalar>)

  /** A declared section: its options in the order they are written. */
  datatype Decl = Decl(typ: string, name: string, options: seq<(string, Declared)>)

  /** How a declared value reads back from uci. */
  function UciString(value: Scalar): string {
    match value
    case Text(text) => text
    case Number(digits) => digits
    case Flag(on) => if on then "1" else "0"
  }

  function Texts(values: seq<Scalar>): seq<string> {
    seq(|values|, i requires 0 <= i < |values| => UciString(values[i]))
  }

  /** Values uci does not store: an empty text, an empty list. */
  predicate IsEmpty(value: Declared) {
    match value
    case Single(v) => v == Text("")
    case List(values) => values == []
  }

  function Stored(value: Declared): Value {
    match value
    case Single(v) => One(UciString(v))
    case List(values) => Many(Texts(values))
  }

  /** The options of a declared section as uci stores them (declaredConfigs). */
  function StoredOptions(options: seq<(string, Declared)>): Options {
    if options == [] then map[]
    else
      var rest, last := StoredOptions(options[..|options| - 1]), options[|options| - 1];
      if IsEmpty(last.1) then rest else rest[last.0 := Stored(last.1)]
  }

  function EmptyKeys(options: seq<(string, Declared)>): set<string> {
    set i | 0 <= i < |options| && IsEmpty(options[i].1) :: options[i].0
  }

  function AsSection(decl: Decl): Section {
    Section(decl.typ, Some(decl.name), StoredOptions(decl.options))
  }

  function AsSections(decls: seq<Decl>): seq<Section> {
    seq(|decls|, i requires 0 <= i < |decls| => AsSection(decls[i]))
  }

  // ----- What uci does -----

  datatype Op =
    | Delete(config: string, name: string)
    | DeleteFirst(config: string, typ: string)
    | SetSection(config: string, name: string, typ: string)
    | SetOption(config: string, name: string, option: string, value: string)
    | AddList(config: string, name: string, option: string, value: string)

  /** The place of the first section named `name`; its length when there is none. */
  function Find(sections: seq<Section>, name: string): (i: nat)
    ensures i <= |sections|
    ensures i < |sections| ==> sections[i].name == Some(name)
    ensures forall j :: 0 <= j < i ==> sections[j].name != Some(name)
  {
    if sections == [] then 0
    else if sections[0].name == Some(name) then 0
    else 1 + Find(sections[1..], name)
  }

  function FindType(sections: seq<Section>, typ: string): (i: nat)
    ensures i <= |sections|
    ensures i < |sections| ==> sections[i].typ == typ
    ensures forall j :: 0 <= j < i ==> sections[j].typ != typ
  {
    if sections == [] then 0
    else if sections[0].typ == typ then 0
    else 1 + FindType(sections[1..], typ)
  }

  function AddItem(options: Options, option: string, item: string): Options {
    if option !in options then options[option := Many([item])]
    else match options[option]
      case One(text) => options[option := Many([text, item])]
      case Many(items) => options[option := Many(items + [item])]
  }

  /** One operation on one config's sections; None when uci refuses it. */
  function Do(sections: seq<Section>, op: Op): Option<seq<Section>> {
    match op
    case Delete(_, name) =>
      var i := Find(sections, name);
      if i == |sections| then None else Some(sections[..i] + sections[i + 1..])
    case DeleteFirst(_, typ) =>
      var i := FindType(sections, typ);
      if i == |sections| then None else Some(sections[..i] + sections[i + 1..])
    case SetSection(_, name, typ) =>
      var i := Find(sections, name);
      if i == |sections| then Some(sections + [Section(typ, Some(name), map[])])
      else Some(sections[i := sections[i].(typ := typ)])
    case SetOption(_, name, option, value) =>
      var i := Find(sections, name);
      if i == |sections| then None
      else Some(sections[i := sections[i].(options := if value == "" then sections[i].options - {option} else sections[i].options[option := One(value)])])
    case AddList(_, name, option, value) =>
      var i := Find(sections, name);
      if i == |sections| || value == "" then None
      else Some(sections[i := sections[i].(options := AddItem(sections[i].options, option, value))])
  }

  function DoAll(sections: seq<Section>, ops: seq<Op>): Option<seq<Section>>
    decreases ops
  {
    if ops == [] then Some(sections)
    else match Do(sections, ops[0])
      case None => None
      case Some(next) => DoAll(next, ops[1..])
  }

  // ----- What an apply stages -----

  /** The deletes of one config: the named ones, then `@type[0]` once for each anonymous one. */
  function WipeNamed(config: string, sections: seq<Section>, keep: seq<Keep>): seq<Op> {
    if sections == [] then []
    else
      (if !IsKept(keep, config, sections[0].typ) && sections[0].name.Some? then [Delete(config, sections[0].name.value)] else [])
      + WipeNamed(config, sections[1..], keep)
  }

  function WipeAnonymous(config: string, sections: seq<Section>, keep: seq<Keep>): seq<Op> {
    if sections == [] then []
    else
      (if !IsKept(keep, config, sections[0].typ) && sections[0].name.None? then [DeleteFirst(config, sections[0].typ)] else [])
      + WipeAnonymous(config, sections[1..], keep)
  }

  function WipeOps(config: string, sections: seq<Section>, keep: seq<Keep>): seq<Op> {
    WipeNamed(config, sections, keep) + WipeAnonymous(config, sections, keep)
  }

  function ItemOps(config: string, name: string, option: string, items: seq<string>): seq<Op> {
    seq(|items|, i requires 0 <= i < |items| => AddList(config, name, option, items[i]))
  }

  /** A list is cleared first: a section of a kept type is not wiped. */
  function OptionOps(config: string, name: string, option: string, value: Declared): seq<Op> {
    match value
    case Single(v) => [SetOption(config, name, option, UciString(v))]
    case List(values) => [SetOption(config, name, option, "")] + ItemOps(config, name, option, Texts(values))
  }

  function OptionsOps(config: string, name: string, options: seq<(string, Declared)>): seq<Op> {
    if options == [] then []
    else OptionsOps(config, name, options[..|options| - 1]) + OptionOps(config, name, options[|options| - 1].0, options[|options| - 1].1)
  }

  function DeclOps(config: string, decl: Decl): seq<Op> {
    [SetSection(config, decl.name, decl.typ)] + OptionsOps(config, decl.name, decl.options)
  }

  function DeclsOps(config: string, decls: seq<Decl>): seq<Op> {
    if decls == [] then []
    else DeclsOps(config, decls[..|decls| - 1]) + DeclOps(config, decls[|decls| - 1])
  }

  // ----- What the device should hold after (src/applyDiff.ts, configsAfter) -----

  function KeptSections(config: string, sections: seq<Section>, keep: seq<Keep>): seq<Section> {
    if sections == [] then []
    else
      (if IsKept(keep, config, sections[0].typ) then [sections[0]] else []) + KeptSections(config, sections[1..], keep)
  }

  /** The declared section merged into a kept one: of a kept type, of its name. */
  predicate Merges(config: string, keep: seq<Keep>, want: Section, section: Section) {
    IsKept(keep, config, want.typ) && section.name.Some? && want.name == section.name
  }

  function Over(config: string, keep: seq<Keep>, section: Section, wants: seq<Section>): Section {
    if wants == [] then section
    else if Merges(config, keep, wants[0], section) then section.(options := section.options + wants[0].options)
    else Over(config, keep, section, wants[1..])
  }

  function Overs(config: string, keep: seq<Keep>, kept: seq<Section>, wants: seq<Section>): seq<Section> {
    seq(|kept|, i requires 0 <= i < |kept| => Over(config, keep, kept[i], wants))
  }

  predicate Named(sections: seq<Section>, name: Option<string>) {
    exists i :: 0 <= i < |sections| && sections[i].name.Some? && sections[i].name == name
  }

  function Added(config: string, keep: seq<Keep>, kept: seq<Section>, wants: seq<Section>): seq<Section> {
    if wants == [] then []
    else
      var last := wants[|wants| - 1];
      Added(config, keep, kept, wants[..|wants| - 1])
      + (if !IsKept(keep, config, last.typ) || !Named(kept, last.name) then [last] else [])
  }

  function After(config: string, current: seq<Section>, wants: seq<Section>, keep: seq<Keep>): seq<Section> {
    var kept := KeptSections(config, current, keep);
    Overs(config, keep, kept, wants) + Added(config, keep, kept, wants)
  }
}
