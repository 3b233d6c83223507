/** The check before a commit (src/engine/uci.ts, verifyConfigs): exact, and what it cannot see. */
module UciVerify {
  import opened Wrappers
  import opened Uci
  import opened UciStaging
  import opened UciRefinement
  import opened UciDevice

  /** What is wrong, told by name and never by value. */
  datatype Problem =
    | NoConfig(config: string)
    | Sections(config: string, expected: string, found: string)
    | NoSection(config: string, section: string)
    | Missing(config: string, section: string, option: string)
    | Differs(config: string, section: string, option: string)
    | Unexpected(config: string, section: string, option: string)

  function Label(section: Section): string {
    match section.name
    case Some(name) => name
    case None => "(anonymous " + section.typ + ")"
  }

  function Piece(section: Section): string {
    Label(section) + "=" + section.typ
  }

  /** The sections as one text, by which their order is compared. */
  function Order(sections: seq<Section>): string {
    if sections == [] then ""
    else if |sections| == 1 then Piece(sections[0])
    else Piece(sections[0]) + ", " + Order(sections[1..])
  }

  function Owned(config: string, sections: seq<Section>, keep: seq<Keep>): seq<Section> {
    if sections == [] then []
    else (if IsKept(keep, config, sections[0].typ) then [] else [sections[0]]) + Owned(config, sections[1..], keep)
  }

  function OptionProblems(config: string, section: string, expected: Options, actual: Options, exact: bool): set<Problem> {
    (set key | key in expected && key !in actual :: Missing(config, section, key))
    + (set key | key in expected && key in actual && expected[key] != actual[key] :: Differs(config, section, key))
    + (if exact then set key | key in actual && key !in expected :: Unexpected(config, section, key) else {})
  }

  function OwnedProblems(config: string, wants: seq<Section>, has: seq<Section>): set<Problem>
    requires |wants| == |has|
  {
    if wants == [] then {}
    else OptionProblems(config, Label(wants[0]), wants[0].options, has[0].options, true) + OwnedProblems(config, wants[1..], has[1..])
  }

  function MergedProblems(config: string, wants: seq<Section>, has: seq<Section>, keep: seq<Keep>): set<Problem>
    requires forall k :: 0 <= k < |wants| ==> wants[k].name.Some?
  {
    if wants == [] then {}
    else
      (if !IsKept(keep, config, wants[0].typ) then {}
       else
         var i := Find(has, wants[0].name.value);
         if i == |has| then {NoSection(config, Label(wants[0]))}
         else OptionProblems(config, Label(wants[0]), wants[0].options, has[i].options, false))
      + MergedProblems(config, wants[1..], has, keep)
  }

  // ----- One text, one order -----

  /** A section name is letters, digits and _; a type anything without a space. */
  predicate PlainName(name: string) {
    forall i :: 0 <= i < |name| ==> name[i] != '=' && name[i] != ' ' && name[i] != '('
  }

  predicate PlainType(typ: string) {
    forall i :: 0 <= i < |typ| ==> typ[i] != ' '
  }

  predicate Readable(sections: seq<Section>) {
    forall i :: 0 <= i < |sections| ==> PlainType(sections[i].typ) && (sections[i].name.Some? ==> PlainName(sections[i].name.value))
  }

  /** Sections as they are declared: each with a name. */
  predicate Declarable(wants: seq<Section>) {
    Readable(wants) && forall i :: 0 <= i < |wants| ==> wants[i].name.Some?
  }

  /** The first mark in a text splits it one way only. */
  lemma {:induction false} SplitOnce(a: string, x: string, b: string, y: string, mark: char)
    requires a + [mark] + x == b + [mark] + y
    requires mark !in a && mark !in b
    ensures a == b && x == y
  {
    assert (a + [mark] + x)[|a|] == mark && (b + [mark] + y)[|b|] == mark;
    assert forall i :: 0 <= i < |a| ==> (a + [mark] + x)[i] == a[i];
    assert forall i :: 0 <= i < |b| ==> (b + [mark] + y)[i] == b[i];
    assert |a| == |b|;
    assert a == (a + [mark] + x)[..|a|] == (b + [mark] + y)[..|b|] == b;
    assert x == (a + [mark] + x)[|a| + 1..];
    assert y == (b + [mark] + y)[|b| + 1..];
  }

  lemma {:induction false} PieceOnce(a: Section, b: Section)
    requires a.name.Some? && b.name.Some? && PlainName(a.name.value) && PlainName(b.name.value)
    requires Piece(a) == Piece(b)
    ensures a.name == b.name && a.typ == b.typ
  {
    SplitOnce(a.name.value, a.typ, b.name.value, b.typ, '=');
  }

  predicate SameHeads(a: seq<Section>, b: seq<Section>) {
    |a| == |b| && forall i :: 0 <= i < |a| ==> a[i].name == b[i].name && a[i].typ == b[i].typ
  }

  lemma {:induction false} OrderStarts(sections: seq<Section>)
    requires sections != []
    ensures |sections| == 1 ==> Order(sections) == Piece(sections[0])
    ensures |sections| > 1 ==> Order(sections) == (Piece(sections[0]) + ",") + [' '] + Order(sections[1..])
  {
    if |sections| > 1 {
      assert ", " == "," + [' '];
      assert Order(sections) == Piece(sections[0]) + ", " + Order(sections[1..]);
    }
  }

  /** Two lists of sections with one text have one order of names and types; a comma or an equals
      sign in a type does not blur it. */
  lemma {:induction false} OrderOnce(has: seq<Section>, wants: seq<Section>)
    requires Readable(has) && Declarable(wants) && Order(has) == Order(wants)
    ensures SameHeads(has, wants)
    decreases |has|
  {
    if has == [] || wants == [] {
      if has != [] { OrderStarts(has); }
      if wants != [] { OrderStarts(wants); }
      return;
    }
    OrderStarts(has);
    OrderStarts(wants);
    var h, w := Piece(has[0]), Piece(wants[0]);
    assert ' ' !in w;
    assert w[0] == '=' || w[0] == wants[0].name.value[0];
    assert Order(has)[0] == h[0] && Order(wants)[0] == w[0];
    assert ' ' !in h;
    assert |has| > 1 ==> Order(has)[|h| + 1] == ' ';
    assert |wants| > 1 ==> Order(wants)[|w| + 1] == ' ';
    if |has| == 1 || |wants| == 1 {
      PieceOnce(has[0], wants[0]);
    } else {
      SplitOnce(h + ",", Order(has[1..]), w + ",", Order(wants[1..]), ' ');
      assert h == (h + ",")[..|h|] && w == (w + ",")[..|w|];
      PieceOnce(has[0], wants[0]);
      OrderOnce(has[1..], wants[1..]);
    }
  }

  lemma {:induction false} OrderSame(a: seq<Section>, b: seq<Section>)
    requires SameHeads(a, b)
    ensures Order(a) == Order(b)
    decreases |a|
  {
    if |a| > 1 { OrderSame(a[1..], b[1..]); }
  }

  // ----- The check -----

  lemma {:induction false} OwnedPlain(config: string, sections: seq<Section>, keep: seq<Keep>)
    requires Readable(sections)
    ensures Readable(Owned(config, sections, keep))
    ensures Declarable(sections) ==> Declarable(Owned(config, sections, keep))
    decreases |sections|
  {
    if sections != [] { OwnedPlain(config, sections[1..], keep); }
  }

  /** The problems of a config that is there. */
  function ConfigProblems(config: string, has: seq<Section>, wants: seq<Section>, keep: seq<Keep>): set<Problem>
    requires Readable(has) && Declarable(wants)
  {
    var hasOwned, wantsOwned := Owned(config, has, keep), Owned(config, wants, keep);
    (if Order(hasOwned) != Order(wantsOwned) then {Sections(config, Order(wantsOwned), Order(hasOwned))}
     else
       OwnedPlain(config, has, keep); OwnedPlain(config, wants, keep); OrderOnce(hasOwned, wantsOwned);
       OwnedProblems(config, wantsOwned, hasOwned))
    + MergedProblems(config, wants, has, keep)
  }

  predicate AllReadable(actual: Configs, declared: Configs) {
    && (forall config :: config in actual ==> Readable(actual[config]))
    && forall config :: config in declared ==> Declarable(declared[config])
  }

  function Wants(declared: Configs, config: string): seq<Section> {
    if config in declared then declared[config] else []
  }

  function ProblemsOf(config: string, actual: Configs, declared: Configs, keep: seq<Keep>): set<Problem>
    requires AllReadable(actual, declared)
  {
    if config in actual then ConfigProblems(config, actual[config], Wants(declared, config), keep)
    else if Wants(declared, config) != [] then {NoConfig(config)}
    else {}
  }

  function Problems(actual: Configs, declared: Configs, keep: seq<Keep>): set<Problem>
    requires AllReadable(actual, declared)
  {
    set config, problem | config in actual.Keys + declared.Keys && problem in ProblemsOf(config, actual, declared, keep) :: problem
  }

  // ----- What passing it means -----

  predicate Holds(want: Options, has: Options) {
    forall key :: key in want ==> key in has && has[key] == want[key]
  }

  lemma {:induction false} NoOptionProblem(config: string, section: string, expected: Options, actual: Options)
    ensures OptionProblems(config, section, expected, actual, false) == {} <==> Holds(expected, actual)
    ensures OptionProblems(config, section, expected, actual, true) == {} <==> expected == actual
  {
    var loose, tight := OptionProblems(config, section, expected, actual, false), OptionProblems(config, section, expected, actual, true);
    if key :| key in expected && (key !in actual || actual[key] != expected[key]) {
      var problem := if key in actual then Differs(config, section, key) else Missing(config, section, key);
      assert problem in loose && problem in tight;
    } else if key :| key in actual && key !in expected {
      assert Unexpected(config, section, key) in tight;
    } else {
      assert expected == actual;
    }
  }

  lemma {:induction false} NoOwnedProblem(config: string, wants: seq<Section>, has: seq<Section>)
    requires SameHeads(has, wants)
    ensures OwnedProblems(config, wants, has) == {} <==> has == wants
    decreases |wants|
  {
    if wants != [] {
      NoOptionProblem(config, Label(wants[0]), wants[0].options, has[0].options);
      NoOwnedProblem(config, wants[1..], has[1..]);
      SameFirst(wants, has);
    }
  }

  lemma {:induction false} SameFirst(a: seq<Section>, b: seq<Section>)
    requires a != [] && b != [] && a[0].name == b[0].name && a[0].typ == b[0].typ
    ensures a == b <==> a[0].options == b[0].options && a[1..] == b[1..]
  {
    assert a == [a[0]] + a[1..] && b == [b[0]] + b[1..];
  }

  /** A declared section merged into what the device has: found by name, its options there. */
  predicate IsMerged(config: string, want: Section, has: seq<Section>, keep: seq<Keep>)
    requires want.name.Some?
  {
    IsKept(keep, config, want.typ) ==>
      var i := Find(has, want.name.value);
      i < |has| && Holds(want.options, has[i].options)
  }

  lemma {:induction false} NoMergedProblem(config: string, wants: seq<Section>, has: seq<Section>, keep: seq<Keep>)
    requires forall k :: 0 <= k < |wants| ==> wants[k].name.Some?
    ensures MergedProblems(config, wants, has, keep) == {} <==> forall k :: 0 <= k < |wants| ==> IsMerged(config, wants[k], has, keep)
    decreases |wants|
  {
    if wants != [] {
      var i := Find(has, wants[0].name.value);
      if i < |has| { NoOptionProblem(config, Label(wants[0]), wants[0].options, has[i].options); }
      NoMergedProblem(config, wants[1..], has, keep);
      assert forall k :: 1 <= k < |wants| ==> wants[k] == wants[1..][k - 1];
      assert forall k :: 0 <= k < |wants| - 1 ==> wants[1..][k] == wants[k + 1];
    }
  }

  /** A config as declared: what is not kept, exactly and in order; what is kept, holding it. */
  predicate AsDeclared(config: string, has: seq<Section>, wants: seq<Section>, keep: seq<Keep>)
    requires forall k :: 0 <= k < |wants| ==> wants[k].name.Some?
  {
    && Owned(config, has, keep) == Owned(config, wants, keep)
    && forall k :: 0 <= k < |wants| ==> IsMerged(config, wants[k], has, keep)
  }

  lemma {:induction false} NoConfigProblem(config: string, has: seq<Section>, wants: seq<Section>, keep: seq<Keep>)
    requires Readable(has) && Declarable(wants)
    ensures ConfigProblems(config, has, wants, keep) == {} <==> AsDeclared(config, has, wants, keep)
  {
    var hasOwned, wantsOwned := Owned(config, has, keep), Owned(config, wants, keep);
    OwnedPlain(config, has, keep);
    OwnedPlain(config, wants, keep);
    NoMergedProblem(config, wants, has, keep);
    if Order(hasOwned) == Order(wantsOwned) {
      OrderOnce(hasOwned, wantsOwned);
      NoOwnedProblem(config, wantsOwned, hasOwned);
    } else {
      assert Sections(config, Order(wantsOwned), Order(hasOwned)) in ConfigProblems(config, has, wants, keep);
    }
  }

  predicate AllAsDeclared(actual: Configs, declared: Configs, keep: seq<Keep>)
    requires AllReadable(actual, declared)
  {
    && (forall config :: config in actual ==> AsDeclared(config, actual[config], Wants(declared, config), keep))
    && forall config :: config in declared && config !in actual ==> declared[config] == []
  }

  /** No problem is found just when every config is as declared. */
  lemma {:induction false} VerifyIsExact(actual: Configs, declared: Configs, keep: seq<Keep>)
    requires AllReadable(actual, declared)
    ensures Problems(actual, declared, keep) == {} <==> AllAsDeclared(actual, declared, keep)
  {
    forall config
      ensures config in actual ==> (ProblemsOf(config, actual, declared, keep) == {} <==> AsDeclared(config, actual[config], Wants(declared, config), keep))
    {
      if config in actual { NoConfigProblem(config, actual[config], Wants(declared, config), keep); }
    }
    if config :| config in actual.Keys + declared.Keys && ProblemsOf(config, actual, declared, keep) != {} {
      var problem :| problem in ProblemsOf(config, actual, declared, keep);
      assert problem in Problems(actual, declared, keep);
    }
  }
}
