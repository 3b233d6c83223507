/** Staging refines its specification: what the wipe and the declared operations come to, run one
    by one, and exactly when that is what the review said (src/applyDiff.ts, configsAfter). */
module UciStaging {
  import opened Wrappers
  import opened Uci

  predicate UniqueNames(sections: seq<Section>) {
    forall i, j :: 0 <= i < j < |sections| && sections[i].name.Some? ==> sections[i].name != sections[j].name
  }

  predicate UniqueDecls(decls: seq<Decl>) {
    forall i, j :: 0 <= i < j < |decls| ==> decls[i].name != decls[j].name
  }

  /** An object's keys, and no list item uci would refuse. */
  predicate PlainOptions(options: seq<(string, Declared)>) {
    && (forall i, j :: 0 <= i < j < |options| ==> options[i].0 != options[j].0)
    && forall i :: 0 <= i < |options| && options[i].1.List? ==> forall k :: 0 <= k < |options[i].1.values| ==> UciString(options[i].1.values[k]) != ""
  }

  predicate WellDeclared(decls: seq<Decl>) {
    UniqueDecls(decls) && forall i :: 0 <= i < |decls| ==> PlainOptions(decls[i].options)
  }

  lemma {:induction false} DoAllJoined(sections: seq<Section>, a: seq<Op>, b: seq<Op>)
    ensures DoAll(sections, a + b) ==
      match DoAll(sections, a) { case None => None case Some(next) => DoAll(next, b) }
    decreases |a|
  {
    if a == [] {
      assert a + b == b;
    } else {
      assert (a + b)[0] == a[0] && (a + b)[1..] == a[1..] + b;
      if Do(sections, a[0]).Some? { DoAllJoined(Do(sections, a[0]).value, a[1..], b); }
    }
  }

  lemma {:induction false} DoFirst(sections: seq<Section>, op: Op, next: seq<Section>, rest: seq<Op>)
    requires Do(sections, op) == Some(next)
    ensures DoAll(sections, [op] + rest) == DoAll(next, rest)
  {
    assert ([op] + rest)[1..] == rest;
  }

  // ----- The wipe -----

  /** What the named deletes leave. */
  function Survivors(config: string, sections: seq<Section>, keep: seq<Keep>): seq<Section> {
    if sections == [] then []
    else
      (if IsKept(keep, config, sections[0].typ) || sections[0].name.None? then [sections[0]] else [])
      + Survivors(config, sections[1..], keep)
  }

  lemma {:induction false} DeleteThere(op: Op, done: seq<Section>, rest: seq<Section>)
    requires |rest| > 0
    requires match op
      case Delete(_, name) => UniqueNames(done + rest) && rest[0].name == Some(name)
      case DeleteFirst(_, typ) => rest[0].typ == typ && forall i :: 0 <= i < |done| ==> done[i].typ != typ
      case _ => false
    ensures Do(done + rest, op) == Some(done + rest[1..])
  {
    var all := done + rest;
    assert all[|done|] == rest[0];
    assert all[..|done|] + all[|done| + 1..] == done + rest[1..];
    if op.Delete? { assert Find(all, op.name) == |done|; } else { assert FindType(all, op.typ) == |done|; }
  }

  /** The named deletes, `done` of the sections already dealt with. */
  lemma {:induction false} NamedWiped(config: string, done: seq<Section>, rest: seq<Section>, keep: seq<Keep>)
    requires UniqueNames(done + rest)
    ensures DoAll(done + rest, WipeNamed(config, rest, keep)) == Some(done + Survivors(config, rest, keep))
    decreases |rest|
  {
    if rest == [] {
      assert done + rest == done;
    } else if !IsKept(keep, config, rest[0].typ) && rest[0].name.Some? {
      UniqueWithout(done, rest);
      NamedWiped(config, done, rest[1..], keep);
      FirstDeleted(config, done, rest, keep);
    } else {
      FirstLeft(config, done, rest, keep);
      NamedWiped(config, done + [rest[0]], rest[1..], keep);
    }
  }

  lemma {:induction false} FirstDeleted(config: string, done: seq<Section>, rest: seq<Section>, keep: seq<Keep>)
    requires UniqueNames(done + rest) && rest != [] && !IsKept(keep, config, rest[0].typ) && rest[0].name.Some?
    requires DoAll(done + rest[1..], WipeNamed(config, rest[1..], keep)) == Some(done + Survivors(config, rest[1..], keep))
    ensures DoAll(done + rest, WipeNamed(config, rest, keep)) == Some(done + Survivors(config, rest, keep))
  {
    var op, more := Delete(config, rest[0].name.value), WipeNamed(config, rest[1..], keep);
    DeleteThere(op, done, rest);
    DoFirst(done + rest, op, done + rest[1..], more);
    assert WipeNamed(config, rest, keep) == [op] + more;
    assert Survivors(config, rest, keep) == Survivors(config, rest[1..], keep);
  }

  lemma {:induction false} FirstLeft(config: string, done: seq<Section>, rest: seq<Section>, keep: seq<Keep>)
    requires rest != [] && (IsKept(keep, config, rest[0].typ) || rest[0].name.None?)
    ensures done + rest == (done + [rest[0]]) + rest[1..]
    ensures WipeNamed(config, rest, keep) == WipeNamed(config, rest[1..], keep)
    ensures done + Survivors(config, rest, keep) == (done + [rest[0]]) + Survivors(config, rest[1..], keep)
  {
    var more := Survivors(config, rest[1..], keep);
    assert rest == [rest[0]] + rest[1..];
    Shifted(done, rest[0], rest[1..]);
    assert Survivors(config, rest, keep) == [rest[0]] + more;
    Shifted(done, rest[0], more);
  }

  lemma {:induction false} Shifted(a: seq<Section>, x: Section, b: seq<Section>)
    ensures a + ([x] + b) == (a + [x]) + b
  {
  }

  lemma {:induction false} UniqueWithout(done: seq<Section>, rest: seq<Section>)
    requires UniqueNames(done + rest) && |rest| > 0
    ensures UniqueNames(done + rest[1..])
  {
    var a, b := done + rest, done + rest[1..];
    forall i, j | 0 <= i < j < |b| && b[i].name.Some? ensures b[i].name != b[j].name {
      assert b[i] == a[if i < |done| then i else i + 1] && b[j] == a[if j < |done| then j else j + 1];
    }
  }

  /** The anonymous deletes: with the named gone and kept types never of a wiped type, each
      `@type[0]` is the very section it is for. */
  lemma {:induction false} AnonymousWiped(config: string, done: seq<Section>, rest: seq<Section>, keep: seq<Keep>)
    requires forall i :: 0 <= i < |done| ==> IsKept(keep, config, done[i].typ)
    ensures DoAll(done + Survivors(config, rest, keep), WipeAnonymous(config, rest, keep)) == Some(done + KeptSections(config, rest, keep))
    decreases |rest|
  {
    if rest == [] {
      assert done + [] == done;
    } else {
      var more, ops := Survivors(config, rest[1..], keep), WipeAnonymous(config, rest[1..], keep);
      if IsKept(keep, config, rest[0].typ) {
        calc {
          DoAll(done + Survivors(config, rest, keep), WipeAnonymous(config, rest, keep));
          { assert done + Survivors(config, rest, keep) == (done + [rest[0]]) + more; assert WipeAnonymous(config, rest, keep) == ops; }
          DoAll((done + [rest[0]]) + more, ops);
          { AnonymousWiped(config, done + [rest[0]], rest[1..], keep); }
          Some((done + [rest[0]]) + KeptSections(config, rest[1..], keep));
          { assert done + KeptSections(config, rest, keep) == (done + [rest[0]]) + KeptSections(config, rest[1..], keep); }
          Some(done + KeptSections(config, rest, keep));
        }
      } else if rest[0].name.None? {
        var op := DeleteFirst(config, rest[0].typ);
        calc {
          DoAll(done + Survivors(config, rest, keep), WipeAnonymous(config, rest, keep));
          DoAll(done + ([rest[0]] + more), [op] + ops);
          { DeleteThere(op, done, [rest[0]] + more); assert ([rest[0]] + more)[1..] == more;
            DoFirst(done + ([rest[0]] + more), op, done + more, ops); }
          DoAll(done + more, ops);
          { AnonymousWiped(config, done, rest[1..], keep); }
          Some(done + KeptSections(config, rest[1..], keep));
          { assert KeptSections(config, rest, keep) == KeptSections(config, rest[1..], keep); }
          Some(done + KeptSections(config, rest, keep));
        }
      } else {
        calc {
          DoAll(done + Survivors(config, rest, keep), WipeAnonymous(config, rest, keep));
          { assert Survivors(config, rest, keep) == more && WipeAnonymous(config, rest, keep) == ops; }
          DoAll(done + more, ops);
          { AnonymousWiped(config, done, rest[1..], keep); }
          Some(done + KeptSections(config, rest[1..], keep));
          { assert KeptSections(config, rest, keep) == KeptSections(config, rest[1..], keep); }
          Some(done + KeptSections(config, rest, keep));
        }
      }
    }
  }

  /** The wipe leaves exactly the sections of kept types, in order, and never fails. */
  lemma {:induction false} WipeLeavesKept(config: string, sections: seq<Section>, keep: seq<Keep>)
    requires UniqueNames(sections)
    ensures DoAll(sections, WipeOps(config, sections, keep)) == Some(KeptSections(config, sections, keep))
  {
    assert [] + sections == sections;
    assert [] + Survivors(config, sections, keep) == Survivors(config, sections, keep);
    assert [] + KeptSections(config, sections, keep) == KeptSections(config, sections, keep);
    NamedWiped(config, [], sections, keep);
    AnonymousWiped(config, [], sections, keep);
    DoAllJoined(sections, WipeNamed(config, sections, keep), WipeAnonymous(config, sections, keep));
  }

  // ----- One declared section -----

  /** `sections` with the options of the i-th replaced. */
  function WithOptions(sections: seq<Section>, i: nat, options: Options): seq<Section>
    requires i < |sections|
  {
    sections[i := sections[i].(options := options)]
  }

  lemma {:induction false} FindKept(sections: seq<Section>, name: string, options: Options)
    requires Find(sections, name) < |sections|
    ensures var i := Find(sections, name); Find(WithOptions(sections, i, options), name) == i
  {
    var i := Find(sections, name);
    var next := WithOptions(sections, i, options);
    assert forall j :: 0 <= j < i ==> next[j] == sections[j];
    assert next[i].name == Some(name);
  }

  lemma {:induction false} SetTwice(sections: seq<Section>, i: nat, a: Options, b: Options)
    requires i < |sections|
    ensures WithOptions(WithOptions(sections, i, a), i, b) == WithOptions(sections, i, b)
  {
  }

  /** What one option's operations make of a section's options. */
  function SetTo(options: Options, option: string, value: Declared): Options {
    if IsEmpty(value) then options - {option} else options[option := Stored(value)]
  }

  /** Items added one by one to a list that holds `had` of them. */
  lemma {:induction false} ItemsAdded(config: string, sections: seq<Section>, name: string, option: string, had: seq<string>, items: seq<string>)
    requires Find(sections, name) < |sections|
    requires forall k :: 0 <= k < |items| ==> items[k] != ""
    requires var options := sections[Find(sections, name)].options;
      if had == [] then option !in options else option in options && options[option] == Many(had)
    ensures var i := Find(sections, name);
      DoAll(sections, ItemOps(config, name, option, items)) ==
        Some(if had + items == [] then sections else WithOptions(sections, i, sections[i].options[option := Many(had + items)]))
    decreases |items|
  {
    var i := Find(sections, name);
    var options := sections[i].options;
    if items == [] {
      assert had + items == had;
      if had != [] {
        assert options[option := Many(had)] == options;
        assert WithOptions(sections, i, options) == sections;
      }
    } else {
      var op, rest := AddList(config, name, option, items[0]), ItemOps(config, name, option, items[1..]);
      var next := WithOptions(sections, i, options[option := Many(had + [items[0]])]);
      FindKept(sections, name, options[option := Many(had + [items[0]])]);
      assert [] + [items[0]] == [items[0]];
      calc {
        DoAll(sections, ItemOps(config, name, option, items));
        { assert ItemOps(config, name, option, items) == [op] + rest; }
        DoAll(sections, [op] + rest);
        { assert AddItem(options, option, items[0]) == options[option := Many(had + [items[0]])]; DoFirst(sections, op, next, rest); }
        DoAll(next, rest);
        { ItemsAdded(config, next, name, option, had + [items[0]], items[1..]); }
        Some(WithOptions(next, i, next[i].options[option := Many((had + [items[0]]) + items[1..])]));
        { assert (had + [items[0]]) + items[1..] == had + items;
          SetTwice(sections, i, options[option := Many(had + [items[0]])], options[option := Many(had + items)]);
          assert next[i].options[option := Many(had + items)] == options[option := Many(had + items)]; }
        Some(WithOptions(sections, i, options[option := Many(had + items)]));
      }
    }
  }

  lemma {:induction false} OptionSet(config: string, sections: seq<Section>, name: string, option: string, value: Declared)
    requires Find(sections, name) < |sections|
    requires value.List? ==> forall k :: 0 <= k < |value.values| ==> UciString(value.values[k]) != ""
    ensures var i := Find(sections, name);
      DoAll(sections, OptionOps(config, name, option, value)) == Some(WithOptions(sections, i, SetTo(sections[i].options, option, value)))
  {
    var i := Find(sections, name);
    var options := sections[i].options;
    match value
    case Single(v) =>
      var op := SetOption(config, name, option, UciString(v));
      DoFirst(sections, op, WithOptions(sections, i, SetTo(options, option, value)), []);
      assert [op] + [] == [op];
    case List(values) =>
      var op := SetOption(config, name, option, "");
      var cleared := WithOptions(sections, i, options - {option});
      FindKept(sections, name, options - {option});
      calc {
        DoAll(sections, OptionOps(config, name, option, value));
        { DoFirst(sections, op, cleared, ItemOps(config, name, option, Texts(values))); }
        DoAll(cleared, ItemOps(config, name, option, Texts(values)));
        { ItemsAdded(config, cleared, name, option, [], Texts(values)); assert [] + Texts(values) == Texts(values); }
        Some(if Texts(values) == [] then cleared else WithOptions(cleared, i, cleared[i].options[option := Many(Texts(values))]));
        { SetTwice(sections, i, options - {option}, options[option := Many(Texts(values))]);
          assert (options - {option})[option := Many(Texts(values))] == options[option := Many(Texts(values))]; }
        Some(WithOptions(sections, i, SetTo(options, option, value)));
      }
  }

  /** What a section's options come to: the empty ones gone, the stored ones set. */
  function MergedOptions(options: Options, written: seq<(string, Declared)>): Options {
    (options - EmptyKeys(written)) + StoredOptions(written)
  }

  lemma {:induction false} StoredKeys(written: seq<(string, Declared)>)
    ensures StoredOptions(written).Keys == set i | 0 <= i < |written| && !IsEmpty(written[i].1) :: written[i].0
  {
    if written != [] {
      var less := written[..|written| - 1];
      StoredKeys(less);
      var keys := set i | 0 <= i < |written| && !IsEmpty(written[i].1) :: written[i].0;
      forall key ensures key in StoredOptions(written).Keys <==> key in keys {
        if key in StoredOptions(less) {
          var i :| 0 <= i < |less| && !IsEmpty(less[i].1) && less[i].0 == key;
          assert written[i] == less[i];
        }
        if key in keys {
          var i :| 0 <= i < |written| && !IsEmpty(written[i].1) && written[i].0 == key;
          if i < |less| { assert less[i] == written[i]; }
        }
      }
    }
  }

  lemma {:induction false} EmptyKeysGrow(written: seq<(string, Declared)>)
    requires |written| > 0
    ensures var last := written[|written| - 1];
      EmptyKeys(written) == EmptyKeys(written[..|written| - 1]) + (if IsEmpty(last.1) then {last.0} else {})
  {
    var less, last := written[..|written| - 1], written[|written| - 1];
    forall key ensures key in EmptyKeys(written) <==> key in EmptyKeys(less) + (if IsEmpty(last.1) then {last.0} else {}) {
      if key in EmptyKeys(less) {
        var i :| 0 <= i < |less| && IsEmpty(less[i].1) && less[i].0 == key;
        assert written[i] == less[i];
      }
      if key in EmptyKeys(written) {
        var i :| 0 <= i < |written| && IsEmpty(written[i].1) && written[i].0 == key;
        if i < |less| { assert less[i] == written[i]; }
      }
    }
  }

  lemma {:induction false} MergedGrows(options: Options, written: seq<(string, Declared)>)
    requires |written| > 0 && PlainOptions(written)
    ensures var last := written[|written| - 1];
      SetTo(MergedOptions(options, written[..|written| - 1]), last.0, last.1) == MergedOptions(options, written)
  {
    var less, last := written[..|written| - 1], written[|written| - 1];
    EmptyKeysGrow(written);
    StoredKeys(less);
    assert last.0 !in StoredOptions(less);
    var before, after := MergedOptions(options, less), MergedOptions(options, written);
    if IsEmpty(last.1) {
      assert before - {last.0} == after;
    } else {
      assert before[last.0 := Stored(last.1)] == after;
    }
  }

  lemma {:induction false} OptionsSet(config: string, sections: seq<Section>, name: string, written: seq<(string, Declared)>)
    requires Find(sections, name) < |sections| && PlainOptions(written)
    ensures var i := Find(sections, name);
      DoAll(sections, OptionsOps(config, name, written)) == Some(WithOptions(sections, i, MergedOptions(sections[i].options, written)))
    decreases |written|
  {
    var i := Find(sections, name);
    var options := sections[i].options;
    if written == [] {
      assert MergedOptions(options, written) == options;
      assert WithOptions(sections, i, options) == sections;
    } else {
      var less, last := written[..|written| - 1], written[|written| - 1];
      var next := WithOptions(sections, i, MergedOptions(options, less));
      FindKept(sections, name, MergedOptions(options, less));
      calc {
        DoAll(sections, OptionsOps(config, name, written));
        { OptionsSet(config, sections, name, less);
          DoAllJoined(sections, OptionsOps(config, name, less), OptionOps(config, name, last.0, last.1)); }
        DoAll(next, OptionOps(config, name, last.0, last.1));
        { OptionSet(config, next, name, last.0, last.1); }
        Some(WithOptions(next, i, SetTo(MergedOptions(options, less), last.0, last.1)));
        { MergedGrows(options, written); SetTwice(sections, i, MergedOptions(options, less), MergedOptions(options, written)); }
        Some(WithOptions(sections, i, MergedOptions(options, written)));
      }
    }
  }

  /** The section a declaration makes of one that is there. */
  function Redeclared(section: Section, decl: Decl): Section {
    Section(decl.typ, section.name, MergedOptions(section.options, decl.options))
  }

  function Declare(sections: seq<Section>, decl: Decl): seq<Section> {
    var i := Find(sections, decl.name);
    if i == |sections| then sections + [AsSection(decl)] else sections[i := Redeclared(sections[i], decl)]
  }

  lemma {:induction false} SectionDeclared(config: string, sections: seq<Section>, decl: Decl)
    requires PlainOptions(decl.options)
    ensures DoAll(sections, DeclOps(config, decl)) == Some(Declare(sections, decl))
  {
    var i := Find(sections, decl.name);
    var op, ops := SetSection(config, decl.name, decl.typ), OptionsOps(config, decl.name, decl.options);
    var next := if i == |sections| then sections + [Section(decl.typ, Some(decl.name), map[])] else sections[i := sections[i].(typ := decl.typ)];
    DoFirst(sections, op, next, ops);
    assert forall j :: 0 <= j < i ==> next[j] == sections[j];
    assert next[i].name == Some(decl.name);
    assert Find(next, decl.name) == i;
    OptionsSet(config, next, decl.name, decl.options);
    assert MergedOptions(map[], decl.options) == StoredOptions(decl.options);
    assert WithOptions(next, i, MergedOptions(next[i].options, decl.options)) == Declare(sections, decl);
  }

  // ----- All of one config -----

  /** A section under the declaration of its name, if there is one. */
  function DeclaredOver(section: Section, decls: seq<Decl>): Section {
    if decls == [] then section
    else
      var last := decls[|decls| - 1];
      if section.name == Some(last.name) then Redeclared(section, last) else DeclaredOver(section, decls[..|decls| - 1])
  }

  function AllDeclaredOver(kept: seq<Section>, decls: seq<Decl>): seq<Section> {
    seq(|kept|, i requires 0 <= i < |kept| => DeclaredOver(kept[i], decls))
  }

  /** The declared sections none of `kept` is named as. */
  function Fresh(kept: seq<Section>, decls: seq<Decl>): seq<Section> {
    if decls == [] then []
    else
      var last := decls[|decls| - 1];
      Fresh(kept, decls[..|decls| - 1]) + (if Named(kept, Some(last.name)) then [] else [AsSection(last)])
  }

  /** What staging comes to: each kept section under its declaration, then the fresh ones. */
  function StagedForm(kept: seq<Section>, decls: seq<Decl>): seq<Section> {
    AllDeclaredOver(kept, decls) + Fresh(kept, decls)
  }

  lemma {:induction false} FreshFrom(kept: seq<Section>, decls: seq<Decl>, j: nat)
    requires j < |Fresh(kept, decls)|
    ensures exists k :: 0 <= k < |decls| && Fresh(kept, decls)[j].name == Some(decls[k].name)
    decreases |decls|
  {
    var less := decls[..|decls| - 1];
    if j < |Fresh(kept, less)| {
      FreshFrom(kept, less, j);
      var k :| 0 <= k < |less| && Fresh(kept, less)[j].name == Some(less[k].name);
      assert less[k] == decls[k];
    } else {
      assert Fresh(kept, decls)[j].name == Some(decls[|decls| - 1].name);
    }
  }

  lemma {:induction false} NotDeclared(section: Section, decls: seq<Decl>)
    requires forall k :: 0 <= k < |decls| ==> section.name != Some(decls[k].name)
    ensures DeclaredOver(section, decls) == section
    decreases |decls|
  {
    if decls != [] { NotDeclared(section, decls[..|decls| - 1]); }
  }

  lemma {:induction false} KeepsName(section: Section, decls: seq<Decl>)
    ensures DeclaredOver(section, decls).name == section.name
    decreases |decls|
  {
    if decls != [] { KeepsName(section, decls[..|decls| - 1]); }
  }

  /** One more declaration, of a section that is kept ... */
  lemma {:induction false} KeptDeclared(kept: seq<Section>, decls: seq<Decl>, i: nat)
    requires |decls| > 0 && UniqueDecls(decls) && UniqueNames(kept)
    requires i < |kept| && kept[i].name == Some(decls[|decls| - 1].name)
    ensures Declare(StagedForm(kept, decls[..|decls| - 1]), decls[|decls| - 1]) == StagedForm(kept, decls)
  {
    var less, last := decls[..|decls| - 1], decls[|decls| - 1];
    var before, after := StagedForm(kept, less), StagedForm(kept, decls);
    forall j | 0 <= j < |kept| ensures before[j].name == kept[j].name { KeepsName(kept[j], less); }
    var at := Find(before, last.name);
    assert before[i].name == Some(last.name);
    assert at == i;
    NotDeclared(kept[i], less);
    assert Named(kept, Some(last.name));
    assert Fresh(kept, decls) == Fresh(kept, less);
    assert before[i := Redeclared(before[i], last)] == after;
  }

  /** ... and of one that is not. */
  lemma {:induction false} FreshDeclared(kept: seq<Section>, decls: seq<Decl>)
    requires |decls| > 0 && UniqueDecls(decls)
    requires forall i :: 0 <= i < |kept| ==> kept[i].name != Some(decls[|decls| - 1].name)
    ensures Declare(StagedForm(kept, decls[..|decls| - 1]), decls[|decls| - 1]) == StagedForm(kept, decls)
  {
    var less, last := decls[..|decls| - 1], decls[|decls| - 1];
    var before := StagedForm(kept, less);
    forall j | 0 <= j < |before| ensures before[j].name != Some(last.name) {
      if j < |kept| {
        KeepsName(kept[j], less);
      } else {
        FreshFrom(kept, less, j - |kept|);
      }
    }
    assert Find(before, last.name) == |before|;
    assert AllDeclaredOver(kept, decls) == AllDeclaredOver(kept, less);
    assert StagedForm(kept, decls) == before + [AsSection(last)];
  }

  lemma {:induction false} DeclsStaged(config: string, kept: seq<Section>, decls: seq<Decl>)
    requires UniqueNames(kept) && WellDeclared(decls)
    ensures DoAll(kept, DeclsOps(config, decls)) == Some(StagedForm(kept, decls))
    decreases |decls|
  {
    if decls == [] {
      assert AllDeclaredOver(kept, []) == kept;
      assert StagedForm(kept, []) == kept;
    } else {
      var less, last := decls[..|decls| - 1], decls[|decls| - 1];
      calc {
        DoAll(kept, DeclsOps(config, decls));
        { DeclsStaged(config, kept, less); DoAllJoined(kept, DeclsOps(config, less), DeclOps(config, last)); }
        DoAll(StagedForm(kept, less), DeclOps(config, last));
        { SectionDeclared(config, StagedForm(kept, less), last); }
        Some(Declare(StagedForm(kept, less), last));
        { if i :| 0 <= i < |kept| && kept[i].name == Some(last.name) { KeptDeclared(kept, decls, i); } else { FreshDeclared(kept, decls); } }
        Some(StagedForm(kept, decls));
      }
    }
  }

  lemma {:induction false} KeptFrom(config: string, sections: seq<Section>, keep: seq<Keep>, i: nat)
    requires i < |KeptSections(config, sections, keep)|
    ensures KeptSections(config, sections, keep)[i] in sections
    ensures IsKept(keep, config, KeptSections(config, sections, keep)[i].typ)
    decreases |sections|
  {
    var first := if IsKept(keep, config, sections[0].typ) then 1 else 0;
    if i >= first { KeptFrom(config, sections[1..], keep, i - first); }
  }

  lemma {:induction false} KeptUnique(config: string, sections: seq<Section>, keep: seq<Keep>)
    requires UniqueNames(sections)
    ensures UniqueNames(KeptSections(config, sections, keep))
    decreases |sections|
  {
    if sections != [] {
      var rest := sections[1..];
      assert UniqueNames(rest);
      KeptUnique(config, rest, keep);
      var kept := KeptSections(config, rest, keep);
      forall i | 0 <= i < |kept| ensures sections[0].name.Some? ==> sections[0].name != kept[i].name {
        KeptFrom(config, rest, keep, i);
        var k :| 0 <= k < |rest| && rest[k] == kept[i];
        assert sections[k + 1] == kept[i];
      }
    }
  }

  /** Staging one config, from whatever it holds: never refused, and this is what it comes to. */
  lemma {:induction false} StagingComesTo(config: string, current: seq<Section>, decls: seq<Decl>, keep: seq<Keep>)
    requires UniqueNames(current) && WellDeclared(decls)
    ensures DoAll(current, WipeOps(config, current, keep) + DeclsOps(config, decls)) ==
      Some(StagedForm(KeptSections(config, current, keep), decls))
  {
    WipeLeavesKept(config, current, keep);
    KeptUnique(config, current, keep);
    DoAllJoined(current, WipeOps(config, current, keep), DeclsOps(config, decls));
    DeclsStaged(config, KeptSections(config, current, keep), decls);
  }
}
