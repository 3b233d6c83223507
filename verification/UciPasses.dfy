/** What the check before a commit lets through: the review's own outcome always, and whatever was
    staged unless a declared section takes a kept one's name. */
module UciPasses {
  import opened Wrappers
  import opened Uci
  import opened UciStaging
  import opened UciRefinement
  import opened UciDevice
  import opened UciVerify

  lemma {:induction false} OwnedJoined(config: string, a: seq<Section>, b: seq<Section>, keep: seq<Keep>)
    ensures Owned(config, a + b, keep) == Owned(config, a, keep) + Owned(config, b, keep)
    decreases |a|
  {
    if a == [] {
      assert a + b == b;
    } else {
      assert (a + b)[1..] == a[1..] + b;
      OwnedJoined(config, a[1..], b, keep);
    }
  }

  lemma {:induction false} NoneOwned(config: string, kept: seq<Section>, keep: seq<Keep>)
    requires AllKept(config, keep, kept)
    ensures Owned(config, kept, keep) == []
    decreases |kept|
  {
    if kept != [] { NoneOwned(config, kept[1..], keep); }
  }

  lemma {:induction false} OwnedAdded(config: string, keep: seq<Keep>, kept: seq<Section>, wants: seq<Section>)
    ensures Owned(config, Added(config, keep, kept, wants), keep) == Owned(config, wants, keep)
    decreases |wants|
  {
    if wants != [] {
      var less, last := wants[..|wants| - 1], [wants[|wants| - 1]];
      assert wants == less + last;
      OwnedJoined(config, less, last, keep);
      OwnedAdded(config, keep, kept, less);
      OwnedJoined(config, Added(config, keep, kept, less), if !IsKept(keep, config, last[0].typ) || !Named(kept, last[0].name) then last else [], keep);
    }
  }

  lemma {:induction false} AddedFrom(config: string, keep: seq<Keep>, kept: seq<Section>, wants: seq<Section>, j: nat)
    requires j < |Added(config, keep, kept, wants)|
    ensures Added(config, keep, kept, wants)[j] in wants
    decreases |wants|
  {
    if j < |Added(config, keep, kept, wants[..|wants| - 1])| { AddedFrom(config, keep, kept, wants[..|wants| - 1], j); }
  }

  lemma {:induction false} AddedThere(config: string, keep: seq<Keep>, kept: seq<Section>, wants: seq<Section>, k: nat)
    requires k < |wants| && !Named(kept, wants[k].name)
    ensures wants[k] in Added(config, keep, kept, wants)
    decreases |wants|
  {
    if k < |wants| - 1 { AddedThere(config, keep, kept, wants[..|wants| - 1], k); }
  }

  /** A declared section is found where it was added. */
  lemma {:induction false} AddedFound(config: string, keep: seq<Keep>, kept: seq<Section>, front: seq<Section>, decls: seq<Decl>, k: nat)
    requires UniqueDecls(decls) && k < |decls| && !Named(kept, Some(decls[k].name))
    requires forall i :: 0 <= i < |front| ==> front[i].name != Some(decls[k].name)
    ensures var all := front + Added(config, keep, kept, AsSections(decls));
      Find(all, decls[k].name) < |all| && all[Find(all, decls[k].name)] == AsSection(decls[k])
  {
    var wants := AsSections(decls);
    var added := Added(config, keep, kept, wants);
    AddedThere(config, keep, kept, wants, k);
    var j :| 0 <= j < |added| && added[j] == wants[k];
    assert (front + added)[|front| + j] == wants[k];
    var at := Find(front + added, decls[k].name);
    assert at >= |front|;
    AddedFrom(config, keep, kept, wants, at - |front|);
    var m :| 0 <= m < |wants| && wants[m] == added[at - |front|];
    assert decls[m].name == decls[k].name;
    assert m == k;
  }

  /** Kept sections that hold what is declared for them, then the rest as declared, pass. */
  lemma {:induction false} AsDeclaredWith(config: string, keep: seq<Keep>, kept: seq<Section>, front: seq<Section>, decls: seq<Decl>)
    requires UniqueDecls(decls) && |front| == |kept| && AllKept(config, keep, front)
    requires forall i :: 0 <= i < |kept| ==> front[i].name == kept[i].name
    requires forall i, k | 0 <= i < |kept| && 0 <= k < |decls| && kept[i].name == Some(decls[k].name) && IsKept(keep, config, decls[k].typ) ::
      Holds(StoredOptions(decls[k].options), front[i].options)
    ensures AsDeclared(config, front + Added(config, keep, kept, AsSections(decls)), AsSections(decls), keep)
  {
    var wants := AsSections(decls);
    var all := front + Added(config, keep, kept, wants);
    NoneOwned(config, front, keep);
    OwnedAdded(config, keep, kept, wants);
    OwnedJoined(config, front, Added(config, keep, kept, wants), keep);
    forall k | 0 <= k < |wants| ensures IsMerged(config, wants[k], all, keep) {
      if Named(kept, wants[k].name) {
        var i := Find(all, decls[k].name);
        var j :| 0 <= j < |kept| && kept[j].name == wants[k].name;
        assert all[j] == front[j];
        assert i <= j;
        assert all[i] == front[i];
      } else {
        AddedFound(config, keep, kept, front, decls, k);
      }
    }
  }

  /** What the review says the device will hold passes the check. */
  lemma {:induction false} ReviewPasses(config: string, current: seq<Section>, decls: seq<Decl>, keep: seq<Keep>)
    requires WellDeclared(decls)
    ensures AsDeclared(config, After(config, current, AsSections(decls), keep), AsSections(decls), keep)
  {
    var kept, wants := KeptSections(config, current, keep), AsSections(decls);
    var front := Overs(config, keep, kept, wants);
    forall i | 0 <= i < |kept|
      ensures front[i].name == kept[i].name && IsKept(keep, config, front[i].typ)
    {
      KeptFrom(config, current, keep, i);
      OverHeads(config, keep, kept[i], wants);
    }
    forall i, k | 0 <= i < |kept| && 0 <= k < |decls| && kept[i].name == Some(decls[k].name) && IsKept(keep, config, decls[k].typ)
      ensures Holds(StoredOptions(decls[k].options), front[i].options)
    {
      OverMet(config, keep, kept[i], decls, k);
    }
    AsDeclaredWith(config, keep, kept, front, decls);
  }

  lemma {:induction false} OverHeads(config: string, keep: seq<Keep>, section: Section, wants: seq<Section>)
    ensures var over := Over(config, keep, section, wants); over.name == section.name && over.typ == section.typ
    decreases |wants|
  {
    if wants != [] { OverHeads(config, keep, section, wants[1..]); }
  }

  lemma {:induction false} DeclaredOverTyp(section: Section, decls: seq<Decl>)
    ensures DeclaredOver(section, decls).typ == section.typ
      || exists k :: 0 <= k < |decls| && section.name == Some(decls[k].name) && DeclaredOver(section, decls).typ == decls[k].typ
    decreases |decls|
  {
    if decls != [] {
      DeclaredOverTyp(section, decls[..|decls| - 1]);
      KeepsName(section, decls[..|decls| - 1]);
    }
  }

  // ----- What is read back can be -----

  lemma {:induction false} OverReadable(config: string, keep: seq<Keep>, kept: seq<Section>, wants: seq<Section>)
    requires Readable(kept) && Readable(wants)
    ensures Readable(Overs(config, keep, kept, wants) + Added(config, keep, kept, wants))
  {
    var front, added := Overs(config, keep, kept, wants), Added(config, keep, kept, wants);
    forall i | 0 <= i < |front| ensures front[i].name == kept[i].name && front[i].typ == kept[i].typ {
      OverHeads(config, keep, kept[i], wants);
    }
    forall j | 0 <= j < |added| ensures added[j] in wants { AddedFrom(config, keep, kept, wants, j); }
    assert forall section :: section in wants ==> PlainType(section.typ) && (section.name.Some? ==> PlainName(section.name.value));
  }

  lemma {:induction false} KeptReadable(config: string, sections: seq<Section>, keep: seq<Keep>)
    requires Readable(sections)
    ensures Readable(KeptSections(config, sections, keep))
    decreases |sections|
  {
    if sections != [] { KeptReadable(config, sections[1..], keep); }
  }

  lemma {:induction false} FreshIsDeclared(kept: seq<Section>, decls: seq<Decl>, j: nat)
    requires j < |Fresh(kept, decls)|
    ensures Fresh(kept, decls)[j] in AsSections(decls)
    decreases |decls|
  {
    var less := decls[..|decls| - 1];
    AsSectionsGrow(decls);
    if j < |Fresh(kept, less)| {
      FreshIsDeclared(kept, less, j);
    } else {
      assert AsSections(decls)[|decls| - 1] == AsSection(decls[|decls| - 1]);
    }
  }

  lemma {:induction false} StagedReadable(kept: seq<Section>, decls: seq<Decl>)
    requires Readable(kept) && Readable(AsSections(decls))
    ensures Readable(StagedForm(kept, decls))
  {
    var front, added := AllDeclaredOver(kept, decls), Fresh(kept, decls);
    forall i | 0 <= i < |front| ensures front[i].name == kept[i].name && PlainType(front[i].typ) {
      KeepsName(kept[i], decls);
      DeclaredOverTyp(kept[i], decls);
      assert forall k :: 0 <= k < |decls| ==> AsSections(decls)[k].typ == decls[k].typ;
    }
    forall j | 0 <= j < |added| ensures added[j] in AsSections(decls) { FreshIsDeclared(kept, decls, j); }
    assert forall section :: section in AsSections(decls) ==> PlainType(section.typ) && (section.name.Some? ==> PlainName(section.name.value));
  }

  /** What is staged passes too, unless a declared section of a wiped type takes a kept one's name. */
  lemma {:induction false} StagedPasses(config: string, kept: seq<Section>, decls: seq<Decl>, keep: seq<Keep>)
    requires WellDeclared(decls) && AllKept(config, keep, kept) && NoClash(config, keep, kept, decls)
    ensures AsDeclared(config, StagedForm(kept, decls), AsSections(decls), keep)
  {
    var front := AllDeclaredOver(kept, decls);
    AddedAgainstFresh(config, keep, kept, decls);
    forall i | 0 <= i < |kept|
      ensures front[i].name == kept[i].name && IsKept(keep, config, front[i].typ)
    {
      KeepsName(kept[i], decls);
      DeclaredOverTyp(kept[i], decls);
    }
    forall i, k | 0 <= i < |kept| && 0 <= k < |decls| && kept[i].name == Some(decls[k].name) && IsKept(keep, config, decls[k].typ)
      ensures Holds(StoredOptions(decls[k].options), front[i].options)
    {
      DeclaredOverMet(kept[i], decls, k);
    }
    AsDeclaredWith(config, keep, kept, front, decls);
  }

  // ----- The whole device -----

  /** Every declared config as the check reads it (declaredConfigs). */
  function AllSections(declared: DeclaredConfigs): Configs {
    map config | config in (set i | 0 <= i < |declared| :: declared[i].0) :: AsSections(DeclsOf(declared, config))
  }

  ghost predicate NoClashes(current: Configs, declared: DeclaredConfigs, keep: seq<Keep>) {
    forall config :: config in current ==> NoClash(config, keep, KeptSections(config, current[config], keep), DeclsOf(declared, config))
  }

  lemma {:induction false} WantsAre(declared: DeclaredConfigs, config: string)
    ensures Wants(AllSections(declared), config) == AsSections(DeclsOf(declared, config))
  {
    if forall i :: 0 <= i < |declared| ==> declared[i].0 != config { NotDeclaredOn(declared, config); }
  }

  lemma {:induction false} DeclsReadable(declared: DeclaredConfigs, config: string)
    requires forall config :: config in AllSections(declared) ==> Declarable(AllSections(declared)[config])
    ensures Declarable(AsSections(DeclsOf(declared, config)))
  {
    WantsAre(declared, config);
  }

  /** A run of apply's operations, then the check: nothing is found, unless names clash. An empty
      problem list before the commit still leaves two ways for the device to differ from its
      review: an option declared empty over a kept one, and a kept section redeclared as another
      kept type. */
  lemma {:induction false} ApplyPassesVerify(keys: seq<string>, current: Configs, declared: DeclaredConfigs, keep: seq<Keep>)
    returns (staged: Configs)
    requires Lists(keys, current) && Applicable(current, declared) && NoClashes(current, declared, keep)
    requires AllReadable(current, AllSections(declared))
    ensures Run(current, StageOps(keys, current, declared, keep)) == Some(staged)
    ensures AllReadable(staged, AllSections(declared)) && Problems(staged, AllSections(declared), keep) == {}
    ensures staged != ConfigsAfter(current, declared, keep) <==> !AgreesThroughout(current, declared, keep)
  {
    staged := ApplyRefinesReview(keys, current, declared, keep);
    StagedAsDeclared(keys, current, declared, keep, staged);
    PassesWhen(current, declared, keep, staged);
  }

  lemma {:induction false} StagedAsDeclared(keys: seq<string>, current: Configs, declared: DeclaredConfigs, keep: seq<Keep>, staged: Configs)
    requires Lists(keys, current) && Applicable(current, declared) && NoClashes(current, declared, keep)
    requires AllReadable(current, AllSections(declared))
    requires Run(current, StageOps(keys, current, declared, keep)) == Some(staged)
    ensures staged.Keys == current.Keys && AllReadable(staged, AllSections(declared))
    ensures forall config :: config in staged ==> AsDeclared(config, staged[config], AsSections(DeclsOf(declared, config)), keep)
  {
    var also := StageRuns(keys, current, declared, keep);
    forall config | config in staged
      ensures AsDeclared(config, staged[config], AsSections(DeclsOf(declared, config)), keep) && Readable(staged[config])
    {
      OneAsDeclared(config, current, declared, keep, staged[config]);
    }
  }

  lemma {:induction false} OneAsDeclared(config: string, current: Configs, declared: DeclaredConfigs, keep: seq<Keep>, staged: seq<Section>)
    requires Applicable(current, declared) && NoClashes(current, declared, keep) && config in current
    requires AllReadable(current, AllSections(declared))
    requires DoAll(current[config], WipeOps(config, current[config], keep) + DeclsOps(config, DeclsOf(declared, config))) == Some(staged)
    ensures AsDeclared(config, staged, AsSections(DeclsOf(declared, config)), keep) && Readable(staged)
  {
    var kept := KeptSections(config, current[config], keep);
    KeptReadable(config, current[config], keep);
    DeclsReadable(declared, config);
    StagedReadable(kept, DeclsOf(declared, config));
    DeclsWell(current, declared, config);
    StagingComesTo(config, current[config], DeclsOf(declared, config), keep);
    forall i | 0 <= i < |kept| ensures IsKept(keep, config, kept[i].typ) { KeptFrom(config, current[config], keep, i); }
    StagedPasses(config, kept, DeclsOf(declared, config), keep);
  }

  lemma {:induction false} OneReviewed(config: string, current: Configs, declared: DeclaredConfigs, keep: seq<Keep>, after: Configs)
    requires Applicable(current, declared) && AllReadable(current, AllSections(declared)) && config in current
    requires after == ConfigsAfter(current, declared, keep) && config in after
    ensures AsDeclared(config, after[config], AsSections(DeclsOf(declared, config)), keep) && Readable(after[config])
  {
    AfterAt(config, current, declared, keep);
    DeclsWell(current, declared, config);
    KeptReadable(config, current[config], keep);
    DeclsReadable(declared, config);
    OverReadable(config, keep, KeptSections(config, current[config], keep), AsSections(DeclsOf(declared, config)));
    ReviewPasses(config, current[config], DeclsOf(declared, config), keep);
  }

  /** The review's own outcome passes, whatever clashes. */
  lemma {:induction false} ReviewPassesVerify(current: Configs, declared: DeclaredConfigs, keep: seq<Keep>)
    requires Applicable(current, declared) && AllReadable(current, AllSections(declared))
    ensures AllReadable(ConfigsAfter(current, declared, keep), AllSections(declared))
    ensures Problems(ConfigsAfter(current, declared, keep), AllSections(declared), keep) == {}
  {
    var after := ConfigsAfter(current, declared, keep);
    AfterKeys(current, declared, keep);
    forall config | config in current
      ensures AsDeclared(config, after[config], AsSections(DeclsOf(declared, config)), keep) && Readable(after[config])
    {
      OneReviewed(config, current, declared, keep, after);
    }
    PassesWhen(current, declared, keep, after);
  }

  /** Whatever section a device keeps and however it is redeclared, with an option left empty that it
      has or as another type: what is staged passes the check, and is not what was reviewed. */
  lemma {:induction false} PassesUnreviewed(config: string, held: Section, decl: Decl) returns (staged: Configs)
    requires held.name == Some(decl.name) && PlainOptions(decl.options)
    requires PlainType(held.typ) && PlainType(decl.typ) && PlainName(decl.name)
    requires decl.typ != held.typ || exists key :: key in EmptyKeys(decl.options) && key in held.options
    ensures var (current, declared: DeclaredConfigs, keep) := (map[config := [held]], [(config, [decl])], [Keep(config, None)]);
      && Applicable(current, declared)
      && Run(current, StageOps([config], current, declared, keep)) == Some(staged)
      && AllReadable(staged, AllSections(declared)) && Problems(staged, AllSections(declared), keep) == {}
      && staged != ConfigsAfter(current, declared, keep)
  {
    var current, declared: DeclaredConfigs, keep := map[config := [held]], [(config, [decl])], [Keep(config, None)];
    assert keep[0].config == config;
    assert KeptSections(config, [held], keep) == [held];
    assert DeclsOf(declared, config) == [decl];
    assert AsSections([decl])[0] == AsSection(decl);
    assert [held][0] == held && [decl][0] == decl;
    if decl.typ == held.typ {
      var key :| key in EmptyKeys(decl.options) && key in held.options;
      assert key in held.options.Keys;
    }
    assert !Agrees(config, keep, held, decl);
    assert !AgreesThroughout(current, declared, keep) by {
      assert !AllAgree(config, keep, [held], [decl]);
    }
    staged := ApplyPassesVerify([config], current, declared, keep);
  }

  /** An address left empty over the one the device keeps. */
  lemma {:induction false} EmptiedPasses() returns (staged: Configs)
    ensures var held := Section("interface", Some("lan"), map["gateway" := One("192.168.1.1")]);
      var decl := Decl("interface", "lan", [("gateway", Single(Text("")))]);
      var (current, declared: DeclaredConfigs, keep) := (map["network" := [held]], [("network", [decl])], [Keep("network", None)]);
      && Run(current, StageOps(["network"], current, declared, keep)) == Some(staged)
      && AllReadable(staged, AllSections(declared)) && Problems(staged, AllSections(declared), keep) == {}
      && staged != ConfigsAfter(current, declared, keep)
  {
    var held := Section("interface", Some("lan"), map["gateway" := One("192.168.1.1")]);
    var decl := Decl("interface", "lan", [("gateway", Single(Text("")))]);
    assert "gateway" in EmptyKeys(decl.options) by { assert IsEmpty(decl.options[0].1); }
    assert "gateway" in held.options;
    staged := PassesUnreviewed("network", held, decl);
  }

  /** And a kept section redeclared as another type: uci changes its type, the review does not. */
  lemma {:induction false} RetypedPasses() returns (staged: Configs)
    ensures var (held, decl) := (Section("domain", Some("nas"), map[]), Decl("host", "nas", []));
      var (current, declared: DeclaredConfigs, keep) := (map["dhcp" := [held]], [("dhcp", [decl])], [Keep("dhcp", None)]);
      && Run(current, StageOps(["dhcp"], current, declared, keep)) == Some(staged)
      && AllReadable(staged, AllSections(declared)) && Problems(staged, AllSections(declared), keep) == {}
      && staged != ConfigsAfter(current, declared, keep)
  {
    var held, decl := Section("domain", Some("nas"), map[]), Decl("host", "nas", []);
    assert decl.typ != held.typ by { assert decl.typ[0] == 'h'; }
    staged := PassesUnreviewed("dhcp", held, decl);
  }

  lemma {:induction false} PassesWhen(current: Configs, declared: DeclaredConfigs, keep: seq<Keep>, held: Configs)
    requires Applicable(current, declared) && held.Keys == current.Keys
    requires forall config :: config in held ==> AsDeclared(config, held[config], AsSections(DeclsOf(declared, config)), keep)
    ensures AllReadable(held, AllSections(declared)) ==> Problems(held, AllSections(declared), keep) == {}
  {
    var all := AllSections(declared);
    if AllReadable(held, all) {
      forall config ensures Wants(all, config) == AsSections(DeclsOf(declared, config)) { WantsAre(declared, config); }
      forall config | config in all && config !in held ensures all[config] == [] { DeclsWell(current, declared, config); }
      VerifyIsExact(held, all, keep);
    }
  }
}
