/** What staging comes to against what the review promised (src/applyDiff.ts, configsAfter):
    exactly when they agree. */
module UciRefinement {
  import opened Wrappers
  import opened Uci
  import opened UciStaging

  /** A declared section and a kept one of its name go together: the declared one is of a kept
      type, of the same type, and leaves no option empty that the kept one has. */
  predicate Agrees(config: string, keep: seq<Keep>, kept: Section, decl: Decl) {
    kept.name == Some(decl.name) ==>
      && IsKept(keep, config, decl.typ)
      && decl.typ == kept.typ
      && EmptyKeys(decl.options) !! kept.options.Keys
  }

  predicate AllAgree(config: string, keep: seq<Keep>, kept: seq<Section>, decls: seq<Decl>) {
    forall i, k :: 0 <= i < |kept| && 0 <= k < |decls| ==> Agrees(config, keep, kept[i], decls[k])
  }

  predicate AllKept(config: string, keep: seq<Keep>, kept: seq<Section>) {
    forall i :: 0 <= i < |kept| ==> IsKept(keep, config, kept[i].typ)
  }

  lemma {:induction false} AsSectionsGrow(decls: seq<Decl>)
    requires |decls| > 0
    ensures AsSections(decls)[..|decls| - 1] == AsSections(decls[..|decls| - 1])
    ensures AsSections(decls)[1..] == AsSections(decls[1..])
  {
  }

  lemma {:induction false} NamedAs(kept: seq<Section>, name: string)
    ensures Named(kept, Some(name)) <==> exists i :: 0 <= i < |kept| && kept[i].name == Some(name)
  {
  }

  /** The kept section as the review has it, once its declaration is met. */
  lemma {:induction false} OverMet(config: string, keep: seq<Keep>, section: Section, decls: seq<Decl>, k: nat)
    requires k < |decls| && UniqueDecls(decls)
    requires section.name == Some(decls[k].name) && IsKept(keep, config, decls[k].typ)
    ensures Over(config, keep, section, AsSections(decls)) == section.(options := section.options + StoredOptions(decls[k].options))
    decreases k
  {
    if k > 0 {
      assert decls[0].name != decls[k].name;
      AsSectionsGrow(decls);
      OverMet(config, keep, section, decls[1..], k - 1);
    }
  }

  /** A section no declaration merges into is left as it is. */
  lemma {:induction false} OverNot(config: string, keep: seq<Keep>, section: Section, decls: seq<Decl>)
    requires forall k :: 0 <= k < |decls| ==> section.name != Some(decls[k].name) || !IsKept(keep, config, decls[k].typ)
    ensures Over(config, keep, section, AsSections(decls)) == section
    decreases |decls|
  {
    if decls != [] {
      AsSectionsGrow(decls);
      OverNot(config, keep, section, decls[1..]);
    }
  }

  lemma {:induction false} DeclaredOverMet(section: Section, decls: seq<Decl>, k: nat)
    requires k < |decls| && UniqueDecls(decls) && section.name == Some(decls[k].name)
    ensures DeclaredOver(section, decls) == Redeclared(section, decls[k])
    decreases |decls|
  {
    if k < |decls| - 1 {
      assert decls[k].name != decls[|decls| - 1].name;
      DeclaredOverMet(section, decls[..|decls| - 1], k);
    }
  }

  /** Under one declaration, staged and reviewed, a kept section is the same just when they agree. */
  lemma {:induction false} SameUnderOne(section: Section, decl: Decl)
    requires PlainOptions(decl.options)
    ensures Redeclared(section, decl) == section.(options := section.options + StoredOptions(decl.options))
      <==> decl.typ == section.typ && EmptyKeys(decl.options) !! section.options.Keys
  {
    var stored, empty := StoredOptions(decl.options), EmptyKeys(decl.options);
    StoredKeys(decl.options);
    assert stored.Keys !! empty;
    if empty !! section.options.Keys {
      assert section.options - empty == section.options;
    } else {
      var key :| key in empty && key in section.options;
      assert key !in (section.options - empty) + stored;
      assert key in section.options + stored;
    }
  }

  lemma {:induction false} SameUnder(config: string, keep: seq<Keep>, section: Section, decls: seq<Decl>)
    requires WellDeclared(decls) && IsKept(keep, config, section.typ)
    requires forall k :: 0 <= k < |decls| && section.name == Some(decls[k].name) ==> IsKept(keep, config, decls[k].typ)
    ensures DeclaredOver(section, decls) == Over(config, keep, section, AsSections(decls))
      <==> forall k :: 0 <= k < |decls| ==> Agrees(config, keep, section, decls[k])
  {
    if k :| 0 <= k < |decls| && section.name == Some(decls[k].name) {
      OverMet(config, keep, section, decls, k);
      DeclaredOverMet(section, decls, k);
      SameUnderOne(section, decls[k]);
      forall j | 0 <= j < |decls| && j != k ensures Agrees(config, keep, section, decls[j]) {
        if j < k { assert decls[j].name != decls[k].name; } else { assert decls[k].name != decls[j].name; }
      }
    } else {
      OverNot(config, keep, section, decls);
      NotDeclared(section, decls);
    }
  }

  /** The sections added, staged and reviewed: as many, and then the same, just when no declared
      section of a wiped type has a kept section's name. */
  predicate NoClash(config: string, keep: seq<Keep>, kept: seq<Section>, decls: seq<Decl>) {
    forall k :: 0 <= k < |decls| && Named(kept, Some(decls[k].name)) ==> IsKept(keep, config, decls[k].typ)
  }

  lemma {:induction false} AddedAgainstFresh(config: string, keep: seq<Keep>, kept: seq<Section>, decls: seq<Decl>)
    ensures |Added(config, keep, kept, AsSections(decls))| >= |Fresh(kept, decls)|
    ensures NoClash(config, keep, kept, decls) ==> Added(config, keep, kept, AsSections(decls)) == Fresh(kept, decls)
    ensures !NoClash(config, keep, kept, decls) ==> |Added(config, keep, kept, AsSections(decls))| > |Fresh(kept, decls)|
    decreases |decls|
  {
    if decls != [] {
      var less, last := decls[..|decls| - 1], decls[|decls| - 1];
      AsSectionsGrow(decls);
      assert AsSections(decls)[|decls| - 1] == AsSection(last);
      AddedAgainstFresh(config, keep, kept, less);
      assert forall k :: 0 <= k < |less| ==> less[k] == decls[k];
      assert forall k :: 0 <= k < |decls| ==> decls[k] == last || (k < |less| && decls[k] == less[k]);
    }
  }

  /** Staging refines the review. From whatever sections a config holds, the operations are never
      refused, and leave exactly what configsAfter says if, and only if, each declared section
      agrees with the kept one of its name. */
  lemma {:induction false} StagingRefinesReview(config: string, current: seq<Section>, decls: seq<Decl>, keep: seq<Keep>)
    requires UniqueNames(current) && WellDeclared(decls)
    ensures DoAll(current, WipeOps(config, current, keep) + DeclsOps(config, decls)).Some?
    ensures DoAll(current, WipeOps(config, current, keep) + DeclsOps(config, decls)) == Some(After(config, current, AsSections(decls), keep))
      <==> AllAgree(config, keep, KeptSections(config, current, keep), decls)
  {
    StagingComesTo(config, current, decls, keep);
    var kept := KeptSections(config, current, keep);
    forall i | 0 <= i < |kept| ensures IsKept(keep, config, kept[i].typ) { KeptFrom(config, current, keep, i); }
    FormsAgree(config, keep, kept, decls);
  }

  lemma {:induction false} FormsAgree(config: string, keep: seq<Keep>, kept: seq<Section>, decls: seq<Decl>)
    requires WellDeclared(decls) && AllKept(config, keep, kept)
    ensures StagedForm(kept, decls) == Overs(config, keep, kept, AsSections(decls)) + Added(config, keep, kept, AsSections(decls))
      <==> AllAgree(config, keep, kept, decls)
  {
    var wants := AsSections(decls);
    var staged, after := StagedForm(kept, decls), Overs(config, keep, kept, wants) + Added(config, keep, kept, wants);
    AddedAgainstFresh(config, keep, kept, decls);
    if NoClash(config, keep, kept, decls) {
      forall i | 0 <= i < |kept|
        ensures staged[i] == after[i] <==> forall k :: 0 <= k < |decls| ==> Agrees(config, keep, kept[i], decls[k])
      {
        SameUnder(config, keep, kept[i], decls);
      }
      if forall i :: 0 <= i < |kept| ==> staged[i] == after[i] {
        assert AllDeclaredOver(kept, decls) == Overs(config, keep, kept, wants);
      }
    } else {
      assert |staged| < |after|;
      var k :| 0 <= k < |decls| && Named(kept, Some(decls[k].name)) && !IsKept(keep, config, decls[k].typ);
      NamedAs(kept, decls[k].name);
      var i :| 0 <= i < |kept| && kept[i].name == Some(decls[k].name);
      assert !Agrees(config, keep, kept[i], decls[k]);
    }
  }
}
