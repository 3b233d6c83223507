/** What a wipe leaves, told by its keep entries alone (src/engine/uci.ts, isKept and wipeOperations). */
module UciWipe {
  import opened Wrappers
  import opened Uci
  import opened UciStaging
  import opened UciDevice

  /** The sections of one type, in order. */
  function OfType(sections: seq<Section>, typ: string): seq<Section> {
    if sections == [] then []
    else (if sections[0].typ == typ then [sections[0]] else []) + OfType(sections[1..], typ)
  }

  /** The sections that are in one of two lists. */
  function Either(sections: seq<Section>, a: seq<Section>, b: seq<Section>): seq<Section> {
    if sections == [] then []
    else (if sections[0] in a || sections[0] in b then [sections[0]] else []) + Either(sections[1..], a, b)
  }

  predicate NoneFor(keep: seq<Keep>, config: string) {
    forall i :: 0 <= i < |keep| ==> keep[i].config != config
  }

  // ----- One config -----

  lemma {:induction false} KeptOfType(config: string, sections: seq<Section>, typ: string)
    ensures KeptSections(config, sections, [Keep(config, Some(typ))]) == OfType(sections, typ)
    decreases |sections|
  {
    var keep := [Keep(config, Some(typ))];
    if sections != [] {
      KeptOfType(config, sections[1..], typ);
      assert keep[0].typ == Some(typ);
    }
  }

  /** An entry for a type leaves exactly that type's sections, and the deletes run unrefused. */
  lemma {:induction false} WipeUnderType(config: string, sections: seq<Section>, typ: string)
    requires UniqueNames(sections)
    ensures DoAll(sections, WipeOps(config, sections, [Keep(config, Some(typ))])) == Some(OfType(sections, typ))
  {
    WipeLeavesKept(config, sections, [Keep(config, Some(typ))]);
    KeptOfType(config, sections, typ);
  }

  lemma {:induction false} KeptWhole(config: string, sections: seq<Section>)
    ensures KeptSections(config, sections, [Keep(config, None)]) == sections
    decreases |sections|
  {
    var keep := [Keep(config, None)];
    if sections != [] {
      KeptWhole(config, sections[1..]);
      assert keep[0].config == config;
    }
  }

  /** An entry for the whole config leaves it as it is: there is nothing to delete. */
  lemma {:induction false} WipeUnderWhole(config: string, sections: seq<Section>)
    requires UniqueNames(sections)
    ensures DoAll(sections, WipeOps(config, sections, [Keep(config, None)])) == Some(sections)
  {
    WipeLeavesKept(config, sections, [Keep(config, None)]);
    KeptWhole(config, sections);
  }

  lemma {:induction false} NoneKept(config: string, sections: seq<Section>, keep: seq<Keep>)
    requires NoneFor(keep, config)
    ensures KeptSections(config, sections, keep) == []
    decreases |sections|
  {
    if sections != [] { NoneKept(config, sections[1..], keep); }
  }

  /** No entry for the config leaves nothing of it. */
  lemma {:induction false} WipeUnderNone(config: string, sections: seq<Section>, keep: seq<Keep>)
    requires UniqueNames(sections) && NoneFor(keep, config)
    ensures DoAll(sections, WipeOps(config, sections, keep)) == Some([])
  {
    WipeLeavesKept(config, sections, keep);
    NoneKept(config, sections, keep);
  }

  lemma {:induction false} KeptByEither(config: string, typ: string, a: seq<Keep>, b: seq<Keep>)
    ensures IsKept(a + b, config, typ) <==> IsKept(a, config, typ) || IsKept(b, config, typ)
  {
    assert forall i :: 0 <= i < |a| ==> (a + b)[i] == a[i];
    assert forall i :: 0 <= i < |b| ==> (a + b)[|a| + i] == b[i];
  }

  lemma {:induction false} KeptIn(config: string, sections: seq<Section>, keep: seq<Keep>, s: Section)
    requires s in sections
    ensures s in KeptSections(config, sections, keep) <==> IsKept(keep, config, s.typ)
    decreases |sections|
  {
    var rest := KeptSections(config, sections[1..], keep);
    if s in sections[1..] {
      KeptIn(config, sections[1..], keep, s);
    } else {
      assert s == sections[0];
      if s in rest { KeptAreThere(config, sections[1..], keep, s); }
    }
  }

  lemma {:induction false} KeptAreThere(config: string, sections: seq<Section>, keep: seq<Keep>, s: Section)
    requires s in KeptSections(config, sections, keep)
    ensures s in sections
    decreases |sections|
  {
    if s != sections[0] || !IsKept(keep, config, s.typ) { KeptAreThere(config, sections[1..], keep, s); }
  }

  lemma {:induction false} KeptEither(config: string, sections: seq<Section>, all: seq<Section>, a: seq<Keep>, b: seq<Keep>)
    requires forall s :: s in sections ==> s in all
    ensures KeptSections(config, sections, a + b) == Either(sections, KeptSections(config, all, a), KeptSections(config, all, b))
    decreases |sections|
  {
    if sections != [] {
      KeptIn(config, all, a, sections[0]);
      KeptIn(config, all, b, sections[0]);
      KeptByEither(config, sections[0].typ, a, b);
      KeptEither(config, sections[1..], all, a, b);
    }
  }

  /** Entries together leave exactly what either of them leaves alone. */
  lemma {:induction false} WipeUnderBoth(config: string, sections: seq<Section>, a: seq<Keep>, b: seq<Keep>)
    requires UniqueNames(sections)
    ensures var (left, right) := (DoAll(sections, WipeOps(config, sections, a)), DoAll(sections, WipeOps(config, sections, b)));
      && left.Some? && right.Some?
      && DoAll(sections, WipeOps(config, sections, a + b)) == Some(Either(sections, left.value, right.value))
  {
    WipeLeavesKept(config, sections, a);
    WipeLeavesKept(config, sections, b);
    WipeLeavesKept(config, sections, a + b);
    KeptEither(config, sections, sections, a, b);
  }

  // ----- The whole device -----

  /** A type's sections kept alone: the device staged with nothing declared holds them, and of its other
      configs nothing. */
  lemma {:induction false} DeviceWipedButType(keys: seq<string>, current: Configs, config: string, typ: string) returns (staged: Configs)
    requires Lists(keys, current) && forall key :: key in current ==> UniqueNames(current[key])
    ensures Run(current, StageOps(keys, current, [], [Keep(config, Some(typ))])) == Some(staged) && staged.Keys == current.Keys
    ensures forall key :: key in current ==> staged[key] == if key == config then OfType(current[key], typ) else []
  {
    var keep := [Keep(config, Some(typ))];
    staged := StageRuns(keys, current, [], keep);
    forall key | key in current ensures staged[key] == if key == config then OfType(current[key], typ) else [] {
      assert WipeOps(key, current[key], keep) + DeclsOps(key, []) == WipeOps(key, current[key], keep);
      if key == config { WipeUnderType(key, current[key], typ); } else { WipeUnderNone(key, current[key], keep); }
    }
  }

  // ----- What values are set -----

  /** A declared text or number is set as it is, a flag as 1 or 0. */
  lemma {:induction false} ScalarsSet(text: string, digits: Numeral)
    ensures Texts([Text(text), Number(digits), Flag(true), Flag(false)]) == [text, digits, "1", "0"]
  {
    var values := [Text(text), Number(digits), Flag(true), Flag(false)];
    assert |Texts(values)| == 4;
  }
}
