/** Which sections are taken for renamed (src/applyDiff.ts, likeness and renames), in terms of the
    configs themselves. */
module RenameLaws {
  import opened Wrappers
  import opened Text
  import opened Uci
  import opened Renames

  /** A config's section, and the key it has. */
  ghost predicate IsSectionOf(configs: Listing, key: string, config: string, section: Section) {
    exists c, i :: 0 <= c < |configs| && 0 <= i < |configs[c].1| && IsAt(configs, c, i, key, config, section)
  }

  predicate IsAt(configs: Listing, c: nat, i: nat, key: string, config: string, section: Section)
    requires c < |configs| && i < |configs[c].1|
  {
    configs[c].0 == config && configs[c].1[i] == section && key == config + "." + NameOf(configs[c].1, i)
  }

  lemma {:induction false} KeyedIsAt(configs: Listing, k: nat) returns (c: nat, i: nat)
    requires k < |AllKeyed(configs)|
    ensures c < |configs| && i < |configs[c].1|
    ensures var item := AllKeyed(configs)[k]; IsAt(configs, c, i, item.key, item.config, item.section)
    decreases |configs|
  {
    var first := KeyedOf(configs[0].0, configs[0].1);
    if k < |first| {
      c, i := 0, k;
    } else {
      var rest, place := KeyedIsAt(configs[1..], k - |first|);
      c, i := rest + 1, place;
    }
  }

  lemma {:induction false} AtIsKeyed(configs: Listing, c: nat, i: nat) returns (k: nat)
    requires c < |configs| && i < |configs[c].1|
    ensures k < |AllKeyed(configs)|
    ensures AllKeyed(configs)[k] == Keyed(configs[c].0 + "." + NameOf(configs[c].1, i), configs[c].0, configs[c].1[i])
    decreases c
  {
    if c == 0 {
      k := i;
    } else {
      var rest := AtIsKeyed(configs[1..], c - 1, i);
      k := |KeyedOf(configs[0].0, configs[0].1)| + rest;
    }
  }

  lemma {:induction false} FoundAt(items: seq<Keyed>, k: nat)
    requires KeysApart(items) && k < |items|
    ensures HasKey(items, items[k].key) && SectionAt(items, items[k].key) == items[k]
    decreases k
  {
    if k > 0 {
      assert KeysApart(items[1..]);
      FoundAt(items[1..], k - 1);
    }
  }

  /** A key is a section's just when a config has it, and then the section found is that one. */
  lemma {:induction false} KeyFinds(configs: Listing, key: string, config: string, section: Section)
    requires WellListed(configs)
    ensures IsSectionOf(configs, key, config, section)
      <==> HasKey(AllKeyed(configs), key) && SectionAt(AllKeyed(configs), key) == Keyed(key, config, section)
  {
    var items := AllKeyed(configs);
    SectionKeysApart(configs);
    if IsSectionOf(configs, key, config, section) {
      var c, i :| 0 <= c < |configs| && 0 <= i < |configs[c].1| && IsAt(configs, c, i, key, config, section);
      var k := AtIsKeyed(configs, c, i);
      FoundAt(items, k);
    }
    if HasKey(items, key) && SectionAt(items, key) == Keyed(key, config, section) {
      var k :| 0 <= k < |items| && items[k].key == key;
      FoundAt(items, k);
      var c, i := KeyedIsAt(configs, k);
    }
  }

  // ----- How alike two sections are -----

  /** The options both have alike. */
  function Alike(a: Options, b: Options): set<string> {
    set option | option in a && option in b && a[option] == b[option]
  }

  lemma {:induction false} CountWithin(part: set<string>, all: set<string>)
    requires part <= all
    ensures |part| <= |all| && (|part| == |all| ==> part == all)
  {
    assert all == part + (all - part);
    assert |all| == |part| + |all - part|;
  }

  /** Likeness goes from none to all: 1 only of equal options, at least a half just when the alike are
      half of all either has. */
  lemma {:induction false} LikenessIs(a: Options, b: Options)
    ensures 0.0 <= Likeness(a, b) <= 1.0 && Likeness(a, b) == Likeness(b, a)
    ensures Likeness(a, b) == 1.0 <==> a == b
    ensures Likeness(a, b) >= 0.5 <==> 2 * |Alike(a, b)| >= |a.Keys + b.Keys|
  {
    var alike, all := Alike(a, b), a.Keys + b.Keys;
    CountWithin(alike, all);
    assert Alike(b, a) == alike && b.Keys + a.Keys == all;
    if a == b { assert alike == all; }
    if alike == all { SameIfAlike(a, b); }
    if |all| == 0 { assert a == b == map[]; } else { Share(|alike|, |all|); }
  }

  lemma {:induction false} SameIfAlike(a: Options, b: Options)
    requires Alike(a, b) == a.Keys + b.Keys
    ensures a == b
  {
    assert forall option :: option in a.Keys + b.Keys ==> option in Alike(a, b);
  }

  lemma {:induction false} Share(part: nat, all: nat)
    requires 0 < all && part <= all
    ensures 0.0 <= part as real / all as real <= 1.0
    ensures part as real / all as real == 1.0 <==> part == all
    ensures part as real / all as real >= 0.5 <==> 2 * part >= all
  {
    var (p, n) := (part as real, all as real);
    var share := p / n;
    assert share * n == p;
    ShareOf(share, p, n);
    assert p + p >= n <==> 2 * part >= all;
  }

  lemma {:induction false} ShareOf(share: real, part: real, all: real)
    requires all > 0.0 && 0.0 <= part <= all && share * all == part
    ensures 0.0 <= share <= 1.0
    ensures share == 1.0 <==> part == all
    ensures share >= 0.5 <==> part + part >= all
  {
    if share < 0.0 { Less(share, 0.0, all); }
    if share > 1.0 { Less(1.0, share, all); }
    if share < 1.0 { Less(share, 1.0, all); }
    HalfOf(share, part, all);
  }

  lemma {:induction false} HalfOf(share: real, part: real, all: real)
    requires all > 0.0 && share * all == part
    ensures share >= 0.5 <==> part + part >= all
  {
    assert (share - 0.5) * all == part - 0.5 * all;
    if share >= 0.5 {
      assert (share - 0.5) * all >= 0.0;
    } else {
      Less(share - 0.5, 0.0, all);
    }
  }

  lemma {:induction false} Less(a: real, b: real, n: real)
    requires a < b && n > 0.0
    ensures a * n < b * n
  {
    assert (b - a) * n > 0.0;
  }

  // ----- Exactly the candidates -----

  /** Two sections of one config and type, half of their options alike, the first's key gone after, the
      second's not there before. */
  ghost predicate MayBeRenamed(before: Listing, after: Listing, p: Pair, config: string, a: Section, b: Section) {
    && IsSectionOf(before, p.from, config, a) && IsSectionOf(after, p.to, config, b)
    && a.typ == b.typ && 2 * |Alike(a.options, b.options)| >= |a.options.Keys + b.options.Keys|
    && !HasKey(AllKeyed(after), p.from) && !HasKey(AllKeyed(before), p.to)
  }

  lemma {:induction false} CandidateIsExact(before: Listing, after: Listing, p: Pair)
    requires WellListed(before) && WellListed(after)
    ensures IsCandidate(AllKeyed(before), AllKeyed(after), p)
      <==> exists config, a, b :: MayBeRenamed(before, after, p, config, a, b)
  {
    var (was, will) := (AllKeyed(before), AllKeyed(after));
    if IsCandidate(was, will, p) {
      var (x, y) := (SectionAt(was, p.from), SectionAt(will, p.to));
      FoundKey(was, p.from);
      FoundKey(will, p.to);
      KeyFinds(before, p.from, x.config, x.section);
      KeyFinds(after, p.to, y.config, y.section);
      LikenessIs(x.section.options, y.section.options);
      assert MayBeRenamed(before, after, p, x.config, x.section, y.section);
    }
    if config, a, b :| MayBeRenamed(before, after, p, config, a, b) {
      KeyFinds(before, p.from, config, a);
      KeyFinds(after, p.to, config, b);
      LikenessIs(a.options, b.options);
    }
  }

  lemma {:induction false} FoundKey(items: seq<Keyed>, key: string)
    requires HasKey(items, key)
    ensures SectionAt(items, key).key == key
    decreases |items|
  {
    if items[0].key != key { FoundKey(items[1..], key); }
  }
}
