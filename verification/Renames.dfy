/** Sections that only changed name (src/applyDiff.ts, renames and renamed; src/deviceState.ts, keyed). */
module Renames {
  import opened Wrappers
  import opened Text
  import opened Uci
  import opened ReviewLines

  /** A section under its key, as `uci show` prints it. */
  datatype Keyed = Keyed(key: string, config: string, section: Section)

  /** Configs in order. */
  type Listing = seq<(string, seq<Section>)>

  function CountOf(sections: seq<Section>, typ: string): nat {
    if sections == [] then 0 else CountOf(sections[..|sections| - 1], typ) + if sections[|sections| - 1].typ == typ then 1 else 0
  }

  /** A section's name in its key: an anonymous one's is its place among those of its type. */
  function NameOf(sections: seq<Section>, i: nat): string
    requires i < |sections|
  {
    if sections[i].name.Some? then sections[i].name.value
    else "@" + sections[i].typ + "[" + Decimal(CountOf(sections[..i], sections[i].typ)) + "]"
  }

  function KeyedOf(config: string, sections: seq<Section>): seq<Keyed> {
    seq(|sections|, i requires 0 <= i < |sections| => Keyed(config + "." + NameOf(sections, i), config, sections[i]))
  }

  function AllKeyed(configs: Listing): seq<Keyed> {
    if configs == [] then [] else KeyedOf(configs[0].0, configs[0].1) + AllKeyed(configs[1..])
  }

  // ----- No two sections under one key -----

  /** Names uci gives sections and options, and plain types. */
  predicate Plain(section: Section) {
    && (section.name.Some? ==> '.' !in section.name.value && '@' !in section.name.value)
    && '.' !in section.typ && '[' !in section.typ
    && forall option :: option in section.options ==> '.' !in option
  }

  predicate UniqueNamed(sections: seq<Section>) {
    forall i, j :: 0 <= i < j < |sections| && sections[i].name.Some? ==> sections[i].name != sections[j].name
  }

  predicate WellListed(configs: Listing) {
    && (forall i, j :: 0 <= i < j < |configs| ==> configs[i].0 != configs[j].0)
    && forall i :: 0 <= i < |configs| ==> '.' !in configs[i].0 && UniqueNamed(configs[i].1) && AllPlain(configs[i].1)
  }

  predicate AllPlain(sections: seq<Section>) {
    forall k :: 0 <= k < |sections| ==> Plain(sections[k])
  }

  lemma {:induction false} CountGrows(sections: seq<Section>, i: nat, j: nat, typ: string)
    requires i < j <= |sections| && sections[i].typ == typ
    ensures CountOf(sections[..i], typ) < CountOf(sections[..j], typ)
    decreases j
  {
    assert sections[..j][..j - 1] == sections[..j - 1];
    if i < j - 1 { CountGrows(sections, i, j - 1, typ); }
  }

  /** The text before a mark, in two texts that are one. */
  lemma {:induction false} CutAt(a: string, x: string, b: string, y: string, mark: char)
    requires a + [mark] + x == b + [mark] + y && mark !in a && mark !in b
    ensures a == b && x == y
  {
    SplitFree(a, mark);
    SplitFree(b, mark);
    SplitJoined(a, x, mark);
    SplitJoined(b, y, mark);
    assert ([a] + Split(x, mark))[0] == a && ([b] + Split(y, mark))[0] == b;
    assert x == (a + [mark] + x)[|a| + 1..] && y == (b + [mark] + y)[|b| + 1..];
  }

  lemma {:induction false} NamesApart(sections: seq<Section>, i: nat, j: nat)
    requires i < j < |sections| && UniqueNamed(sections) && Plain(sections[i]) && Plain(sections[j])
    ensures NameOf(sections, i) != NameOf(sections, j)
  {
    var (a, b) := (sections[i], sections[j]);
    if a.name.None? && b.name.None? {
      var (m, n) := (CountOf(sections[..i], a.typ), CountOf(sections[..j], b.typ));
      if a.typ == b.typ { CountGrows(sections, i, j, a.typ); }
      if NameOf(sections, i) == NameOf(sections, j) { AnonymousOnce(a.typ, m, b.typ, n); }
    } else {
      assert a.name.None? ==> NameOf(sections, i)[0] == '@';
      assert b.name.None? ==> NameOf(sections, j)[0] == '@';
    }
  }

  lemma {:induction false} AnonymousOnce(a: string, m: nat, b: string, n: nat)
    requires '[' !in a && '[' !in b && "@" + a + "[" + Decimal(m) + "]" == "@" + b + "[" + Decimal(n) + "]"
    ensures a == b && m == n
  {
    NumberOfDecimal(m);
    NumberOfDecimal(n);
    var x, y := Decimal(m) + "]", Decimal(n) + "]";
    assert "@" + a + "[" + Decimal(m) + "]" == ("@" + a) + ['['] + x && "@" + b + "[" + Decimal(n) + "]" == ("@" + b) + ['['] + y;
    CutAt("@" + a, x, "@" + b, y, '[');
    assert a == ("@" + a)[1..] && b == ("@" + b)[1..];
    assert Decimal(m) == x[..|x| - 1] && Decimal(n) == y[..|y| - 1];
  }

  predicate KeysApart(items: seq<Keyed>) {
    forall i, j :: 0 <= i < j < |items| ==> items[i].key != items[j].key
  }

  lemma {:induction false} NameNoDot(sections: seq<Section>, i: nat)
    requires i < |sections| && Plain(sections[i])
    ensures '.' !in NameOf(sections, i)
  {
    if sections[i].name.None? { NumberOfDecimal(CountOf(sections[..i], sections[i].typ)); }
  }

  /** A key is its config and a name with no dot in either. */
  predicate IsSectionKey(key: string) {
    |Split(key, '.')| == 2
  }

  lemma {:induction false} KeySplits(config: string, name: string)
    requires '.' !in config && '.' !in name
    ensures Split(config + "." + name, '.') == [config, name] && IsSectionKey(config + "." + name)
  {
    SplitFree(config, '.');
    SplitFree(name, '.');
    SplitJoined(config, name, '.');
    assert config + "." + name == config + ['.'] + name;
  }

  lemma {:induction false} KeyedFrom(configs: Listing, i: nat) returns (c: nat)
    requires WellListed(configs) && i < |AllKeyed(configs)|
    ensures c < |configs| && AllKeyed(configs)[i].config == configs[c].0 && IsSectionKey(AllKeyed(configs)[i].key)
    ensures Split(AllKeyed(configs)[i].key, '.')[0] == configs[c].0
    decreases |configs|
  {
    var first := KeyedOf(configs[0].0, configs[0].1);
    if i < |first| {
      c := 0;
      NameNoDot(configs[0].1, i);
      KeySplits(configs[0].0, NameOf(configs[0].1, i));
    } else {
      RestListed(configs);
      var rest := KeyedFrom(configs[1..], i - |first|);
      c := rest + 1;
    }
  }

  lemma {:induction false} RestListed(configs: Listing)
    requires WellListed(configs) && configs != []
    ensures WellListed(configs[1..])
  {
  }

  /** No two sections have one key, so no line stands for two. */
  lemma {:induction false} SectionKeysApart(configs: Listing)
    requires WellListed(configs)
    ensures KeysApart(AllKeyed(configs))
    decreases |configs|
  {
    if configs != [] {
      var first, rest := KeyedOf(configs[0].0, configs[0].1), AllKeyed(configs[1..]);
      RestListed(configs);
      SectionKeysApart(configs[1..]);
      ConfigKeysApart(configs[0].0, configs[0].1);
      forall i, j | 0 <= i < |first| && 0 <= j < |rest| ensures first[i].key != rest[j].key { OtherConfigApart(configs, i, j); }
      JoinedApart(first, rest);
    }
  }

  lemma {:induction false} JoinedApart(a: seq<Keyed>, b: seq<Keyed>)
    requires KeysApart(a) && KeysApart(b)
    requires forall i, j :: 0 <= i < |a| && 0 <= j < |b| ==> a[i].key != b[j].key
    ensures KeysApart(a + b)
  {
  }

  lemma {:induction false} ConfigKeysApart(config: string, sections: seq<Section>)
    requires UniqueNamed(sections) && AllPlain(sections)
    ensures KeysApart(KeyedOf(config, sections))
  {
    forall i, j | 0 <= i < j < |sections| ensures KeyedOf(config, sections)[i].key != KeyedOf(config, sections)[j].key {
      NamesApart(sections, i, j);
      SameConfigApart(config, NameOf(sections, i), NameOf(sections, j));
    }
  }

  lemma {:induction false} OtherConfigApart(configs: Listing, i: nat, j: nat)
    requires WellListed(configs) && configs != [] && WellListed(configs[1..])
    requires i < |configs[0].1| && j < |AllKeyed(configs[1..])|
    ensures KeyedOf(configs[0].0, configs[0].1)[i].key != AllKeyed(configs[1..])[j].key
  {
    var c := KeyedFrom(configs[1..], j);
    NameNoDot(configs[0].1, i);
    KeySplits(configs[0].0, NameOf(configs[0].1, i));
    assert configs[1..][c] == configs[c + 1];
  }

  lemma {:induction false} SameConfigApart(config: string, a: string, b: string)
    requires a != b
    ensures config + "." + a != config + "." + b
  {
    assert (config + "." + a)[|config| + 1..] == a && (config + "." + b)[|config| + 1..] == b;
  }

  // ----- Renames -----

  datatype Pair = Pair(from: string, to: string)

  /** The pairs taken, the first of them first: none that shares an end with one taken. */
  function Taken(pairs: seq<Pair>): seq<Pair> {
    if pairs == [] then []
    else
      var less, last := Taken(pairs[..|pairs| - 1]), pairs[|pairs| - 1];
      if Shares(less, last) then less else less + [last]
  }

  predicate Shares(taken: seq<Pair>, p: Pair) {
    exists i :: 0 <= i < |taken| && (taken[i].from == p.from || taken[i].to == p.to)
  }

  predicate IsMatching(pairs: seq<Pair>) {
    forall i, j :: 0 <= i < j < |pairs| ==> pairs[i].from != pairs[j].from && pairs[i].to != pairs[j].to
  }

  predicate HasKey(items: seq<Keyed>, key: string) {
    exists i :: 0 <= i < |items| && items[i].key == key
  }

  function SectionAt(items: seq<Keyed>, key: string): Keyed
    requires HasKey(items, key)
  {
    if items[0].key == key then items[0] else SectionAt(items[1..], key)
  }

  /** How alike two sections' options are: the share of all either has that both have alike. */
  function Likeness(a: Options, b: Options): real {
    var all := |a.Keys + b.Keys|;
    if all == 0 then 1.0 else |set option | option in a && option in b && a[option] == b[option]| as real / all as real
  }

  /** A section that went and one that came, of one config and type, half their options alike. */
  predicate IsCandidate(was: seq<Keyed>, will: seq<Keyed>, p: Pair) {
    && HasKey(was, p.from) && HasKey(will, p.to) && !HasKey(will, p.from) && !HasKey(was, p.to)
    && SectionAt(was, p.from).config == SectionAt(will, p.to).config
    && SectionAt(was, p.from).section.typ == SectionAt(will, p.to).section.typ
    && Likeness(SectionAt(was, p.from).section.options, SectionAt(will, p.to).section.options) >= 0.5
  }

  function Score(was: seq<Keyed>, will: seq<Keyed>, p: Pair): real {
    if HasKey(was, p.from) && HasKey(will, p.to)
    then Likeness(SectionAt(was, p.from).section.options, SectionAt(will, p.to).section.options) else 0.0
  }

  /** Every candidate, the likest first. */
  ghost predicate IsRanking(was: seq<Keyed>, will: seq<Keyed>, pairs: seq<Pair>) {
    && (forall p :: p in pairs <==> IsCandidate(was, will, p))
    && forall i, j :: 0 <= i < j < |pairs| ==> Score(was, will, pairs[i]) >= Score(was, will, pairs[j])
  }

  lemma {:induction false} TakenFrom(pairs: seq<Pair>, p: Pair)
    requires p in Taken(pairs)
    ensures p in pairs
    decreases |pairs|
  {
    var less, last := pairs[..|pairs| - 1], pairs[|pairs| - 1];
    if p in Taken(less) { TakenFrom(less, p); }
  }

  lemma {:induction false} TakenMatch(pairs: seq<Pair>)
    ensures IsMatching(Taken(pairs))
    decreases |pairs|
  {
    if pairs != [] { TakenMatch(pairs[..|pairs| - 1]); }
  }

  /** What a pair gave way to: one taken no later, that shares an end with it (itself, if it was). */
  lemma {:induction false} GaveWay(pairs: seq<Pair>, i: nat) returns (j: nat)
    requires i < |pairs|
    ensures j <= i && pairs[j] in Taken(pairs) && (pairs[j].from == pairs[i].from || pairs[j].to == pairs[i].to)
    decreases |pairs|
  {
    var before, last := pairs[..|pairs| - 1], pairs[|pairs| - 1];
    var less := Taken(before);
    if i < |pairs| - 1 {
      j := GaveWay(before, i);
      assert before[j] in less;
    } else if Shares(less, last) {
      var k :| 0 <= k < |less| && (less[k].from == last.from || less[k].to == last.to);
      TakenFrom(before, less[k]);
      j :| 0 <= j < |before| && before[j] == less[k];
    } else {
      j := i;
      assert (less + [last])[|less|] == last;
    }
  }

  /** Renames are a matching of candidates, and a candidate left out shares an end with one taken that
      is at least as like. */
  lemma {:induction false} RenamesMatch(was: seq<Keyed>, will: seq<Keyed>, pairs: seq<Pair>)
    requires IsRanking(was, will, pairs)
    ensures IsMatching(Taken(pairs)) && forall p :: p in Taken(pairs) ==> IsCandidate(was, will, p)
    ensures forall p :: IsCandidate(was, will, p) ==> IsOutranked(was, will, Taken(pairs), p)
  {
    TakenMatch(pairs);
    forall p | p in Taken(pairs) ensures IsCandidate(was, will, p) { TakenFrom(pairs, p); }
    forall p | IsCandidate(was, will, p) ensures IsOutranked(was, will, Taken(pairs), p) {
      var i :| 0 <= i < |pairs| && pairs[i] == p;
      var j := GaveWay(pairs, i);
      var k :| 0 <= k < |Taken(pairs)| && Taken(pairs)[k] == pairs[j];
    }
  }

  predicate IsOutranked(was: seq<Keyed>, will: seq<Keyed>, taken: seq<Pair>, p: Pair) {
    exists k :: 0 <= k < |taken| && (taken[k].from == p.from || taken[k].to == p.to) && Score(was, will, taken[k]) >= Score(was, will, p)
  }

  // ----- Lines under their new names -----

  function NewKey(key: string, pairs: seq<Pair>): string {
    if pairs == [] then key
    else if key == pairs[0].from || pairs[0].from + "." <= key then pairs[0].to + key[|pairs[0].from|..]
    else NewKey(key, pairs[1..])
  }

  /** A section's key, and an option of it after. */
  predicate IsLineKey(key: string) {
    2 <= |Split(key, '.')| <= 3
  }

  function SectionPart(key: string): seq<string>
    requires IsLineKey(key)
  {
    Split(key, '.')[..2]
  }

  /** A key is a section's, or under it, just when its first parts are the section's. */
  lemma {:induction false} UnderIsPart(key: string, section: string)
    requires IsLineKey(key) && IsSectionKey(section)
    ensures key == section || section + "." <= key <==> SectionPart(key) == Split(section, '.')
    ensures key == section || section + "." <= key ==>
      Split(key[|section|..], '.') == [""] + Split(key, '.')[2..]
  {
    if section + "." <= key {
      var rest := key[|section| + 1..];
      assert key == section + ['.'] + rest;
      SplitJoined(section, rest, '.');
      assert key[|section|..] == "" + ['.'] + rest;
      SplitJoined("", rest, '.');
    }
    if SectionPart(key) == Split(section, '.') {
      JoinOfSplit(key, '.');
      JoinOfSplit(section, '.');
      var parts := Split(key, '.');
      if |parts| == 2 {
        assert parts == parts[..2];
      } else {
        assert parts == [parts[0], parts[1], parts[2]] && Split(section, '.') == [parts[0], parts[1]];
        JoinThree(parts[0], parts[1], parts[2]);
        assert key == section + "." + parts[2];
      }
    }
    if key == section { assert key[|section|..] == ""; }
  }

  lemma {:induction false} JoinThree(a: string, b: string, c: string)
    ensures Join([a, b, c], '.') == Join([a, b], '.') + "." + c
  {
    assert [a, b, c][1..] == [b, c] && [b, c][1..] == [c] && [a, b][1..] == [b];
    assert Join([c], '.') == c && Join([b], '.') == b;
    assert Join([b, c], '.') == b + ['.'] + c;
    assert Join([a, b], '.') == a + ['.'] + b;
    assert Join([a, b, c], '.') == a + ['.'] + (b + ['.'] + c);
  }

  /** The parts of a key under its new name. */
  function NewParts(parts: seq<string>, pairs: seq<Pair>): seq<string>
    requires |parts| >= 2
  {
    if pairs == [] then parts
    else if parts[..2] == Split(pairs[0].from, '.') then Split(pairs[0].to, '.') + parts[2..]
    else NewParts(parts, pairs[1..])
  }

  predicate SectionPairs(pairs: seq<Pair>) {
    forall i :: 0 <= i < |pairs| ==> IsSectionKey(pairs[i].from) && IsSectionKey(pairs[i].to)
  }

  lemma {:induction false} NewKeyParts(key: string, pairs: seq<Pair>)
    requires IsLineKey(key) && SectionPairs(pairs)
    ensures Split(NewKey(key, pairs), '.') == NewParts(Split(key, '.'), pairs)
    decreases |pairs|
  {
    if pairs != [] {
      var p := pairs[0];
      UnderIsPart(key, p.from);
      if key == p.from || p.from + "." <= key {
        Moved(p.to, key[|p.from|..]);
      } else {
        NewKeyParts(key, pairs[1..]);
      }
    }
  }

  /** A section's new key before what was under the old one. */
  lemma {:induction false} Moved(to: string, rest: string)
    requires Split(rest, '.')[0] == ""
    ensures Split(to + rest, '.') == Split(to, '.') + Split(rest, '.')[1..]
  {
    if rest == "" {
      assert to + rest == to;
    } else {
      assert to + rest == to + ['.'] + rest[1..];
      SplitJoined(to, rest[1..], '.');
    }
  }

  predicate IsFrom(parts: seq<string>, pairs: seq<Pair>)
    requires |parts| >= 2
  {
    exists i :: 0 <= i < |pairs| && Split(pairs[i].from, '.') == parts[..2]
  }

  /** A section's parts under its new name: another's only if it was that one's. */
  lemma {:induction false} NewPartsIs(parts: seq<string>, pairs: seq<Pair>)
    requires 2 <= |parts| <= 3 && SectionPairs(pairs)
    ensures IsFrom(parts, pairs) || NewParts(parts, pairs) == parts
    ensures IsFrom(parts, pairs) ==>
      exists i :: 0 <= i < |pairs| && Split(pairs[i].from, '.') == parts[..2] && NewParts(parts, pairs) == Split(pairs[i].to, '.') + parts[2..]
    decreases |pairs|
  {
    if pairs != [] && parts[..2] != Split(pairs[0].from, '.') {
      NewPartsIs(parts, pairs[1..]);
      assert forall i :: 1 <= i < |pairs| ==> pairs[i] == pairs[1..][i - 1];
      assert forall i :: 0 <= i < |pairs| - 1 ==> pairs[1..][i] == pairs[i + 1];
    }
  }

  // ----- Keys stay apart -----

  /** The lines' keys: each under a section that was there. */
  ghost predicate AreLinesOf(keys: set<string>, was: seq<Keyed>) {
    forall key :: key in keys ==> IsLineKey(key) && exists i :: 0 <= i < |was| && Split(was[i].key, '.') == SectionPart(key)
  }

  lemma {:induction false} SplitOnce(a: string, b: string)
    requires Split(a, '.') == Split(b, '.')
    ensures a == b
  {
    JoinOfSplit(a, '.');
    JoinOfSplit(b, '.');
  }

  /** No two lines come to one key under the new names: where sections are renamed to names that were
      not there, each from another. */
  lemma {:induction false} KeysStayApart(was: seq<Keyed>, will: seq<Keyed>, taken: seq<Pair>, keys: set<string>, a: string, b: string)
    requires AreLinesOf(keys, was) && a in keys && b in keys && NewKey(a, taken) == NewKey(b, taken)
    requires IsMatching(taken) && SectionPairs(taken) && forall p :: p in taken ==> IsCandidate(was, will, p)
    ensures a == b
  {
    var (x, y) := (Split(a, '.'), Split(b, '.'));
    NewKeyParts(a, taken);
    NewKeyParts(b, taken);
    NewPartsIs(x, taken);
    NewPartsIs(y, taken);
    assert x == x[..2] + x[2..] && y == y[..2] + y[2..];
    if IsFrom(x, taken) && IsFrom(y, taken) {
      var i :| 0 <= i < |taken| && Split(taken[i].from, '.') == x[..2] && NewParts(x, taken) == Split(taken[i].to, '.') + x[2..];
      var j :| 0 <= j < |taken| && Split(taken[j].from, '.') == y[..2] && NewParts(y, taken) == Split(taken[j].to, '.') + y[2..];
      SameTo(taken, i, j, x[2..], y[2..]);
    } else if IsFrom(x, taken) {
      MovedIsNew(was, will, taken, x, y);
    } else if IsFrom(y, taken) {
      MovedIsNew(was, will, taken, y, x);
    }
    SplitOnce(a, b);
  }

  lemma {:induction false} SameTo(taken: seq<Pair>, i: nat, j: nat, x: seq<string>, y: seq<string>)
    requires i < |taken| && j < |taken| && IsMatching(taken) && SectionPairs(taken)
    requires Split(taken[i].to, '.') + x == Split(taken[j].to, '.') + y
    ensures i == j && x == y
  {
    var (s, t) := (Split(taken[i].to, '.'), Split(taken[j].to, '.'));
    assert s == (s + x)[..2] == (t + y)[..2] == t;
    assert x == (s + x)[2..] && y == (t + y)[2..];
    SplitOnce(taken[i].to, taken[j].to);
  }

  /** A line moved to a new section's key is not where another was. */
  lemma {:induction false} MovedIsNew(was: seq<Keyed>, will: seq<Keyed>, taken: seq<Pair>, x: seq<string>, y: seq<string>)
    requires 2 <= |x| <= 3 && 2 <= |y| <= 3 && IsFrom(x, taken) && SectionPairs(taken)
    requires forall p :: p in taken ==> IsCandidate(was, will, p)
    requires exists i :: 0 <= i < |was| && Split(was[i].key, '.') == y[..2]
    ensures NewParts(x, taken) != y
  {
    NewPartsIs(x, taken);
    var i :| 0 <= i < |taken| && Split(taken[i].from, '.') == x[..2] && NewParts(x, taken) == Split(taken[i].to, '.') + x[2..];
    var k :| 0 <= k < |was| && Split(was[k].key, '.') == y[..2];
    assert taken[i] in taken;
    if NewParts(x, taken) == y {
      assert Split(taken[i].to, '.') == y[..2];
      SplitOnce(taken[i].to, was[k].key);
    }
  }
}
