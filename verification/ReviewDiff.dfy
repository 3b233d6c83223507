/** A review's lines from end to end (src/deviceState.ts, uciLines; src/applyDiff.ts, renamed and
    deviceDiff): a device's configs as lines, renamed, and what changes. */
module ReviewDiff {
  import opened Wrappers
  import opened Text
  import opened Uci
  import opened ReviewLines
  import opened Renames

  /** Whether an option's value is a secret: its name says. */
  type Secrecy = string -> bool

  // ----- A config's lines -----

  function OptionKey(key: string, option: string): string {
    key + "." + option
  }

  function KeysUnder(item: Keyed): set<string> {
    {item.key} + set option | option in item.section.options :: OptionKey(item.key, option)
  }

  /** The option a line's key names, under its section's. */
  function OptionIn(key: string, line: string): string
    requires |line| > |key|
  {
    line[|key| + 1..]
  }

  lemma {:induction false} OptionBack(key: string, option: string)
    ensures |OptionKey(key, option)| > |key| && OptionIn(key, OptionKey(key, option)) == option
  {
  }

  predicate IsUnder(item: Keyed, line: string) {
    line == item.key || (|line| > |item.key| && OptionIn(item.key, line) in item.section.options && line == OptionKey(item.key, OptionIn(item.key, line)))
  }

  function LineUnder(secret: Secrecy, item: Keyed, line: string): Line
    requires IsUnder(item, line)
  {
    if line == item.key then Line(item.section.typ, false)
    else Line(Show(item.section.options[OptionIn(item.key, line)]), secret(OptionIn(item.key, line)))
  }

  lemma {:induction false} KeysAreUnder(item: Keyed)
    ensures forall line :: line in KeysUnder(item) <==> IsUnder(item, line)
  {
    forall option ensures |OptionKey(item.key, option)| > |item.key| && OptionIn(item.key, OptionKey(item.key, option)) == option {
      OptionBack(item.key, option);
    }
  }

  function LinesUnder(secret: Secrecy, item: Keyed): map<string, Line> {
    KeysAreUnder(item);
    map line | line in KeysUnder(item) :: LineUnder(secret, item, line)
  }

  /** Sections' lines, one section set after another: its type, and each of its options. */
  function UciLines(secret: Secrecy, items: seq<Keyed>): map<string, Line> {
    if items == [] then map[] else UciLines(secret, items[..|items| - 1]) + LinesUnder(secret, items[|items| - 1])
  }

  // ----- Every line is there, once -----

  predicate WellKeyed(items: seq<Keyed>) {
    forall i :: 0 <= i < |items| ==> IsSectionKey(items[i].key) && Plain(items[i].section)
  }

  lemma {:induction false} ListedWell(configs: Listing)
    requires WellListed(configs)
    ensures WellKeyed(AllKeyed(configs)) && KeysApart(AllKeyed(configs))
  {
    SectionKeysApart(configs);
    forall i | 0 <= i < |AllKeyed(configs)| ensures IsSectionKey(AllKeyed(configs)[i].key) && Plain(AllKeyed(configs)[i].section) {
      var _ := KeyedFrom(configs, i);
      KeyedPlain(configs, i);
    }
  }

  lemma {:induction false} KeyedPlain(configs: Listing, i: nat)
    requires WellListed(configs) && i < |AllKeyed(configs)|
    ensures Plain(AllKeyed(configs)[i].section)
    decreases |configs|
  {
    var first := KeyedOf(configs[0].0, configs[0].1);
    if i >= |first| {
      RestListed(configs);
      KeyedPlain(configs[1..], i - |first|);
    }
  }

  lemma {:induction false} UnderParts(item: Keyed, line: string)
    requires IsSectionKey(item.key) && Plain(item.section) && IsUnder(item, line)
    ensures IsLineKey(line) && SectionPart(line) == Split(item.key, '.')
    ensures line == item.key <==> |Split(line, '.')| == 2
    ensures line != item.key ==> Split(line, '.')[2] == OptionIn(item.key, line)
  {
    if line != item.key {
      var option := OptionIn(item.key, line);
      assert line == item.key + ['.'] + option;
      SplitJoined(item.key, option, '.');
      SplitFree(option, '.');
    }
  }

  /** A line under a section is under no other. */
  lemma {:induction false} UnderOne(items: seq<Keyed>, i: nat, j: nat, line: string)
    requires WellKeyed(items) && KeysApart(items) && i < |items| && j < |items|
    requires IsUnder(items[i], line) && IsUnder(items[j], line)
    ensures i == j
  {
    UnderParts(items[i], line);
    UnderParts(items[j], line);
    SplitOnce(items[i].key, items[j].key);
  }

  /** A listing's lines are all its sections' types and options, none lost to another. */
  lemma {:induction false} LinesHold(secret: Secrecy, items: seq<Keyed>, i: nat, line: string)
    requires WellKeyed(items) && KeysApart(items) && i < |items| && IsUnder(items[i], line)
    ensures line in UciLines(secret, items) && UciLines(secret, items)[line] == LineUnder(secret, items[i], line)
    decreases |items|
  {
    var less, last := items[..|items| - 1], items[|items| - 1];
    KeysAreUnder(last);
    if i < |items| - 1 {
      LinesHold(secret, less, i, line);
      assert less[i] == items[i];
      if IsUnder(last, line) { UnderOne(items, i, |items| - 1, line); }
    }
  }

  /** And no others. */
  lemma {:induction false} LineFrom(secret: Secrecy, items: seq<Keyed>, line: string) returns (i: nat)
    requires line in UciLines(secret, items)
    ensures i < |items| && IsUnder(items[i], line) && UciLines(secret, items)[line] == LineUnder(secret, items[i], line)
    decreases |items|
  {
    var less, last := items[..|items| - 1], items[|items| - 1];
    KeysAreUnder(last);
    if IsUnder(last, line) { i := |items| - 1; } else { i := LineFrom(secret, less, line); }
  }

  /** Whether a line is a secret is told by its key alone. */
  predicate SecretByKey(secret: Secrecy, line: string, isSecret: bool) {
    IsLineKey(line) && (isSecret <==> |Split(line, '.')| == 3 && secret(Split(line, '.')[2]))
  }

  lemma {:induction false} LineIsWell(secret: Secrecy, items: seq<Keyed>, line: string)
    requires WellKeyed(items) && line in UciLines(secret, items)
    ensures SecretByKey(secret, line, UciLines(secret, items)[line].secret)
    ensures exists i :: 0 <= i < |items| && Split(items[i].key, '.') == SectionPart(line)
  {
    var i := LineFrom(secret, items, line);
    UnderParts(items[i], line);
  }

  // ----- Under their new names -----

  /** Each line under its new key, the last of those that come to one. */
  function Renamed(order: seq<string>, lines: map<string, Line>, pairs: seq<Pair>): map<string, Line>
    requires forall i :: 0 <= i < |order| ==> order[i] in lines
  {
    if order == [] then map[]
    else Renamed(order[..|order| - 1], lines, pairs)[NewKey(order[|order| - 1], pairs) := lines[order[|order| - 1]]]
  }

  predicate IsOrder(order: seq<string>, lines: map<string, Line>) {
    && (forall i :: 0 <= i < |order| ==> order[i] in lines)
    && forall key :: key in lines ==> key in order
  }

  /** No two lines come to one key. */
  ghost predicate NewKeysApart(lines: map<string, Line>, pairs: seq<Pair>) {
    forall a, b :: a in lines && b in lines && NewKey(a, pairs) == NewKey(b, pairs) ==> a == b
  }

  lemma {:induction false} RenamedHolds(order: seq<string>, lines: map<string, Line>, pairs: seq<Pair>, key: string)
    requires (forall i :: 0 <= i < |order| ==> order[i] in lines) && NewKeysApart(lines, pairs) && key in order
    ensures NewKey(key, pairs) in Renamed(order, lines, pairs) && Renamed(order, lines, pairs)[NewKey(key, pairs)] == lines[key]
    decreases |order|
  {
    var less, last := order[..|order| - 1], order[|order| - 1];
    if NewKey(key, pairs) != NewKey(last, pairs) {
      assert order == less + [last];
      RenamedHolds(less, lines, pairs, key);
    }
  }

  lemma {:induction false} RenamedFrom(order: seq<string>, lines: map<string, Line>, pairs: seq<Pair>, line: string) returns (key: string)
    requires (forall i :: 0 <= i < |order| ==> order[i] in lines) && line in Renamed(order, lines, pairs)
    ensures key in lines && NewKey(key, pairs) == line && Renamed(order, lines, pairs)[line] == lines[key]
    decreases |order|
  {
    var less, last := order[..|order| - 1], order[|order| - 1];
    if line == NewKey(last, pairs) { key := last; } else { key := RenamedFrom(less, lines, pairs, line); }
  }

  /** A line keeps its option's name, and so whether it is a secret, under its section's new one. */
  lemma {:induction false} NewKeepsSecret(secret: Secrecy, key: string, pairs: seq<Pair>, isSecret: bool)
    requires SecretByKey(secret, key, isSecret) && SectionPairs(pairs)
    ensures SecretByKey(secret, NewKey(key, pairs), isSecret)
  {
    var parts := Split(key, '.');
    NewKeyParts(key, pairs);
    NewPartsIs(parts, pairs);
    if IsFrom(parts, pairs) {
      var i :| 0 <= i < |pairs| && Split(pairs[i].from, '.') == parts[..2] && NewParts(parts, pairs) == Split(pairs[i].to, '.') + parts[2..];
      assert |Split(pairs[i].to, '.')| == 2;
    }
  }

  lemma {:induction false} KeyedKey(items: seq<Keyed>, key: string)
    requires WellKeyed(items) && HasKey(items, key)
    ensures IsSectionKey(key)
  {
    var i :| 0 <= i < |items| && items[i].key == key;
  }

  lemma {:induction false} TakenAreSections(was: seq<Keyed>, will: seq<Keyed>, pairs: seq<Pair>)
    requires WellKeyed(was) && WellKeyed(will) && IsRanking(was, will, pairs)
    ensures SectionPairs(Taken(pairs))
  {
    var taken := Taken(pairs);
    forall i | 0 <= i < |taken| ensures IsSectionKey(taken[i].from) && IsSectionKey(taken[i].to) {
      TakenFrom(pairs, taken[i]);
      KeyedKey(was, taken[i].from);
      KeyedKey(will, taken[i].to);
    }
  }

  /** The renames found between two listings send no two lines to one key. */
  lemma {:induction false} RenamesKeepApart(secret: Secrecy, was: seq<Keyed>, will: seq<Keyed>, pairs: seq<Pair>)
    requires WellKeyed(was) && WellKeyed(will) && IsRanking(was, will, pairs)
    ensures NewKeysApart(UciLines(secret, was), Taken(pairs))
  {
    var lines, taken := UciLines(secret, was), Taken(pairs);
    RenamesMatch(was, will, pairs);
    TakenAreSections(was, will, pairs);
    forall key | key in lines ensures IsLineKey(key) && exists i :: 0 <= i < |was| && Split(was[i].key, '.') == SectionPart(key) {
      LineIsWell(secret, was, key);
    }
    forall a, b | a in lines && b in lines && NewKey(a, taken) == NewKey(b, taken) ensures a == b {
      KeysStayApart(was, will, taken, lines.Keys, a, b);
    }
  }

  lemma {:induction false} RenamedSecretAlike(secret: Secrecy, was: seq<Keyed>, will: seq<Keyed>, pairs: seq<Pair>, order: seq<string>)
    requires WellKeyed(was) && WellKeyed(will) && IsRanking(was, will, pairs) && IsOrder(order, UciLines(secret, was))
    ensures SecretAlike(Renamed(order, UciLines(secret, was), Taken(pairs)), UciLines(secret, will))
  {
    var lines, taken := UciLines(secret, was), Taken(pairs);
    TakenAreSections(was, will, pairs);
    var now, later := Renamed(order, lines, taken), UciLines(secret, will);
    forall line | line in now && line in later ensures now[line].secret == later[line].secret {
      var key := RenamedFrom(order, lines, taken, line);
      LineIsWell(secret, was, key);
      NewKeepsSecret(secret, key, taken, lines[key].secret);
      LineIsWell(secret, will, line);
    }
  }

  // ----- The whole review -----

  /** From what a device holds to what it will, whatever sections are renamed: every line stands under
      one key of its own, with what it said; and the changes listed are exactly the lines that then
      differ, and made to them give the lines of what the device will hold. */
  lemma {:induction false} ReviewIsExact(secret: Secrecy, before: Listing, after: Listing, pairs: seq<Pair>, order: seq<string>, keys: seq<string>)
    requires WellListed(before) && WellListed(after) && IsRanking(AllKeyed(before), AllKeyed(after), pairs)
    requires IsOrder(order, UciLines(secret, AllKeyed(before)))
    requires IsKeys(keys, Renamed(order, UciLines(secret, AllKeyed(before)), Taken(pairs)), UciLines(secret, AllKeyed(after)))
    ensures var (lines, later) := (UciLines(secret, AllKeyed(before)), UciLines(secret, AllKeyed(after)));
      var now := Renamed(order, lines, Taken(pairs));
      && NewKeysApart(lines, Taken(pairs))
      && (forall key :: key in lines ==> NewKey(key, Taken(pairs)) in now && now[NewKey(key, Taken(pairs))] == lines[key])
      && (forall line :: line in now ==> exists key :: key in lines && NewKey(key, Taken(pairs)) == line)
      && (forall key :: Changed(DiffOf(keys, now, later), key) <==> ValueAt(now, key) != ValueAt(later, key))
      && Apply(ShownLines(now), DiffOf(keys, now, later)) == ShownLines(later)
  {
    var was, will := AllKeyed(before), AllKeyed(after);
    ListedWell(before);
    ListedWell(after);
    var lines := UciLines(secret, was);
    RenamesKeepApart(secret, was, will, pairs);
    RenamedSecretAlike(secret, was, will, pairs, order);
    forall key | key in lines
      ensures NewKey(key, Taken(pairs)) in Renamed(order, lines, Taken(pairs)) && Renamed(order, lines, Taken(pairs))[NewKey(key, Taken(pairs))] == lines[key]
    {
      RenamedHolds(order, lines, Taken(pairs), key);
    }
    forall line | line in Renamed(order, lines, Taken(pairs)) ensures exists key :: key in lines && NewKey(key, Taken(pairs)) == line {
      var key := RenamedFrom(order, lines, Taken(pairs), line);
    }
    DiffIsExact(keys, Renamed(order, lines, Taken(pairs)), UciLines(secret, will));
  }
}
