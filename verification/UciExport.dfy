/** A config file as written reads back as it was (src/engine/uci.ts, parseUciExport, uciFileText). */
module UciExport {
  import opened Wrappers
  import opened Uci
  import opened UciText

  // ----- Reading -----

  const UNREADABLE := "__ONC_UNREADABLE__"

  /** The configs so far, the one being read, and whether one of its sections (the last) is. */
  datatype Reading = Reading(configs: Configs, unreadable: seq<string>, at: Option<string>, inSection: bool)

  const Unread := Reading(map[], [], None, false)

  function Arg(words: seq<string>, i: nat): string {
    if i < |words| then words[i] else "undefined"
  }

  function ValueArg(words: seq<string>): string {
    if |words| > 2 then words[2] else ""
  }

  /** A list line adds to a list; over a single value it starts one. */
  function Listed(options: Options, option: string, item: string): Value {
    if option in options && options[option].Many? then Many(options[option].items + [item]) else Many([item])
  }

  predicate Whole(s: Reading) {
    && (s.at.Some? ==> s.at.value in s.configs)
    && (s.inSection ==> s.at.Some? && s.configs[s.at.value] != [])
  }

  function Current(s: Reading): seq<Section>
    requires Whole(s) && s.at.Some?
  {
    s.configs[s.at.value]
  }

  /** The options of the section being read. */
  function CurrentOptions(s: Reading): Options
    requires Whole(s) && s.inSection
  {
    Current(s)[|Current(s)| - 1].options
  }

  function With(s: Reading, options: Options): Reading
    requires Whole(s) && s.inSection
  {
    var last := |Current(s)| - 1;
    s.(configs := s.configs[s.at.value := Current(s)[last := Current(s)[last].(options := options)]])
  }

  function ReadLine(s: Reading, words: seq<string>): (r: Result<Reading>)
    requires Whole(s) && words != []
    ensures r.Ok? ==> Whole(r.value)
  {
    if words[0] == "package" then
      Ok(Reading(s.configs[Arg(words, 1) := []], s.unreadable, Some(Arg(words, 1)), false))
    else if words[0] == UNREADABLE then
      Ok(s.(unreadable := s.unreadable + [Arg(words, 1)]))
    else if words[0] == "config" && s.at.Some? then
      var section := Section(Arg(words, 1), if |words| > 2 then Some(words[2]) else None, map[]);
      Ok(s.(configs := s.configs[s.at.value := Current(s) + [section]], inSection := true))
    else if words[0] == "option" && s.inSection then
      Ok(With(s, CurrentOptions(s)[Arg(words, 1) := One(ValueArg(words))]))
    else if words[0] == "list" && s.inSection then
      Ok(With(s, CurrentOptions(s)[Arg(words, 1) := Listed(CurrentOptions(s), Arg(words, 1), ValueArg(words))]))
    else Err
  }

  predicate NoneEmpty(lines: seq<seq<string>>) {
    forall i :: 0 <= i < |lines| ==> lines[i] != []
  }

  function ReadLines(s: Reading, lines: seq<seq<string>>): (r: Result<Reading>)
    requires Whole(s) && NoneEmpty(lines)
    ensures r.Ok? ==> Whole(r.value)
    decreases |lines|
  {
    if lines == [] then Ok(s)
    else match ReadLine(s, lines[0])
      case Err => Err
      case Ok(next) => ReadLines(next, lines[1..])
  }

  datatype Export = Export(configs: Configs, unreadable: seq<string>)

  lemma {:induction false} ScannedNoneEmpty(text: string, s: Lexer)
    requires NoneEmpty(s.lines)
    ensures NoneEmpty(Scan(text, s).lines)
    decreases |text|
  {
    if text == "" {
    } else if s.quote.Some? {
      ScannedNoneEmpty(text[1..], Quoted(text[0], s));
    } else if text[0] == '\\' && |text| > 1 {
      ScannedNoneEmpty(text[2..], s.(word := Some(Sofar(s.word) + [text[1]])));
    } else {
      ScannedNoneEmpty(text[1..], Bare(text[0], s));
    }
  }

  function ExportOf(text: string): Result<Export> {
    match LinesOf(text)
    case Err => Err
    case Ok(lines) =>
      ScannedNoneEmpty(text, Fresh);
      match ReadLines(Unread, lines)
      case Err => Err
      case Ok(s) => Ok(Export(s.configs, s.unreadable))
  }

  method ParseUciExport(text: string) returns (result: Result<Export>)
    ensures result == ExportOf(text)
  {
    var read := Lines(text);
    if read.Err? { return Err; }
    ScannedNoneEmpty(text, Fresh);
    var lines, s, i := read.value, Unread, 0;
    while i < |lines|
      invariant 0 <= i <= |lines| && Whole(s)
      invariant ReadLines(s, lines[i..]) == ReadLines(Unread, lines)
    {
      assert lines[i..][1..] == lines[i + 1..];
      var next := ReadLine(s, lines[i]);
      if next.Err? { return Err; }
      s := next.value;
      i := i + 1;
    }
    assert lines[i..] == [];
    return Ok(Export(s.configs, s.unreadable));
  }

  // ----- Writing -----

  /** A section with its options in the order they are written. */
  datatype Written = Written(typ: string, name: Option<string>, options: seq<(string, Value)>)

  function ItemsText(option: string, items: seq<string>): string {
    if items == [] then ""
    else ItemsText(option, items[..|items| - 1]) + ("\tlist " + option + " " + ShellQuote(items[|items| - 1]) + "\n")
  }

  function OptionText(option: string, value: Value): string {
    match value
    case One(text) => "\toption " + option + " " + ShellQuote(text) + "\n"
    case Many(items) => ItemsText(option, items)
  }

  function OptionsText(options: seq<(string, Value)>): string {
    if options == [] then ""
    else OptionsText(options[..|options| - 1]) + OptionText(options[|options| - 1].0, options[|options| - 1].1)
  }

  function HeadText(section: Written): string {
    match section.name
    case None => "config " + section.typ + "\n"
    case Some(name) => "config " + section.typ + " " + ShellQuote(name) + "\n"
  }

  /** A section's lines, the last ended too. */
  function SectionText(section: Written): string {
    HeadText(section) + OptionsText(section.options)
  }

  /** Sections a blank line apart. */
  function FileText(sections: seq<Written>): string {
    if sections == [] then "\n"
    else if |sections| == 1 then SectionText(sections[0])
    else SectionText(sections[0]) + ("\n" + FileText(sections[1..]))
  }

  // ----- The lines written are the lines read -----

  function ItemsLines(option: string, items: seq<string>): (lines: seq<seq<string>>)
    ensures NoneEmpty(lines)
  {
    seq(|items|, i requires 0 <= i < |items| => ["list", option, items[i]])
  }

  function OptionLines(option: string, value: Value): (lines: seq<seq<string>>)
    ensures NoneEmpty(lines)
  {
    match value
    case One(text) => [["option", option, text]]
    case Many(items) => ItemsLines(option, items)
  }

  function OptionsLines(options: seq<(string, Value)>): (lines: seq<seq<string>>)
    ensures NoneEmpty(lines)
  {
    if options == [] then []
    else OptionsLines(options[..|options| - 1]) + OptionLines(options[|options| - 1].0, options[|options| - 1].1)
  }

  function HeadLine(section: Written): (line: seq<string>)
    ensures line != []
  {
    ["config", section.typ] + if section.name.Some? then [section.name.value] else []
  }

  function FileLines(sections: seq<Written>): (lines: seq<seq<string>>)
    ensures NoneEmpty(lines)
  {
    if sections == [] then []
    else [HeadLine(sections[0])] + OptionsLines(sections[0].options) + FileLines(sections[1..])
  }

  predicate Plain(section: Written) {
    && PlainWord(section.typ)
    && (forall i :: 0 <= i < |section.options| ==> PlainWord(section.options[i].0))
    && forall i, j :: 0 <= i < j < |section.options| ==> section.options[i].0 != section.options[j].0
  }

  predicate AllPlainSections(sections: seq<Written>) {
    forall i :: 0 <= i < |sections| ==> Plain(sections[i])
  }

  function At(lines: seq<seq<string>>): Lexer {
    Lexer(lines, [], None, None)
  }

  lemma {:induction false} ScanEntry(keyword: string, option: string, value: string, rest: string, lines: seq<seq<string>>)
    requires PlainWord(keyword) && PlainWord(option)
    ensures Scan("\t" + keyword + " " + option + " " + ShellQuote(value) + "\n" + rest, At(lines)) == Scan(rest, At(lines + [[keyword, option, value]]))
  {
    var end := ShellQuote(value) + "\n" + rest;
    var text := "\t" + keyword + " " + option + " " + ShellQuote(value) + "\n" + rest;
    assert text[1..] == keyword + [' '] + (option + [' '] + end);
    assert Scan(text, At(lines)) == Scan(text[1..], At(lines));
    ScanWord(keyword, ' ', option + [' '] + end, At(lines));
    var one := Lexer(lines, [keyword], None, None);
    assert [] + [keyword] == [keyword];
    ScanWord(option, ' ', end, one);
    assert [keyword] + [option] == [keyword, option];
    ScanLast(value, rest, Lexer(lines, [keyword, option], None, None));
    assert [keyword, option] + [value] == [keyword, option, value];
  }

  /** A text of whole lines: read from a line's start, it adds those and leaves off at a start. */
  ghost predicate Reads(text: string, more: seq<seq<string>>) {
    forall rest, lines :: Scan(text + rest, At(lines)) == Scan(rest, At(lines + more))
  }

  lemma {:induction false} ReadsJoined(a: string, x: seq<seq<string>>, b: string, y: seq<seq<string>>)
    requires Reads(a, x) && Reads(b, y)
    ensures Reads(a + b, x + y)
  {
    forall rest, lines ensures Scan(a + b + rest, At(lines)) == Scan(rest, At(lines + (x + y))) {
      calc {
        Scan(a + b + rest, At(lines));
        { assert a + b + rest == a + (b + rest); }
        Scan(a + (b + rest), At(lines));
        Scan(b + rest, At(lines + x));
        Scan(rest, At(lines + x + y));
        { assert lines + x + y == lines + (x + y); }
        Scan(rest, At(lines + (x + y)));
      }
    }
  }

  lemma {:induction false} ReadsNothing(text: string)
    requires text == "" || text == "\n"
    ensures Reads(text, [])
  {
    forall rest, lines ensures Scan(text + rest, At(lines)) == Scan(rest, At(lines + [])) {
      assert lines + [] == lines;
      if text == "" { assert text + rest == rest; } else { assert (text + rest)[1..] == rest; }
    }
  }

  lemma {:induction false} ReadsEntry(keyword: string, option: string, value: string)
    requires PlainWord(keyword) && PlainWord(option)
    ensures Reads("\t" + keyword + " " + option + " " + ShellQuote(value) + "\n", [[keyword, option, value]])
  {
    var text := "\t" + keyword + " " + option + " " + ShellQuote(value) + "\n";
    forall rest, lines ensures Scan(text + rest, At(lines)) == Scan(rest, At(lines + [[keyword, option, value]])) {
      ScanEntry(keyword, option, value, rest, lines);
    }
  }

  lemma {:induction false} ReadsItems(option: string, items: seq<string>)
    requires PlainWord(option)
    ensures Reads(ItemsText(option, items), ItemsLines(option, items))
    decreases |items|
  {
    if items == [] {
      ReadsNothing("");
    } else {
      var less, last := items[..|items| - 1], items[|items| - 1];
      ReadsItems(option, less);
      ReadsEntry("list", option, last);
      var line := "\t" + "list" + " " + option + " " + ShellQuote(last) + "\n";
      assert line == "\tlist " + option + " " + ShellQuote(last) + "\n";
      ReadsJoined(ItemsText(option, less), ItemsLines(option, less), line, [["list", option, last]]);
      assert ItemsLines(option, less) + [["list", option, last]] == ItemsLines(option, items);
    }
  }

  lemma {:induction false} ReadsOption(option: string, value: Value)
    requires PlainWord(option)
    ensures Reads(OptionText(option, value), OptionLines(option, value))
  {
    match value
    case One(text) =>
      ReadsEntry("option", option, text);
      assert OptionText(option, value) == "\t" + "option" + " " + option + " " + ShellQuote(text) + "\n";
    case Many(items) =>
      ReadsItems(option, items);
  }

  lemma {:induction false} ReadsOptions(options: seq<(string, Value)>)
    requires forall i :: 0 <= i < |options| ==> PlainWord(options[i].0)
    ensures Reads(OptionsText(options), OptionsLines(options))
    decreases |options|
  {
    if options == [] {
      ReadsNothing("");
    } else {
      var less, last := options[..|options| - 1], options[|options| - 1];
      ReadsOptions(less);
      ReadsOption(last.0, last.1);
      ReadsJoined(OptionsText(less), OptionsLines(less), OptionText(last.0, last.1), OptionLines(last.0, last.1));
    }
  }

  lemma {:induction false} ScanHead(section: Written, rest: string, lines: seq<seq<string>>)
    requires PlainWord(section.typ)
    ensures Scan(HeadText(section) + rest, At(lines)) == Scan(rest, At(lines + [HeadLine(section)]))
  {
    var one := Lexer(lines, ["config"], None, None);
    assert [] + ["config"] == ["config"];
    match section.name
    case None =>
      assert HeadText(section) + rest == "config" + [' '] + (section.typ + ['\n'] + rest);
      ScanWord("config", ' ', section.typ + ['\n'] + rest, At(lines));
      ScanWord(section.typ, '\n', rest, one);
      assert ["config"] + [section.typ] == HeadLine(section);
    case Some(name) =>
      var end := ShellQuote(name) + "\n" + rest;
      assert HeadText(section) + rest == "config" + [' '] + (section.typ + [' '] + end);
      ScanWord("config", ' ', section.typ + [' '] + end, At(lines));
      ScanWord(section.typ, ' ', end, one);
      assert ["config"] + [section.typ] == ["config", section.typ];
      ScanLast(name, rest, Lexer(lines, ["config", section.typ], None, None));
  }

  lemma {:induction false} ReadsSection(section: Written)
    requires Plain(section)
    ensures Reads(SectionText(section), [HeadLine(section)] + OptionsLines(section.options))
  {
    assert Reads(HeadText(section), [HeadLine(section)]) by {
      forall rest, lines ensures Scan(HeadText(section) + rest, At(lines)) == Scan(rest, At(lines + [HeadLine(section)])) {
        ScanHead(section, rest, lines);
      }
    }
    ReadsOptions(section.options);
    ReadsJoined(HeadText(section), [HeadLine(section)], OptionsText(section.options), OptionsLines(section.options));
  }

  lemma {:induction false} ReadsFile(sections: seq<Written>)
    requires AllPlainSections(sections)
    ensures Reads(FileText(sections), FileLines(sections))
    decreases |sections|
  {
    ReadsNothing("\n");
    if sections != [] {
      var first := [HeadLine(sections[0])] + OptionsLines(sections[0].options);
      ReadsSection(sections[0]);
      if |sections| == 1 {
        assert first == FileLines(sections);
      } else {
        ReadsFile(sections[1..]);
        ReadsJoined("\n", [], FileText(sections[1..]), FileLines(sections[1..]));
        ReadsJoined(SectionText(sections[0]), first, "\n" + FileText(sections[1..]), [] + FileLines(sections[1..]));
        assert [] + FileLines(sections[1..]) == FileLines(sections[1..]);
      }
    }
  }

  // ----- And make the same sections -----

  /** A section's options as read: a list with no item leaves no line. */
  function ReadOptions(options: seq<(string, Value)>): Options {
    if options == [] then map[]
    else
      var rest, last := ReadOptions(options[..|options| - 1]), options[|options| - 1];
      if last.1 == Many([]) then rest else rest[last.0 := last.1]
  }

  function ReadSections(sections: seq<Written>): seq<Section> {
    seq(|sections|, i requires 0 <= i < |sections| => SectionOf(sections[i]))
  }

  lemma {:induction false} ReadKeys(options: seq<(string, Value)>, key: string)
    requires forall i :: 0 <= i < |options| ==> options[i].0 != key
    ensures key !in ReadOptions(options)
    decreases |options|
  {
    if options != [] { ReadKeys(options[..|options| - 1], key); }
  }

  lemma {:induction false} LinesJoined(s: Reading, a: seq<seq<string>>, b: seq<seq<string>>)
    requires Whole(s) && NoneEmpty(a) && NoneEmpty(b)
    ensures ReadLines(s, a + b) == match ReadLines(s, a) case Err => Err case Ok(next) => ReadLines(next, b)
    decreases |a|
  {
    if a == [] {
      assert a + b == b;
    } else {
      assert (a + b)[1..] == a[1..] + b;
      if ReadLine(s, a[0]).Ok? { LinesJoined(ReadLine(s, a[0]).value, a[1..], b); }
    }
  }

  /** Lines that take the reading from `s` to `t`. */
  predicate Makes(s: Reading, lines: seq<seq<string>>, t: Reading) {
    Whole(s) && NoneEmpty(lines) && ReadLines(s, lines) == Ok(t)
  }

  lemma {:induction false} MakesJoined(s: Reading, a: seq<seq<string>>, t: Reading, b: seq<seq<string>>, u: Reading)
    requires Makes(s, a, t) && Makes(t, b, u)
    ensures Makes(s, a + b, u)
  {
    LinesJoined(s, a, b);
  }

  lemma {:induction false} MakesOne(s: Reading, line: seq<string>, t: Reading)
    requires Whole(s) && line != [] && ReadLine(s, line) == Ok(t)
    ensures Makes(s, [line], t)
  {
    assert [line][1..] == [];
  }

  lemma {:induction false} WithTwice(s: Reading, a: Options, b: Options)
    requires Whole(s) && s.inSection
    ensures Whole(With(s, a)) && With(s, a).inSection && CurrentOptions(With(s, a)) == a
    ensures With(With(s, a), b) == With(s, b)
  {
    var last := |Current(s)| - 1;
    var section := Current(s)[last];
    assert Current(s)[last := section.(options := a)][last := section.(options := b)] == Current(s)[last := section.(options := b)];
  }

  lemma {:induction false} OneItemRead(s: Reading, options: Options, option: string, less: seq<string>, last: string)
    requires Whole(s) && s.inSection && option !in options
    ensures Makes(With(s, if less == [] then options else options[option := Many(less)]), [["list", option, last]],
      With(s, options[option := Many(less + [last])]))
  {
    var had := if less == [] then options else options[option := Many(less)];
    WithTwice(s, had, had[option := Many(less + [last])]);
    assert Listed(had, option, last) == Many(less + [last]);
    assert had[option := Many(less + [last])] == options[option := Many(less + [last])];
    MakesOne(With(s, had), ["list", option, last], With(s, options[option := Many(less + [last])]));
  }

  lemma {:induction false} ItemsRead(s: Reading, options: Options, option: string, items: seq<string>)
    requires Whole(s) && s.inSection && option !in options
    ensures Makes(With(s, options), ItemsLines(option, items), With(s, if items == [] then options else options[option := Many(items)]))
    decreases |items|
  {
    WithTwice(s, options, options);
    if items != [] {
      var less, last := items[..|items| - 1], items[|items| - 1];
      ItemsRead(s, options, option, less);
      assert ItemsLines(option, items) == ItemsLines(option, less) + [["list", option, last]];
      assert less + [last] == items;
      OneItemRead(s, options, option, less, last);
      MakesJoined(With(s, options), ItemsLines(option, less), With(s, if less == [] then options else options[option := Many(less)]),
        [["list", option, last]], With(s, options[option := Many(items)]));
    }
  }

  lemma {:induction false} OptionRead(s: Reading, options: Options, option: string, value: Value)
    requires Whole(s) && s.inSection && option !in options
    ensures Makes(With(s, options), OptionLines(option, value), With(s, if value == Many([]) then options else options[option := value]))
  {
    match value
    case One(text) =>
      WithTwice(s, options, options[option := value]);
      MakesOne(With(s, options), ["option", option, text], With(s, options[option := value]));
    case Many(items) =>
      ItemsRead(s, options, option, items);
  }

  lemma {:induction false} OptionsRead(s: Reading, options: seq<(string, Value)>)
    requires Whole(s) && s.inSection
    requires forall i, j :: 0 <= i < j < |options| ==> options[i].0 != options[j].0
    ensures Makes(With(s, map[]), OptionsLines(options), With(s, ReadOptions(options)))
    decreases |options|
  {
    WithTwice(s, map[], map[]);
    if options != [] {
      var less, last := options[..|options| - 1], options[|options| - 1];
      OptionsRead(s, less);
      ReadKeys(less, last.0);
      OptionRead(s, ReadOptions(less), last.0, last.1);
      MakesJoined(With(s, map[]), OptionsLines(less), With(s, ReadOptions(less)), OptionLines(last.0, last.1), With(s, ReadOptions(options)));
    }
  }

  /** Reading, with more sections in the config being read. */
  function Plus(s: Reading, more: seq<Section>): Reading
    requires Whole(s) && s.at.Some?
  {
    s.(configs := s.configs[s.at.value := Current(s) + more], inSection := s.inSection || more != [])
  }

  function SectionOf(section: Written): Section {
    Section(section.typ, section.name, ReadOptions(section.options))
  }

  lemma {:induction false} PlusWith(s: Reading, section: Section, options: Options)
    requires Whole(s) && s.at.Some?
    ensures Whole(Plus(s, [section])) && With(Plus(s, [section]), options) == Plus(s, [section.(options := options)])
  {
    var head := Plus(s, [section]);
    assert Current(head) == Current(s) + [section];
    assert Current(head)[|Current(head)| - 1 := section.(options := options)] == Current(s) + [section.(options := options)];
  }

  lemma {:induction false} SectionRead(s: Reading, section: Written)
    requires Whole(s) && s.at.Some? && Plain(section)
    ensures Makes(s, [HeadLine(section)] + OptionsLines(section.options), Plus(s, [SectionOf(section)]))
  {
    var bare := Section(section.typ, section.name, map[]);
    var head := Plus(s, [bare]);
    MakesOne(s, HeadLine(section), head);
    PlusWith(s, bare, map[]);
    PlusWith(s, bare, ReadOptions(section.options));
    OptionsRead(head, section.options);
    MakesJoined(s, [HeadLine(section)], head, OptionsLines(section.options), Plus(s, [SectionOf(section)]));
  }

  lemma {:induction false} PlusTwice(s: Reading, a: seq<Section>, b: seq<Section>)
    requires Whole(s) && s.at.Some?
    ensures Whole(Plus(s, a)) && Plus(Plus(s, a), b) == Plus(s, a + b)
  {
    assert Current(s) + a + b == Current(s) + (a + b);
  }

  lemma {:induction false} FileRead(s: Reading, sections: seq<Written>)
    requires Whole(s) && s.at.Some? && AllPlainSections(sections)
    ensures Makes(s, FileLines(sections), Plus(s, ReadSections(sections)))
    decreases |sections|
  {
    if sections == [] {
      assert Current(s) + [] == Current(s) && ReadSections(sections) == [];
      assert s.configs[s.at.value := Current(s)] == s.configs;
    } else {
      var first := [SectionOf(sections[0])];
      SectionRead(s, sections[0]);
      PlusTwice(s, first, ReadSections(sections[1..]));
      assert first + ReadSections(sections[1..]) == ReadSections(sections);
      FileRead(Plus(s, first), sections[1..]);
      MakesJoined(s, [HeadLine(sections[0])] + OptionsLines(sections[0].options), Plus(s, first),
        FileLines(sections[1..]), Plus(s, ReadSections(sections)));
    }
  }

  /** A file written for a package reads back as its sections, whatever the values hold. */
  lemma {:induction false} ReadsBack(package: string, sections: seq<Written>)
    requires PlainWord(package) && AllPlainSections(sections)
    ensures ExportOf("package " + package + "\n" + FileText(sections)) == Ok(Export(map[package := ReadSections(sections)], []))
  {
    var head := ["package", package];
    var lines := [head] + FileLines(sections);
    FileScanned(package, sections);
    var s := Reading(map[package := []], [], Some(package), false);
    var t := Plus(s, ReadSections(sections));
    MakesOne(Unread, head, s);
    FileRead(s, sections);
    MakesJoined(Unread, [head], s, FileLines(sections), t);
    assert [] + ReadSections(sections) == ReadSections(sections);
    assert t.configs == map[package := ReadSections(sections)];
  }

  lemma {:induction false} FileScanned(package: string, sections: seq<Written>)
    requires PlainWord(package) && AllPlainSections(sections)
    ensures LinesOf("package " + package + "\n" + FileText(sections)) == Ok([["package", package]] + FileLines(sections))
  {
    var text := FileText(sections);
    ScanPackage(package, text);
    ReadsFile(sections);
    assert text + "" == text;
    assert Scan(text + "", At([["package", package]])) == Scan("", At([["package", package]] + FileLines(sections)));
  }

  lemma {:induction false} ScanPackage(package: string, rest: string)
    requires PlainWord(package)
    ensures Scan("package " + package + "\n" + rest, Fresh) == Scan(rest, At([["package", package]]))
  {
    assert "package " + package + "\n" + rest == "package" + [' '] + (package + ['\n'] + rest);
    ScanWord("package", ' ', package + ['\n'] + rest, Fresh);
    assert [] + ["package"] == ["package"];
    ScanWord(package, '\n', rest, Lexer([], ["package"], None, None));
    assert ["package"] + [package] == ["package", package];
    assert [] + [["package", package]] == [["package", package]];
  }

  // ----- Exactly -----

  function AllOptions(options: seq<(string, Value)>): Options {
    if options == [] then map[]
    else AllOptions(options[..|options| - 1])[options[|options| - 1].0 := options[|options| - 1].1]
  }

  function AsWritten(sections: seq<Written>): seq<Section> {
    seq(|sections|, i requires 0 <= i < |sections| => Section(sections[i].typ, sections[i].name, AllOptions(sections[i].options)))
  }

  predicate NoEmptyList(options: seq<(string, Value)>) {
    forall i :: 0 <= i < |options| ==> options[i].1 != Many([])
  }

  lemma {:induction false} AllKeys(options: seq<(string, Value)>)
    ensures AllOptions(options).Keys == set i | 0 <= i < |options| :: options[i].0
    decreases |options|
  {
    if options != [] {
      var less, last := options[..|options| - 1], options[|options| - 1];
      AllKeys(less);
      assert forall i :: 0 <= i < |less| ==> less[i] == options[i];
      assert (set i | 0 <= i < |options| :: options[i].0) == (set i | 0 <= i < |less| :: less[i].0) + {last.0};
    }
  }

  lemma {:induction false} OptionsExact(options: seq<(string, Value)>)
    requires forall i, j :: 0 <= i < j < |options| ==> options[i].0 != options[j].0
    ensures ReadOptions(options).Keys <= AllOptions(options).Keys
    ensures ReadOptions(options) == AllOptions(options) <==> NoEmptyList(options)
    decreases |options|
  {
    if options != [] {
      var less, last := options[..|options| - 1], options[|options| - 1];
      OptionsExact(less);
      AllKeys(less);
      ReadKeys(less, last.0);
      assert last.0 !in AllOptions(less);
      assert NoEmptyList(options) <==> NoEmptyList(less) && last.1 != Many([]) by {
        assert forall i :: 0 <= i < |less| ==> less[i] == options[i];
      }
      assert AllOptions(options) - {last.0} == AllOptions(less);
      if last.1 == Many([]) {
        assert last.0 in AllOptions(options) && last.0 !in ReadOptions(options);
      } else {
        assert ReadOptions(options) - {last.0} == ReadOptions(less);
      }
    }
  }

  /** Written and read back, the sections are the same just when no list is empty. */
  lemma {:induction false} RoundTripIsExact(package: string, sections: seq<Written>)
    requires PlainWord(package) && AllPlainSections(sections)
    ensures ExportOf("package " + package + "\n" + FileText(sections)) == Ok(Export(map[package := AsWritten(sections)], []))
      <==> forall k :: 0 <= k < |sections| ==> NoEmptyList(sections[k].options)
  {
    ReadsBack(package, sections);
    forall k | 0 <= k < |sections|
      ensures ReadSections(sections)[k] == AsWritten(sections)[k] <==> NoEmptyList(sections[k].options)
    {
      OptionsExact(sections[k].options);
    }
    var a, b := Export(map[package := ReadSections(sections)], []), Export(map[package := AsWritten(sections)], []);
    assert a == b ==> a.configs[package] == b.configs[package];
    if forall k :: 0 <= k < |sections| ==> NoEmptyList(sections[k].options) {
      assert ReadSections(sections) == AsWritten(sections);
    }
  }
}
