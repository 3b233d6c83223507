/** From uci operations to records and back (src/getDeviceScript.ts, uciRecords;
    src/engine/getUciCommands.ts, uciLine): what stage replays is what was meant. */
module UciReplay {
  import opened Wrappers
  import opened Text
  import opened Uci
  import opened UciText
  import Records
  import RecordStream

  function Section(config: string, name: string): string {
    config + "." + name
  }

  function Key(config: string, name: string, option: string): string {
    config + "." + name + "." + option
  }

  /** An operation as `uci batch` reads it. */
  function OpLine(op: Op): string {
    match op
    case Delete(config, name) => "delete " + Section(config, name)
    case DeleteFirst(config, typ) => "delete " + Section(config, "@" + typ + "[0]")
    case SetSection(config, name, typ) => "set " + Section(config, name) + "=" + typ
    case SetOption(config, name, option, value) => "set " + Key(config, name, option) + "=" + ShellQuote(value)
    case AddList(config, name, option, value) => "add_list " + Key(config, name, option) + "=" + ShellQuote(value)
  }

  /** How stage takes an operation: a line of a batch, or on its own. */
  datatype Step = Line(text: string) | Alone(kind: Records.ValuedKind, key: string, value: string)

  /** A value that spans lines, which a batch would misread. */
  predicate Spans(op: Op) {
    (op.SetOption? || op.AddList?) && '\n' in op.value
  }

  function StepOf(op: Op): Step {
    if Spans(op) then Alone(if op.SetOption? then "set" else "add_list", Key(op.config, op.name, op.option), op.value)
    else Line(OpLine(op))
  }

  function StepsOf(ops: seq<Op>): seq<Step> {
    seq(|ops|, i requires 0 <= i < |ops| => StepOf(ops[i]))
  }

  function LinesOfBatch(lines: seq<string>): seq<Step> {
    seq(|lines|, i requires 0 <= i < |lines| => Line(lines[i]))
  }

  /** The steps records hold, in order. */
  function Steps(records: seq<Records.Record>): seq<Step> {
    if records == [] then []
    else
      var less, last := records[..|records| - 1], records[|records| - 1];
      Steps(less) + StepsIn(last)
  }

  /** As few batches as keep the order: none empty, no two in a row; and nothing else. */
  predicate Grouped(records: seq<Records.Record>) {
    && (forall i :: 0 <= i < |records| ==> records[i].Valued? || (records[i].Batch? && records[i].operations != []))
    && forall i :: 0 < i < |records| ==> !(records[i - 1].Batch? && records[i].Batch?)
  }

  method UciRecords(ops: seq<Op>) returns (records: seq<Records.Record>)
    ensures Steps(records) == StepsOf(ops) && Grouped(records)
  {
    records := [];
    var i := 0;
    while i < |ops|
      invariant 0 <= i <= |ops|
      invariant Steps(records) == StepsOf(ops[..i]) && Grouped(records)
    {
      var op := ops[i];
      StepsGrow(ops, i);
      if Spans(op) {
        var record := Records.Valued(if op.SetOption? then "set" else "add_list", Key(op.config, op.name, op.option), op.value);
        Appended(records, record, StepOf(op));
        records := records + [record];
      } else if records == [] || !records[|records| - 1].Batch? {
        Appended(records, Records.Batch([OpLine(op)]), StepOf(op));
        records := records + [Records.Batch([OpLine(op)])];
      } else {
        Lengthened(records, OpLine(op));
        var last := records[|records| - 1];
        records := records[|records| - 1 := Records.Batch(last.operations + [OpLine(op)])];
      }
      i := i + 1;
    }
    assert ops[..i] == ops;
  }

  lemma {:induction false} StepsGrow(ops: seq<Op>, i: nat)
    requires i < |ops|
    ensures StepsOf(ops[..i + 1]) == StepsOf(ops[..i]) + [StepOf(ops[i])]
  {
  }

  function StepsIn(record: Records.Record): seq<Step> {
    match record
    case Batch(lines) => LinesOfBatch(lines)
    case Valued(kind, key, value) => [Alone(kind, key, value)]
    case _ => []
  }

  lemma {:induction false} Appended(records: seq<Records.Record>, record: Records.Record, step: Step)
    requires Grouped(records) && StepsIn(record) == [step]
    requires record.Valued? || (record.Batch? && (records == [] || !records[|records| - 1].Batch?))
    ensures Grouped(records + [record]) && Steps(records + [record]) == Steps(records) + [step]
  {
    assert (records + [record])[..|records|] == records;
  }

  lemma {:induction false} Lengthened(records: seq<Records.Record>, line: string)
    requires Grouped(records) && records != [] && records[|records| - 1].Batch?
    ensures var more := records[|records| - 1 := Records.Batch(records[|records| - 1].operations + [line])];
      Grouped(more) && Steps(more) == Steps(records) + [Line(line)]
  {
    var last := records[|records| - 1];
    var more := records[|records| - 1 := Records.Batch(last.operations + [line])];
    assert more[..|more| - 1] == records[..|records| - 1];
    assert LinesOfBatch(last.operations + [line]) == LinesOfBatch(last.operations) + [Line(line)];
  }

  /** The grouping is the only one: the steps, and as few batches as keep their order, settle it. */
  lemma {:induction false} GroupedOnce(a: seq<Records.Record>, b: seq<Records.Record>)
    requires Grouped(a) && Grouped(b) && Steps(a) == Steps(b)
    ensures a == b
    decreases |a|
  {
    LastStep(a);
    LastStep(b);
    if a != [] {
      var p, x := Parted(a);
      var q, y := Parted(b);
      LastOnce(Steps(p), x, Steps(q), y);
      GroupedOnce(p, q);
    }
  }

  lemma {:induction false} Parted(records: seq<Records.Record>) returns (less: seq<Records.Record>, last: Records.Record)
    requires Grouped(records) && records != []
    ensures records == less + [last] && Grouped(less) && Steps(records) == Steps(less) + StepsIn(last)
    ensures last.Valued? || last.Batch?
    ensures last.Batch? ==> Steps(less) == [] || Steps(less)[|Steps(less)| - 1].Alone?
    ensures last.Batch? <==> Steps(records)[|Steps(records)| - 1].Line?
  {
    less, last := records[..|records| - 1], records[|records| - 1];
    LastStep(less);
    LastStep(records);
  }

  lemma {:induction false} LastOnce(p: seq<Step>, x: Records.Record, q: seq<Step>, y: Records.Record)
    requires p + StepsIn(x) == q + StepsIn(y)
    requires (x.Valued? || x.Batch?) && (y.Valued? || y.Batch?) && (x.Batch? <==> y.Batch?)
    requires x.Batch? ==> (p == [] || p[|p| - 1].Alone?) && (q == [] || q[|q| - 1].Alone?)
    ensures x == y && p == q
  {
    if x.Batch? {
      RunNotLonger(p, LinesOfBatch(x.operations), q, LinesOfBatch(y.operations));
      RunNotLonger(q, LinesOfBatch(y.operations), p, LinesOfBatch(x.operations));
      SameLines(p, x.operations, q, y.operations);
    }
    assert (p + StepsIn(x))[..|p|] == p && (q + StepsIn(y))[..|q|] == q;
    assert (p + StepsIn(x))[|p|..] == StepsIn(x) && (q + StepsIn(y))[|q|..] == StepsIn(y);
  }

  /** The run of lines that ends a list is as long however it is told apart from what is before. */
  lemma {:induction false} RunNotLonger(p: seq<Step>, x: seq<Step>, q: seq<Step>, y: seq<Step>)
    requires p + x == q + y && (p == [] || p[|p| - 1].Alone?)
    requires forall i :: 0 <= i < |y| ==> y[i].Line?
    ensures |y| <= |x|
  {
    var all := p + x;
    assert forall i :: |q| <= i < |all| ==> all[i] == y[i - |q|];
    assert p != [] ==> all[|p| - 1] == p[|p| - 1];
  }

  lemma {:induction false} SameLines(p: seq<Step>, x: seq<string>, q: seq<Step>, y: seq<string>)
    requires p + LinesOfBatch(x) == q + LinesOfBatch(y) && |x| == |y|
    ensures x == y
  {
    var all := p + LinesOfBatch(x);
    forall i | 0 <= i < |x| ensures x[i] == y[i] {
      assert all[|p| + i] == LinesOfBatch(x)[i] && all[|q| + i] == LinesOfBatch(y)[i];
    }
  }

  /** A grouped list's last step tells its last record's kind. */
  lemma {:induction false} LastStep(records: seq<Records.Record>)
    requires Grouped(records)
    ensures records == [] <==> Steps(records) == []
    ensures records != [] ==> (Steps(records)[|Steps(records)| - 1].Line? <==> records[|records| - 1].Batch?)
  {
  }

  // ----- What uci makes of a step -----

  /** The text before the first `=` and after it. */
  function Cut(text: string): Option<(string, string)> {
    if text == "" then None
    else if text[0] == '=' then Some(("", text[1..]))
    else match Cut(text[1..])
      case None => None
      case Some((before, after)) => Some(([text[0]] + before, after))
  }

  /** A section's name in a key: `@type[0]` for a type's first. */
  function ReadDelete(config: string, name: string): Op {
    if |name| > 3 && name[0] == '@' && name[|name| - 3..] == "[0]" then DeleteFirst(config, name[1..|name| - 3])
    else Delete(config, name)
  }

  function ReadOp(words: seq<string>): Option<Op> {
    if |words| != 2 then None
    else if words[0] == "delete" then
      var parts := Split(words[1], '.');
      if |parts| == 2 then Some(ReadDelete(parts[0], parts[1])) else None
    else match Cut(words[1])
      case None => None
      case Some((key, value)) =>
        var parts := Split(key, '.');
        if words[0] == "set" && |parts| == 2 then Some(SetSection(parts[0], parts[1], value))
        else if words[0] == "set" && |parts| == 3 then Some(SetOption(parts[0], parts[1], parts[2], value))
        else if words[0] == "add_list" && |parts| == 3 then Some(AddList(parts[0], parts[1], parts[2], value))
        else None
  }

  /** A batch's line is read by uci's tokenizer; a step alone is an argument of its own. */
  function ReadStep(step: Step): Option<Op> {
    match step
    case Alone(kind, key, value) => ReadOp([kind, key + "=" + value])
    case Line(text) =>
      match LinesOf(text)
      case Err => None
      case Ok(lines) => if |lines| == 1 then ReadOp(lines[0]) else None
  }

  function Replay(steps: seq<Step>): Option<seq<Op>> {
    if steps == [] then Some([])
    else match ReadStep(steps[|steps| - 1])
      case None => None
      case Some(op) =>
        match Replay(steps[..|steps| - 1])
        case None => None
        case Some(ops) => Some(ops + [op])
  }

  /** A name: letters, digits, _ and - (and a section's never starts with `@`). */
  predicate IsName(name: string) {
    name != "" && forall i :: 0 <= i < |name| ==>
      'a' <= name[i] <= 'z' || 'A' <= name[i] <= 'Z' || '0' <= name[i] <= '9' || name[i] == '_' || name[i] == '-'
  }

  predicate NamesFit(op: Op) {
    match op
    case Delete(config, name) => IsName(config) && IsName(name)
    case DeleteFirst(config, typ) => IsName(config) && IsName(typ)
    case SetSection(config, name, typ) => IsName(config) && IsName(name) && IsName(typ)
    case SetOption(config, name, option, _) => IsName(config) && IsName(name) && IsName(option)
    case AddList(config, name, option, _) => IsName(config) && IsName(name) && IsName(option)
  }

  lemma {:induction false} CutAt(key: string, value: string)
    requires '=' !in key
    ensures Cut(key + "=" + value) == Some((key, value))
    decreases |key|
  {
    if key == "" {
      assert ("" + "=" + value)[1..] == value;
    } else {
      assert (key + "=" + value)[1..] == key[1..] + "=" + value;
      CutAt(key[1..], value);
      assert [key[0]] + key[1..] == key;
    }
  }

  lemma {:induction false} SectionSplits(config: string, name: string)
    requires IsName(config) && '.' !in name
    ensures Split(Section(config, name), '.') == [config, name]
  {
    SplitFree(config, '.');
    SplitFree(name, '.');
    assert Section(config, name) == config + ['.'] + name;
    SplitJoined(config, name, '.');
  }

  lemma {:induction false} KeySplits(config: string, name: string, option: string)
    requires IsName(config) && IsName(name) && IsName(option)
    ensures Split(Key(config, name, option), '.') == [config, name, option]
  {
    SectionSplits(config, name);
    SplitFree(option, '.');
    assert Key(config, name, option) == Section(config, name) + ['.'] + option;
    SplitJoined(Section(config, name), option, '.');
  }

  /** A batch's line: the verb, then one word, its value quoted or not. */
  lemma {:induction false} LineWords(verb: string, key: string, value: string)
    requires PlainWord(verb) && PlainWord(key)
    ensures LinesOf(verb + " " + key) == Ok([[verb, key]])
    ensures LinesOf(verb + " " + key + ShellQuote(value)) == Ok([[verb, key + value]])
  {
    var one := Lexer([], [verb], None, None);
    assert [] + [verb] == [verb] && [] + [[verb, key]] == [[verb, key]] && [] + [[verb, key + value]] == [[verb, key + value]];
    assert verb + " " + key == verb + [' '] + key;
    ScanWord(verb, ' ', key, Fresh);
    assert key + "" == key;
    ScanPlain(key, "", one);
    assert "" + key == key;
    assert [verb] + [key] == [verb, key];
    assert verb + " " + key + ShellQuote(value) == verb + [' '] + (key + (ShellQuote(value) + ""));
    ScanWord(verb, ' ', key + (ShellQuote(value) + ""), Fresh);
    ScanPlain(key, ShellQuote(value) + "", one);
    ScanQuoted(value, "", one.(word := Some(key)));
    assert [verb] + [key + value] == [verb, key + value];
  }

  lemma {:induction false} NamePlain(name: string)
    requires IsName(name)
    ensures PlainWord(name) && '=' !in name && '.' !in name
  {
  }

  lemma {:induction false} PlainJoined(a: string, b: string)
    requires PlainWord(a) && AllPlain(b)
    ensures PlainWord(a + b)
  {
  }

  lemma {:induction false} SectionPlain(config: string, name: string)
    requires IsName(config) && AllPlain(name) && '=' !in name
    ensures PlainWord(Section(config, name)) && '=' !in Section(config, name)
  {
    NamePlain(config);
    PlainJoined(config, ".");
    PlainJoined(config + ".", name);
  }

  lemma {:induction false} KeyPlain(config: string, name: string, option: string)
    requires IsName(config) && IsName(name) && IsName(option)
    ensures PlainWord(Key(config, name, option)) && '=' !in Key(config, name, option)
  {
    NamePlain(name);
    NamePlain(option);
    SectionPlain(config, name);
    PlainJoined(Section(config, name), ".");
    PlainJoined(Section(config, name) + ".", option);
  }

  lemma {:induction false} LineRead(text: string, words: seq<string>)
    requires LinesOf(text) == Ok([words])
    ensures ReadStep(Line(text)) == ReadOp(words)
  {
  }

  lemma {:induction false} DeleteRead(config: string, name: string)
    requires IsName(config) && AllPlain(name) && '.' !in name && '=' !in name
    ensures ReadStep(Line("delete " + Section(config, name))) == Some(ReadDelete(config, name))
  {
    var key := Section(config, name);
    SectionSplits(config, name);
    SectionPlain(config, name);
    LineWords("delete", key, "");
    assert "delete " + key == "delete" + " " + key;
    LineRead("delete " + key, ["delete", key]);
  }

  lemma {:induction false} DeleteStep(op: Op)
    requires NamesFit(op) && op.Delete?
    ensures ReadStep(StepOf(op)) == Some(op)
  {
    NamePlain(op.name);
    DeleteRead(op.config, op.name);
    assert op.name[0] != '@';
  }

  lemma {:induction false} DeleteFirstStep(op: Op)
    requires NamesFit(op) && op.DeleteFirst?
    ensures ReadStep(StepOf(op)) == Some(op)
  {
    var name := "@" + op.typ + "[0]";
    NamePlain(op.typ);
    DeleteRead(op.config, name);
    assert name[1..|name| - 3] == op.typ && name[|name| - 3..] == "[0]";
  }

  lemma {:induction false} SectionStep(op: Op)
    requires NamesFit(op) && op.SetSection?
    ensures ReadStep(StepOf(op)) == Some(op)
  {
    NamePlain(op.name);
    SetRead(op.config, op.name, op.typ);
  }

  lemma {:induction false} SetRead(config: string, name: string, typ: string)
    requires IsName(config) && IsName(name) && IsName(typ) && AllPlain(name) && '=' !in name && '.' !in name
    ensures ReadStep(Line("set " + Section(config, name) + "=" + typ)) == Some(SetSection(config, name, typ))
  {
    var key := Section(config, name);
    var word := key + "=" + typ;
    SectionSplits(config, name);
    SectionPlain(config, name);
    NamePlain(typ);
    CutAt(key, typ);
    PlainJoined(key, "=" + typ);
    assert key + ("=" + typ) == word;
    LineWords("set", word, "");
    assert "set " + key + "=" + typ == "set" + " " + word;
    LineRead("set" + " " + word, ["set", word]);
  }

  lemma {:induction false} WordsRead(op: Op)
    requires NamesFit(op) && (op.SetOption? || op.AddList?)
    ensures ReadOp([if op.SetOption? then "set" else "add_list", Key(op.config, op.name, op.option) + "=" + op.value]) == Some(op)
  {
    KeySplits(op.config, op.name, op.option);
    KeyPlain(op.config, op.name, op.option);
    CutAt(Key(op.config, op.name, op.option), op.value);
  }

  lemma {:induction false} ValueLineRead(verb: string, key: string, value: string)
    requires PlainWord(verb) && PlainWord(key)
    ensures ReadStep(Line((verb + " ") + key + "=" + ShellQuote(value))) == ReadOp([verb, key + "=" + value])
  {
    PlainJoined(key, "=");
    LineWords(verb, key + "=", value);
    assert (verb + " ") + key + "=" + ShellQuote(value) == verb + " " + (key + "=") + ShellQuote(value);
    LineRead((verb + " ") + key + "=" + ShellQuote(value), [verb, key + "=" + value]);
  }

  lemma {:induction false} ValueStep(op: Op)
    requires NamesFit(op) && (op.SetOption? || op.AddList?)
    ensures ReadStep(StepOf(op)) == Some(op)
  {
    var verb := if op.SetOption? then "set" else "add_list";
    WordsRead(op);
    if !Spans(op) {
      KeyPlain(op.config, op.name, op.option);
      ValueLineRead(verb, Key(op.config, op.name, op.option), op.value);
      assert verb + " " == if op.SetOption? then "set " else "add_list ";
    }
  }

  lemma {:induction false} StepRead(op: Op)
    requires NamesFit(op)
    ensures ReadStep(StepOf(op)) == Some(op)
  {
    match op
    case Delete(_, _) => DeleteStep(op);
    case DeleteFirst(_, _) => DeleteFirstStep(op);
    case SetSection(_, _, _) => SectionStep(op);
    case _ => ValueStep(op);
  }

  lemma {:induction false} StepsReplay(ops: seq<Op>)
    requires forall i :: 0 <= i < |ops| ==> NamesFit(ops[i])
    ensures Replay(StepsOf(ops)) == Some(ops)
    decreases |ops|
  {
    if ops != [] {
      var less, last := ops[..|ops| - 1], ops[|ops| - 1];
      assert StepsOf(ops)[..|ops| - 1] == StepsOf(less);
      StepsReplay(less);
      StepRead(last);
      assert less + [last] == ops;
      ReplayMore(StepsOf(ops), less, last);
    }
  }

  lemma {:induction false} ReplayMore(steps: seq<Step>, less: seq<Op>, last: Op)
    requires steps != [] && Replay(steps[..|steps| - 1]) == Some(less) && ReadStep(steps[|steps| - 1]) == Some(last)
    ensures Replay(steps) == Some(less + [last])
  {
  }

  // ----- The whole way: operations, records, stream, records, operations -----

  /** A carriage return with no line break beside it: the one thing a batch's line cannot hold. */
  predicate Returns(op: Op) {
    (op.SetOption? || op.AddList?) && '\r' in op.value && '\n' !in op.value
  }

  predicate StepSendable(step: Step) {
    match step
    case Line(text) => Records.IsLastField(text)
    case Alone(_, key, _) => Records.IsField(key)
  }

  lemma {:induction false} EscapedHolds(value: string, c: char)
    requires c == '\n' || c == '\r'
    ensures c in Escaped(value) <==> c in value
    decreases |value|
  {
    if value != "" {
      EscapedHolds(value[1..], c);
      assert c in value <==> c == value[0] || c in value[1..];
    }
  }

  lemma {:induction false} PlainSendable(word: string)
    requires PlainWord(word)
    ensures '\n' !in word
  {
  }

  lemma {:induction false} KeyFields(config: string, name: string, option: string)
    requires IsName(config) && IsName(name) && IsName(option)
    ensures Records.IsField(Key(config, name, option)) && Records.IsField(Section(config, name))
    ensures Records.IsField("@" + name + "[0]")
  {
  }

  lemma {:induction false} LineJoined(a: string, b: string)
    requires a != ""
    ensures Records.IsLastField(a + b) <==> Records.IsLastField(a) && '\n' !in b && '\r' !in b
  {
    if Records.IsLastField(a + b) {
      assert forall i :: 0 <= i < |a| ==> a[i] == (a + b)[i];
      assert forall i :: 0 <= i < |b| ==> b[i] == (a + b)[|a| + i];
    }
  }

  lemma {:induction false} ValueSendable(verb: string, key: string, value: string)
    requires Records.IsField(key) && (verb == "set " || verb == "add_list ")
    ensures Records.IsLastField(verb + key + "=" + ShellQuote(value)) <==> '\n' !in value && '\r' !in value
  {
    EscapedHolds(value, '\n');
    EscapedHolds(value, '\r');
    assert verb + key + "=" + ShellQuote(value) == verb + key + "='" + (Escaped(value) + "'");
    LineJoined(verb + key + "='", Escaped(value) + "'");
  }

  lemma {:induction false} StepSent(op: Op)
    requires NamesFit(op)
    ensures StepSendable(StepOf(op)) <==> !Returns(op)
  {
    match op
    case SetOption(config, name, option, value) =>
      KeyFields(config, name, option);
      if !Spans(op) { ValueSendable("set ", Key(config, name, option), value); }
    case AddList(config, name, option, value) =>
      KeyFields(config, name, option);
      if !Spans(op) { ValueSendable("add_list ", Key(config, name, option), value); }
    case SetSection(config, name, typ) =>
      KeyFields(config, name, typ);
    case Delete(config, name) =>
      KeyFields(config, name, name);
    case DeleteFirst(config, typ) =>
      KeyFields(config, typ, typ);
  }

  lemma {:induction false} RecordsSent(records: seq<Records.Record>)
    requires Grouped(records)
    ensures (forall i :: 0 <= i < |records| ==> Records.Sendable(records[i]))
      <==> forall i :: 0 <= i < |Steps(records)| ==> StepSendable(Steps(records)[i])
    decreases |records|
  {
    if records != [] {
      var less, last := records[..|records| - 1], records[|records| - 1];
      RecordsSent(less);
      RecordSent(last);
      EveryJoined(Steps(less), StepsIn(last));
      assert Steps(records) == Steps(less) + StepsIn(last);
      assert forall i :: 0 <= i < |records| ==> if i < |less| then records[i] == less[i] else records[i] == last;
      assert forall i :: 0 <= i < |less| ==> less[i] == records[i];
    }
  }

  lemma {:induction false} EveryJoined(a: seq<Step>, b: seq<Step>)
    ensures (forall i :: 0 <= i < |a + b| ==> StepSendable((a + b)[i]))
      <==> (forall i :: 0 <= i < |a| ==> StepSendable(a[i])) && forall i :: 0 <= i < |b| ==> StepSendable(b[i])
  {
    assert forall i :: 0 <= i < |a| ==> (a + b)[i] == a[i];
    assert forall i :: 0 <= i < |b| ==> (a + b)[|a| + i] == b[i];
  }

  lemma {:induction false} RecordSent(record: Records.Record)
    requires record.Valued? || record.Batch?
    ensures Records.Sendable(record) <==> forall i :: 0 <= i < |StepsIn(record)| ==> StepSendable(StepsIn(record)[i])
  {
    match record
    case Batch(lines) =>
      assert forall i :: 0 <= i < |lines| ==> StepsIn(record)[i] == Line(lines[i]);
    case Valued(kind, key, value) =>
      assert StepsIn(record)[0] == Alone(kind, key, value);
  }

  /** Whatever values hold, the agent replays exactly the operations meant, in order: the stream is
      refused just when a value holds a carriage return and no line break, and otherwise what is
      received, read by uci, is those operations. */
  lemma {:induction false} StreamReplays(ops: seq<Op>, records: seq<Records.Record>)
    requires forall i :: 0 <= i < |ops| ==> NamesFit(ops[i])
    requires Steps(records) == StepsOf(ops) && Grouped(records)
    ensures Records.EncodeRecords(records).Ok? <==> forall i :: 0 <= i < |ops| ==> !Returns(ops[i])
    ensures Records.EncodeRecords(records).Ok? ==>
      Records.Decode(Records.EncodeRecords(records).value) == Ok(records) && Replay(Steps(records)) == Some(ops)
  {
    RecordStream.SentIsReceived(records);
    RecordsSent(records);
    forall i | 0 <= i < |ops| ensures StepSendable(Steps(records)[i]) <==> !Returns(ops[i]) { StepSent(ops[i]); }
    assert RecordStream.AllLanded(records) == records;
    StepsReplay(ops);
  }
}
