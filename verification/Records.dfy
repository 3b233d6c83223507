/** What an agent verb is told on its stdin (src/agent/records.ts): a record a line, some with a
    body of as many lines as they say. */
module Records {
  import opened Wrappers
  import opened Text

  type NamedKind = s: string | s == "remove" || s == "add" || s == "commit" || s == "protocol" || s == "enable" || s == "disable"
    witness "remove"

  type ValuedKind = s: string | s == "set" || s == "add_list" witness "set"

  datatype Record =
    | Seed(path: string, content: string)
    | Named(kind: NamedKind, name: string)
    | Restart(service: string, config: Option<string>)
    | Batch(operations: seq<string>)
    | Valued(op: ValuedKind, key: string, value: string)
    | RemoveFile(path: string)
    | Write(path: string, mode: string, content: string, runAfter: Option<string>)
    | Command(command: string)

  // ----- Sending -----

  /** A file's text, ending in a line break. */
  function Body(text: string): string {
    if text != "" && text[|text| - 1] == '\n' then text else text + "\n"
  }

  /** How many lines a body has. */
  function Count(body: string): (s: string)
    ensures IsDecimal(s)
  {
    Decimal(|Split(body, '\n')| - 1)
  }

  predicate IsField(text: string) {
    text != "" && forall i :: 0 <= i < |text| ==> !IsSpace(text[i])
  }

  predicate IsLastField(text: string) {
    text != "" && forall i :: 0 <= i < |text| ==> text[i] != '\n' && text[i] != '\r'
  }

  /** Whether a record can be sent: its fields words, its last one a line. */
  predicate Sendable(record: Record) {
    match record
    case Seed(path, _) => IsLastField(path)
    case Named(_, name) => IsField(name)
    case Restart(name, config) => IsField(name) && (config.Some? ==> IsField(config.value))
    case Batch(operations) => forall i :: 0 <= i < |operations| ==> IsLastField(operations[i])
    case Valued(_, key, _) => IsField(key)
    case RemoveFile(path) => IsLastField(path)
    case Write(path, mode, _, _) => IsField(mode) && IsLastField(path)
    case Command(_) => true
  }

  function Header(record: Record): string {
    match record
    case Seed(path, content) => "seed " + Count(Body(content)) + " " + path
    case Named(kind, name) => kind + " " + name
    case Restart(name, config) => "restart " + name + (if config.Some? then " " + config.value else "")
    case Batch(operations) => "batch " + Count(Join(operations, '\n') + "\n")
    case Valued(kind, key, value) => kind + " " + Count(value + "\n") + " " + key
    case RemoveFile(path) => "remove-file " + path
    case Write(path, mode, content, runAfter) =>
      "write " + Count(Body(content)) + " " + Count(if runAfter.Some? then runAfter.value + "\n" else "") + " " + mode + " " + path
    case Command(command) => "run " + Count(command + "\n")
  }

  function BodyOf(record: Record): string {
    match record
    case Seed(_, content) => Body(content)
    case Batch(operations) => Join(operations, '\n') + "\n"
    case Valued(_, _, value) => value + "\n"
    case Write(_, _, content, runAfter) => Body(content) + if runAfter.Some? then runAfter.value + "\n" else ""
    case Command(command) => command + "\n"
    case _ => ""
  }

  function EncodeOne(record: Record): Result<string> {
    if Sendable(record) then Ok(Header(record) + "\n" + BodyOf(record)) else Err
  }

  function EncodeRecords(records: seq<Record>): Result<string> {
    if records == [] then Ok("end\n")
    else match EncodeOne(records[0])
      case Err => Err
      case Ok(text) =>
        match EncodeRecords(records[1..])
        case Err => Err
        case Ok(rest) => Ok(text + rest)
  }

  // ----- Receiving -----

  function After(words: seq<string>, n: nat): string {
    if n < |words| then Join(words[n..], ' ') else ""
  }

  /** A body: lines after the first `at`, each ended. */
  function Take(lines: seq<string>, at: nat, count: nat): string
    requires at + count <= |lines|
  {
    Join(lines[at..at + count], '\n') + "\n"
  }

  function Unended(body: string): string
    requires body != ""
  {
    body[..|body| - 1]
  }

  predicate IsNamedKind(kind: string) {
    kind == "remove" || kind == "add" || kind == "commit" || kind == "protocol" || kind == "enable" || kind == "disable"
  }

  /** A record with no body. */
  function DecodeBare(kind: string, rest: seq<string>): Result<Record> {
    if IsNamedKind(kind) then Ok(Named(kind, After(rest, 0)))
    else if kind == "remove-file" then Ok(RemoveFile(After(rest, 0)))
    else if kind == "restart" && rest != [] then Ok(Restart(rest[0], if |rest| > 1 then Some(After(rest, 1)) else None))
    else Err
  }

  /** A record with one body. */
  function DecodeWith(kind: string, rest: seq<string>, body: string): Result<Record>
    requires body != ""
  {
    if kind == "seed" then Ok(Seed(After(rest, 1), body))
    else if kind == "batch" then Ok(Batch(Split(Unended(body), '\n')))
    else if kind == "set" || kind == "add_list" then Ok(Valued(kind, After(rest, 1), Unended(body)))
    else if kind == "run" then Ok(Command(Unended(body)))
    else Err
  }

  predicate HasOneBody(kind: string) {
    kind == "seed" || kind == "batch" || kind == "set" || kind == "add_list" || kind == "run"
  }

  function DecodeWrite(rest: seq<string>, lines: seq<string>): (r: Result<(Record, nat)>)
    requires lines != [] && rest != [] && IsDecimal(rest[0])
    ensures r.Ok? ==> 0 < r.value.1 <= |lines|
  {
    var n1 := Number(rest[0]);
    var n2 := if |rest| > 1 && IsDecimal(rest[1]) then Number(rest[1]) else 0;
    if |rest| < 3 || 1 + n1 + n2 > |lines| then Err
    else Ok((Write(After(rest, 3), rest[2], Take(lines, 1, n1), if n2 > 0 then Some(Unended(Take(lines, 1 + n1, n2))) else None), 1 + n1 + n2))
  }

  /** The record lines start with, and how many it takes. */
  function DecodeOne(lines: seq<string>): (r: Result<(Record, nat)>)
    requires lines != []
    ensures r.Ok? ==> 0 < r.value.1 <= |lines|
  {
    var words := Split(lines[0], ' ');
    var kind, rest := words[0], words[1..];
    if HasOneBody(kind) then
      if rest == [] || !IsDecimal(rest[0]) || 1 + Number(rest[0]) > |lines| then Err
      else match DecodeWith(kind, rest, Take(lines, 1, Number(rest[0])))
        case Err => Err
        case Ok(record) => Ok((record, 1 + Number(rest[0])))
    else if kind == "write" then
      if rest == [] || !IsDecimal(rest[0]) then Err else DecodeWrite(rest, lines)
    else match DecodeBare(kind, rest)
      case Err => Err
      case Ok(record) => Ok((record, 1))
  }

  function Prepend(records: seq<Record>, rest: Result<seq<Record>>): Result<seq<Record>> {
    if rest.Ok? then Ok(records + rest.value) else Err
  }

  /** The records up to the line "end". */
  function DecodeLines(lines: seq<string>): Result<seq<Record>>
    decreases |lines|
  {
    if lines == [] then Err
    else if lines[0] == "end" then Ok([])
    else match DecodeOne(lines)
      case Err => Err
      case Ok((record, taken)) => Prepend([record], DecodeLines(lines[taken..]))
  }

  function Decode(text: string): Result<seq<Record>> {
    var all := Split(text, '\n');
    if |all| < 2 || all[|all| - 2] != "end" then Err else DecodeLines(all)
  }

  type Reader = seq<string> -> Result<(Record, nat)>

  /** The records up to the line "end", by whatever reads one. */
  function DecodeBy(read: Reader, lines: seq<string>): Result<seq<Record>>
    decreases |lines|
  {
    if lines == [] then Err
    else if lines[0] == "end" then Ok([])
    else match read(lines)
      case Err => Err
      case Ok((record, taken)) => if 0 < taken <= |lines| then Prepend([record], DecodeBy(read, lines[taken..])) else Err
  }

  lemma {:induction false} DecodeBySame(lines: seq<string>)
    ensures DecodeBy(ReadOne, lines) == DecodeLines(lines)
    decreases |lines|
  {
    if lines != [] && DecodeOne(lines).Ok? { DecodeBySame(lines[DecodeOne(lines).value.1..]); }
  }

  function ReadOne(lines: seq<string>): Result<(Record, nat)> {
    if lines == [] then Err else DecodeOne(lines)
  }

  lemma {:induction false} Turn(read: Reader, all: seq<string>, at: nat, records: seq<Record>)
    requires at < |all| && all[at] != "end"
    ensures Prepend(records, DecodeBy(read, all[at..])) == match read(all[at..])
      case Err => Err
      case Ok((record, taken)) =>
        if 0 < taken <= |all| - at then Prepend(records + [record], DecodeBy(read, all[at + taken..])) else Err
  {
    if read(all[at..]).Ok? {
      var (record, taken) := read(all[at..]).value;
      if 0 < taken <= |all| - at {
        assert all[at..][taken..] == all[at + taken..];
        var rest := DecodeBy(read, all[at + taken..]);
        if rest.Ok? { assert records + ([record] + rest.value) == records + [record] + rest.value; }
      }
    }
  }

  /** The loop that reads record after record, from where the last left off. */
  method DecodeAll(read: Reader, all: seq<string>) returns (result: Result<seq<Record>>)
    ensures result == DecodeBy(read, all)
  {
    var records, at := [], 0;
    assert all[0..] == all;
    if DecodeBy(read, all).Ok? { assert [] + DecodeBy(read, all).value == DecodeBy(read, all).value; }
    while at < |all| && all[at] != "end"
      invariant 0 <= at <= |all|
      invariant DecodeBy(read, all) == Prepend(records, DecodeBy(read, all[at..]))
    {
      Turn(read, all, at, records);
      var one := read(all[at..]);
      if one.Err? || !(0 < one.value.1 <= |all| - at) { return Err; }
      records := records + [one.value.0];
      at := at + one.value.1;
    }
    assert records + [] == records;
    if at == |all| { return Err; }
    return Ok(records);
  }

  method DecodeRecords(text: string) returns (result: Result<seq<Record>>)
    ensures result == Decode(text)
  {
    var all := Split(text, '\n');
    if |all| < 2 || all[|all| - 2] != "end" { return Err; }
    DecodeBySame(all);
    result := DecodeAll(ReadOne, all);
  }

  // ----- What is sent is received -----

  /** A record as it lands: a file's text ends in a line break, and no operation is an empty one. */
  function Landed(record: Record): Record {
    match record
    case Seed(path, content) => Seed(path, Body(content))
    case Write(path, mode, content, runAfter) => Write(path, mode, Body(content), runAfter)
    case Batch(operations) => if operations == [] then Batch([""]) else record
    case _ => record
  }

  /** A body's lines. */
  function Lines(body: string): seq<string> {
    if body == "" then [] else Split(Unended(body), '\n')
  }

  predicate Ends(body: string) {
    body != "" && body[|body| - 1] == '\n'
  }

  lemma {:induction false} BodySplit(body: string, tail: string)
    requires Ends(body)
    ensures Split(body + tail, '\n') == Lines(body) + Split(tail, '\n')
    ensures Count(body) == Decimal(|Lines(body)|)
    ensures Join(Lines(body), '\n') + "\n" == body
  {
    assert body + tail == Unended(body) + ['\n'] + tail;
    assert body == Unended(body) + ['\n'] + "";
    SplitJoined(Unended(body), tail, '\n');
    SplitJoined(Unended(body), "", '\n');
    JoinOfSplit(Unended(body), '\n');
  }

  lemma {:induction false} Taken(before: seq<string>, body: string, more: seq<string>)
    requires Ends(body)
    ensures Take(before + Lines(body) + more, |before|, |Lines(body)|) == body
  {
    BodySplit(body, "");
    assert (before + Lines(body) + more)[|before|..|before| + |Lines(body)|] == Lines(body);
  }

  lemma {:induction false} Ended(text: string)
    ensures Ends(text + "\n") && Unended(text + "\n") == text && Ends(Body(text))
  {
  }

  /** The first words of a header, and what is left. */
  lemma {:induction false} HeaderWords(first: string, rest: string)
    requires ' ' !in first
    ensures Split(first + " " + rest, ' ') == [first] + Split(rest, ' ')
  {
    SplitFree(first, ' ');
    SplitJoined(first, rest, ' ');
    assert first + " " + rest == first + [' '] + rest;
  }

  lemma {:induction false} CountWord(n: nat)
    ensures ' ' !in Decimal(n) && '\n' !in Decimal(n)
  {
    NumberOfDecimal(n);
  }

  function BodyLines(record: Record): seq<string> {
    match record
    case Write(_, _, content, runAfter) => Lines(Body(content)) + if runAfter.Some? then Lines(runAfter.value + "\n") else []
    case _ => Lines(BodyOf(record))
  }

  lemma {:induction false} OneBodyReceived(header: string, kind: string, rest: seq<string>, body: string, more: seq<string>)
    requires Split(header, ' ') == [kind] + rest && HasOneBody(kind)
    requires rest != [] && rest[0] == Count(body) && Ends(body)
    requires DecodeWith(kind, rest, body).Ok?
    ensures DecodeOne([header] + Lines(body) + more) == Ok((DecodeWith(kind, rest, body).value, 1 + |Lines(body)|))
  {
    BodySplit(body, "");
    NumberOfDecimal(|Lines(body)|);
    Taken([header], body, more);
    assert ([kind] + rest)[1..] == rest;
  }

  lemma {:induction false} SeedReceived(path: string, content: string, more: seq<string>)
    requires IsLastField(path)
    ensures DecodeOne([Header(Seed(path, content))] + Lines(Body(content)) + more) == Ok((Seed(path, Body(content)), 1 + |Lines(Body(content))|))
  {
    var body := Body(content);
    var header := "seed " + Count(body) + " " + path;
    Ended(content);
    CountWord(|Split(body, '\n')| - 1);
    HeaderWords("seed", Count(body) + " " + path);
    HeaderWords(Count(body), path);
    assert header == "seed" + " " + (Count(body) + " " + path);
    var rest := [Count(body)] + Split(path, ' ');
    JoinOfSplit(path, ' ');
    assert rest[1..] == Split(path, ' ');
    OneBodyReceived(header, "seed", rest, body, more);
  }

  lemma {:induction false} ValuedReceived(kind: ValuedKind, key: string, value: string, more: seq<string>)
    requires IsField(key)
    ensures var record, lines := Valued(kind, key, value), Lines(value + "\n");
      DecodeOne([Header(record)] + lines + more) == Ok((record, 1 + |lines|))
  {
    var body := value + "\n";
    var header := kind + " " + Count(body) + " " + key;
    Ended(value);
    CountWord(|Split(body, '\n')| - 1);
    HeaderWords(kind, Count(body) + " " + key);
    HeaderWords(Count(body), key);
    assert header == kind + " " + (Count(body) + " " + key);
    var rest := [Count(body)] + Split(key, ' ');
    JoinOfSplit(key, ' ');
    assert rest[1..] == Split(key, ' ');
    OneBodyReceived(header, kind, rest, body, more);
  }

  lemma {:induction false} CommandReceived(command: string, more: seq<string>)
    ensures var record, lines := Command(command), Lines(command + "\n");
      DecodeOne([Header(record)] + lines + more) == Ok((record, 1 + |lines|))
  {
    var body := command + "\n";
    Ended(command);
    CountWord(|Split(body, '\n')| - 1);
    HeaderWords("run", Count(body));
    assert "run " + Count(body) == "run" + " " + Count(body);
    SplitFree(Count(body), ' ');
    OneBodyReceived("run " + Count(body), "run", [Count(body)], body, more);
  }

  lemma {:induction false} BatchReceived(operations: seq<string>, more: seq<string>)
    requires Sendable(Batch(operations))
    ensures var record, lines := Batch(operations), Lines(Join(operations, '\n') + "\n");
      DecodeOne([Header(record)] + lines + more) == Ok((Landed(record), 1 + |lines|))
  {
    var body := Join(operations, '\n') + "\n";
    Ended(Join(operations, '\n'));
    CountWord(|Split(body, '\n')| - 1);
    HeaderWords("batch", Count(body));
    assert "batch " + Count(body) == "batch" + " " + Count(body);
    SplitFree(Count(body), ' ');
    if operations != [] { SplitOfJoin(operations, '\n'); }
    OneBodyReceived("batch " + Count(body), "batch", [Count(body)], body, more);
  }

  lemma {:induction false} NamedReceived(kind: NamedKind, name: string, more: seq<string>)
    ensures DecodeOne([Header(Named(kind, name))] + more) == Ok((Named(kind, name), 1))
  {
    HeaderWords(kind, name);
    JoinOfSplit(name, ' ');
    assert ([kind] + Split(name, ' '))[1..] == Split(name, ' ');
    assert DecodeBare(kind, Split(name, ' ')) == Ok(Named(kind, name));
  }

  lemma {:induction false} RemoveFileReceived(path: string, more: seq<string>)
    ensures DecodeOne([Header(RemoveFile(path))] + more) == Ok((RemoveFile(path), 1))
  {
    HeaderWords("remove-file", path);
    assert "remove-file " + path == "remove-file" + " " + path;
    JoinOfSplit(path, ' ');
    assert (["remove-file"] + Split(path, ' '))[1..] == Split(path, ' ');
    assert DecodeBare("remove-file", Split(path, ' ')) == Ok(RemoveFile(path));
  }

  lemma {:induction false} RestartReceived(name: string, config: Option<string>, more: seq<string>)
    requires Sendable(Restart(name, config))
    ensures DecodeOne([Header(Restart(name, config))] + more) == Ok((Restart(name, config), 1))
  {
    var header := Header(Restart(name, config));
    if config.Some? {
      RestartWords(name, config.value);
      RestartHeaded(header, [name, config.value], more);
      assert [name, config.value][1..] == [config.value];
    } else {
      HeaderWords("restart", name);
      assert header == "restart" + " " + name;
      SplitFree(name, ' ');
      RestartHeaded(header, [name], more);
    }
  }

  lemma {:induction false} RestartWords(name: string, config: string)
    requires IsField(name) && IsField(config)
    ensures Split("restart " + name + (" " + config), ' ') == ["restart"] + [name, config]
  {
    HeaderWords("restart", name + " " + config);
    assert "restart " + name + (" " + config) == "restart" + " " + (name + " " + config);
    HeaderWords(name, config);
    SplitFree(config, ' ');
  }

  lemma {:induction false} RestartHeaded(header: string, rest: seq<string>, more: seq<string>)
    requires Split(header, ' ') == ["restart"] + rest && rest != []
    ensures DecodeOne([header] + more) == Ok((Restart(rest[0], if |rest| > 1 then Some(Join(rest[1..], ' ')) else None), 1))
  {
    assert (["restart"] + rest)[1..] == rest;
    assert DecodeBare("restart", rest) == Ok(Restart(rest[0], if |rest| > 1 then Some(Join(rest[1..], ' ')) else None));
  }

  lemma {:induction false} FiveWords(a: string, b: string, c: string, d: string, rest: string)
    requires ' ' !in a && ' ' !in b && ' ' !in c && ' ' !in d
    ensures Split(a + " " + (b + " " + (c + " " + (d + " " + rest))), ' ') == [a] + ([b, c, d] + Split(rest, ' '))
  {
    var three := d + " " + rest;
    var two := c + " " + three;
    HeaderWords(a, b + " " + two);
    HeaderWords(b, two);
    HeaderWords(c, three);
    HeaderWords(d, rest);
  }

  /** The body of a write's runAfter. */
  function AfterBody(runAfter: Option<string>): string {
    if runAfter.Some? then runAfter.value + "\n" else ""
  }

  lemma {:induction false} WriteWords(path: string, mode: string, content: string, runAfter: Option<string>)
    requires IsField(mode)
    ensures Split(Header(Write(path, mode, content, runAfter)), ' ')
      == ["write"] + ([Count(Body(content)), Count(AfterBody(runAfter)), mode] + Split(path, ' '))
  {
    var one, two := Count(Body(content)), Count(AfterBody(runAfter));
    CountWord(|Split(Body(content), '\n')| - 1);
    CountWord(|Split(AfterBody(runAfter), '\n')| - 1);
    FiveWords("write", one, two, mode, path);
    assert "write " == "write" + " ";
    Nested("write", " ", one, two, mode, path);
  }

  lemma {:induction false} Nested(a: string, space: string, b: string, c: string, d: string, e: string)
    ensures (a + space) + b + space + c + space + d + space + e == a + space + (b + space + (c + space + (d + space + e)))
  {
    assert c + space + (d + space + e) == c + space + d + space + e;
    assert b + space + (c + space + d + space + e) == b + space + c + space + d + space + e;
  }

  lemma {:induction false} Slices(header: string, one: seq<string>, two: seq<string>, more: seq<string>)
    ensures var lines := [header] + (one + two) + more;
      && lines[1..1 + |one|] == one
      && lines[1 + |one|..1 + |one| + |two|] == two
  {
    var lines := [header] + (one + two) + more;
    assert lines == [header] + one + (two + more);
    assert lines == ([header] + one) + two + more;
  }

  lemma {:induction false} WriteReceived(path: string, mode: string, content: string, runAfter: Option<string>, more: seq<string>)
    requires IsField(mode)
    ensures var record := Write(path, mode, content, runAfter);
      DecodeOne([Header(record)] + BodyLines(record) + more) == Ok((Write(path, mode, Body(content), runAfter), 1 + |BodyLines(record)|))
  {
    var a, b := WriteParts(path, mode, content, runAfter);
    var rest := [Count(Body(content)), Count(AfterBody(runAfter)), mode] + Split(path, ' ');
    Slices(Header(Write(path, mode, content, runAfter)), a, b, more);
    WriteAt(rest, [Header(Write(path, mode, content, runAfter))] + (a + b) + more, path, mode, a, b);
  }

  /** A write's bodies, line by line, and its header's words. */
  lemma {:induction false} WriteParts(path: string, mode: string, content: string, runAfter: Option<string>) returns (a: seq<string>, b: seq<string>)
    requires IsField(mode)
    ensures BodyLines(Write(path, mode, content, runAfter)) == a + b
    ensures Joined(a) == Body(content) && (if |b| > 0 then Some(Unended(Joined(b))) else None) == runAfter
    ensures var rest := [Count(Body(content)), Count(AfterBody(runAfter)), mode] + Split(path, ' ');
      IsWrite(rest, path, mode, |a|, |b|) && Split(Header(Write(path, mode, content, runAfter)), ' ') == ["write"] + rest
  {
    a, b := Lines(Body(content)), Lines(AfterBody(runAfter));
    WriteLines(path, mode, content, runAfter);
    WriteWords(path, mode, content, runAfter);
    EndedBodies(content, runAfter);
    Counted(Body(content));
    Counted(AfterBody(runAfter));
    WriteRest(path, mode, Count(Body(content)), Count(AfterBody(runAfter)));
  }

  lemma {:induction false} WriteRest(path: string, mode: string, one: string, two: string)
    ensures var rest := [one, two, mode] + Split(path, ' ');
      |rest| > 3 && rest[0] == one && rest[1] == two && rest[2] == mode && Join(rest[3..], ' ') == path
  {
    var rest := [one, two, mode] + Split(path, ' ');
    assert rest[3..] == Split(path, ' ');
    JoinOfSplit(path, ' ');
  }

  lemma {:induction false} WriteLines(path: string, mode: string, content: string, runAfter: Option<string>)
    ensures BodyLines(Write(path, mode, content, runAfter)) == Lines(Body(content)) + Lines(AfterBody(runAfter))
  {
  }

  lemma {:induction false} EndedBodies(content: string, runAfter: Option<string>)
    ensures Ends(Body(content)) && (AfterBody(runAfter) == "" || Ends(AfterBody(runAfter)))
    ensures (if AfterBody(runAfter) == "" then None else Some(Unended(AfterBody(runAfter)))) == runAfter
    ensures runAfter.Some? <==> Lines(AfterBody(runAfter)) != []
  {
    Ended(content);
    if runAfter.Some? { Ended(runAfter.value); }
  }

  lemma {:induction false} Counted(body: string)
    requires body == "" || Ends(body)
    ensures Number(Count(body)) == |Lines(body)| && (body != "" <==> |Lines(body)| > 0)
    ensures body != "" ==> Join(Lines(body), '\n') + "\n" == body
  {
    if body != "" { BodySplit(body, ""); }
    NumberOfDecimal(|Lines(body)|);
  }

  /** Lines that start with a header and two bodies. */
  predicate HasBodies(lines: seq<string>, a: seq<string>, b: seq<string>) {
    1 + |a| + |b| <= |lines| && lines[1..1 + |a|] == a && lines[1 + |a|..1 + |a| + |b|] == b
  }

  /** The words of a write's header, for so many lines. */
  predicate IsWrite(rest: seq<string>, path: string, mode: string, a: nat, b: nat) {
    && |rest| > 3 && rest[2] == mode && Join(rest[3..], ' ') == path
    && IsDecimal(rest[0]) && Number(rest[0]) == a && IsDecimal(rest[1]) && Number(rest[1]) == b
  }

  function Joined(lines: seq<string>): string {
    Join(lines, '\n') + "\n"
  }

  lemma {:induction false} WriteBodies(rest: seq<string>, lines: seq<string>, path: string, mode: string, a: seq<string>, b: seq<string>)
    requires IsWrite(rest, path, mode, |a|, |b|) && HasBodies(lines, a, b)
    ensures DecodeWrite(rest, lines) == Ok((Write(path, mode, Joined(a), if |b| > 0 then Some(Unended(Joined(b))) else None), 1 + |a| + |b|))
  {
  }

  lemma {:induction false} WriteAt(rest: seq<string>, lines: seq<string>, path: string, mode: string, a: seq<string>, b: seq<string>)
    requires IsWrite(rest, path, mode, |a|, |b|) && HasBodies(lines, a, b)
    requires Split(lines[0], ' ') == ["write"] + rest
    ensures DecodeOne(lines) == Ok((Write(path, mode, Joined(a), if |b| > 0 then Some(Unended(Joined(b))) else None), 1 + |a| + |b|))
  {
    assert (["write"] + rest)[1..] == rest;
    WriteBodies(rest, lines, path, mode, a, b);
  }

  /** A record sent is the record received, with what follows it untouched. */
  lemma {:induction false} Received(record: Record, more: seq<string>)
    requires Sendable(record)
    ensures DecodeOne([Header(record)] + BodyLines(record) + more) == Ok((Landed(record), 1 + |BodyLines(record)|))
  {
    match record
    case Seed(path, content) => SeedReceived(path, content, more);
    case Valued(kind, key, value) => ValuedReceived(kind, key, value, more);
    case Command(command) => CommandReceived(command, more);
    case Batch(operations) => BatchReceived(operations, more);
    case Write(path, mode, content, runAfter) => WriteReceived(path, mode, content, runAfter, more);
    case _ =>
      BareReceived(record, more);
      assert [Header(record)] + [] == [Header(record)];
  }

  lemma {:induction false} BareReceived(record: Record, more: seq<string>)
    requires Sendable(record) && (record.Named? || record.RemoveFile? || record.Restart?)
    ensures DecodeOne([Header(record)] + more) == Ok((record, 1))
  {
    match record
    case Named(kind, name) => NamedReceived(kind, name, more);
    case RemoveFile(path) => RemoveFileReceived(path, more);
    case Restart(name, config) => RestartReceived(name, config, more);
  }
}
