/** The reader that acts on a stream of records: the agent's own (src/agent/script.ts, read_input
    and each_record), by lines and counts. */
module AgentReader {
  import opened Wrappers
  import opened Text
  import opened Records
  import opened RecordStream

  /** A record as it is acted on: its header, and the lines of its body that were there. */
  datatype Fed = Fed(header: string, body: seq<string>)

  /** What was acted on, and whether the reader came to its end. */
  datatype Outcome = Outcome(fed: seq<Fed>, ok: bool)

  /** A file's lines, of its text split at each line break: an empty last one is none. */
  function FileLines(lines: seq<string>): seq<string> {
    if lines != [] && lines[|lines| - 1] == "" then lines[..|lines| - 1] else lines
  }

  /** The one test of a whole input: its last line. */
  predicate EndsWell(lines: seq<string>) {
    var file := FileLines(lines);
    file != [] && file[|file| - 1] == "end"
  }

  function CountAt(words: seq<string>, k: nat): Option<nat> {
    if k < |words| && IsDecimal(words[k]) then Some(Number(words[k])) else None
  }

  /** How many lines of body a header tells of; None for a bad count. */
  function Told(header: string): Option<nat> {
    var words := Split(header, ' ');
    if HasOneBody(words[0]) then CountAt(words, 1)
    else if words[0] != "write" then Some(0)
    else if CountAt(words, 1).Some? && CountAt(words, 2).Some? then Some(CountAt(words, 1).value + CountAt(words, 2).value)
    else None
  }

  /** What tells of a header how many lines of body follow it. */
  type Teller = string -> Option<nat>

  /** Up to so many lines after the first: those that are there. */
  function BodyThere(lines: seq<string>, count: nat): seq<string>
    requires |lines| > 2
  {
    var file := FileLines(lines);
    if 1 + count <= |file| then file[1..1 + count] else file[1..]
  }

  function Past(lines: seq<string>, count: nat): seq<string> {
    if 1 + count <= |lines| then lines[1 + count..] else []
  }

  /** The records read from a file's lines on: headers only before the last line break's. */
  function Feed(tell: Teller, lines: seq<string>): Outcome
    decreases |lines|
  {
    if |lines| <= 2 then Outcome([], true)
    else match tell(lines[0])
      case None => Outcome([], false)
      case Some(count) =>
        var rest := Feed(tell, Past(lines, count));
        Outcome([Fed(lines[0], BodyThere(lines, count))] + rest.fed, rest.ok)
  }

  function After(fed: seq<Fed>, rest: Outcome): Outcome {
    Outcome(fed + rest.fed, rest.ok)
  }

  /** What is read from a line on: nothing near the end, or one record and then what is read past
      its body. */
  predicate ReadsAt(tell: Teller, lines: seq<string>, from: nat -> Outcome, n: nat) {
    from(n) ==
      if n + 2 >= |lines| then Outcome([], true)
      else if tell(lines[n]).None? then Outcome([], false)
      else After([Fed(lines[n], BodyThere(lines[n..], tell(lines[n]).value))], from(n + 1 + tell(lines[n]).value))
  }

  ghost predicate Reads(tell: Teller, lines: seq<string>, from: nat -> Outcome) {
    forall n: nat :: ReadsAt(tell, lines, from, n)
  }

  /** The loop: line by line past each record's body, by its count. */
  method EachOf(tell: Teller, lines: seq<string>, ghost from: nat -> Outcome) returns (fed: seq<Fed>, ok: bool)
    requires Reads(tell, lines, from)
    ensures Outcome(fed, ok) == from(0)
  {
    var n: nat := 0;
    fed := [];
    assert [] + from(0).fed == from(0).fed;
    while n + 1 < |lines| - 1
      invariant from(0) == After(fed, from(n))
    {
      assert ReadsAt(tell, lines, from, n);
      var count := tell(lines[n]);
      if count.None? {
        assert fed + [] == fed;
        return fed, false;
      }
      var one := Fed(lines[n], BodyThere(lines[n..], count.value));
      assert fed + ([one] + from(n + 1 + count.value).fed) == fed + [one] + from(n + 1 + count.value).fed;
      fed := fed + [one];
      n := n + 1 + count.value;
    }
    assert ReadsAt(tell, lines, from, n);
    assert fed + [] == fed;
    ok := true;
  }

  method EachRecord(text: string) returns (fed: seq<Fed>, ok: bool)
    ensures Outcome(fed, ok) == Feed(Told, Split(text, '\n'))
  {
    var lines := Split(text, '\n');
    FeedReads(Told, lines);
    fed, ok := EachOf(Told, lines, (n: nat) => FeedFrom(Told, lines, n));
    assert lines[0..] == lines;
  }

  ghost function FeedFrom(tell: Teller, lines: seq<string>, n: nat): Outcome {
    Feed(tell, if n <= |lines| then lines[n..] else [])
  }

  lemma {:induction false} FeedReads(tell: Teller, lines: seq<string>)
    ensures Reads(tell, lines, (n: nat) => FeedFrom(tell, lines, n))
  {
    var from := (n: nat) => FeedFrom(tell, lines, n);
    forall n: nat ensures ReadsAt(tell, lines, from, n) {
      if n + 2 < |lines| && tell(lines[n]).Some? {
        var count := tell(lines[n]).value;
        assert n + 1 + count <= |lines| ==> lines[n..][1 + count..] == lines[n + 1 + count..];
      }
    }
  }

  // ----- A whole stream -----

  /** As many lines as are taken from a stream. */
  lemma {:induction false} TakenTold(lines: seq<string>)
    requires lines != [] && DecodeOne(lines).Ok?
    requires var words := Split(lines[0], ' '); words[0] == "write" ==> CountAt(words, 1).Some? && CountAt(words, 2).Some?
    ensures Told(lines[0]) == Some(DecodeOne(lines).value.1 - 1)
  {
    var words := Split(lines[0], ' ');
    var kind, rest := words[0], words[1..];
    if HasOneBody(kind) {
      assert IsDecimal(rest[0]) && DecodeOne(lines).value.1 == 1 + Number(rest[0]);
      assert words[1] == rest[0];
    } else if kind == "write" {
      TakenByWrite(rest, lines);
      assert DecodeOne(lines) == DecodeWrite(rest, lines);
      assert words[1] == rest[0] && words[2] == rest[1];
    }
  }

  lemma {:induction false} TakenByWrite(rest: seq<string>, lines: seq<string>)
    requires lines != [] && |rest| > 1 && IsDecimal(rest[0]) && IsDecimal(rest[1])
    ensures DecodeWrite(rest, lines).Ok? ==> DecodeWrite(rest, lines).value.1 == 1 + Number(rest[0]) + Number(rest[1])
  {
  }

  /** A header tells of its body's lines. */
  lemma {:induction false} ToldRight(record: Record)
    requires Sendable(record)
    ensures Told(Header(record)) == Some(|BodyLines(record)|)
  {
    Received(record, []);
    WordsTold(record);
    TakenTold([Header(record)] + BodyLines(record) + []);
  }

  lemma {:induction false} WordsTold(record: Record)
    requires Sendable(record)
    ensures var words := Split(Header(record), ' '); words[0] == "write" ==> CountAt(words, 1).Some? && CountAt(words, 2).Some?
  {
    if record.Write? {
      WriteTold(record.path, record.mode, record.content, record.runAfter);
    } else {
      Received(record, []);
    }
  }

  lemma {:induction false} WriteTold(path: string, mode: string, content: string, runAfter: Option<string>)
    requires IsField(mode) && IsLastField(path)
    ensures var words := Split(Header(Write(path, mode, content, runAfter)), ' ');
      words[0] == "write" && CountAt(words, 1).Some? && CountAt(words, 2).Some?
  {
    WriteWords(path, mode, content, runAfter);
  }

  /** A stream's records, as they are all acted on. */
  function AllFed(records: seq<Record>): seq<Fed> {
    seq(|records|, i requires 0 <= i < |records| => Fed(Header(records[i]), BodyLines(records[i])))
  }

  /** A header that tells of its body's lines, and is no closing line, nor starts as one. */
  predicate IsFed(tell: Teller, one: Fed) {
    tell(one.header) == Some(|one.body|) && !("end" <= one.header)
  }

  predicate AreFed(tell: Teller, all: seq<Fed>) {
    forall i :: 0 <= i < |all| ==> IsFed(tell, all[i])
  }

  function LinesOf(all: seq<Fed>): (lines: seq<string>)
    ensures |lines| >= 2 && lines[|lines| - 2] == "end" && lines[|lines| - 1] == ""
  {
    if all == [] then ["end", ""] else [all[0].header] + all[0].body + LinesOf(all[1..])
  }

  lemma {:induction false} LinesOfStream(records: seq<Record>)
    ensures StreamLines(records) == LinesOf(AllFed(records))
    decreases |records|
  {
    if records != [] {
      LinesOfStream(records[1..]);
      FedTail(records);
      LinesFrom(AllFed(records), Header(records[0]), BodyLines(records[0]), StreamLines(records[1..]));
    }
  }

  lemma {:induction false} FedTail(records: seq<Record>)
    requires records != []
    ensures AllFed(records) != [] && AllFed(records)[1..] == AllFed(records[1..])
    ensures AllFed(records)[0] == Fed(Header(records[0]), BodyLines(records[0]))
  {
  }

  lemma {:induction false} LinesFrom(all: seq<Fed>, header: string, body: seq<string>, more: seq<string>)
    requires all != [] && all[0] == Fed(header, body) && LinesOf(all[1..]) == more
    ensures LinesOf(all) == [header] + body + more
  {
  }

  lemma {:induction false} StreamFed(records: seq<Record>)
    requires EncodeRecords(records).Ok?
    ensures Split(EncodeRecords(records).value, '\n') == LinesOf(AllFed(records)) && AreFed(Told, AllFed(records))
  {
    StreamSplits(records);
    LinesOfStream(records);
    forall i | 0 <= i < |records| ensures IsFed(Told, AllFed(records)[i]) {
      ToldRight(records[i]);
      if "end" <= Header(records[i]) { NoEarlyEnd(records[i], "end"); }
    }
  }

  /** A record with its body whole before what follows. */
  lemma {:induction false} OneFed(tell: Teller, one: Fed, more: seq<string>)
    requires IsFed(tell, one) && |more| > 0 && |[one.header] + one.body + more| > 2 && |FileLines(more)| > 0
    ensures Feed(tell, [one.header] + one.body + more) == After([one], Feed(tell, more))
  {
    var lines := [one.header] + one.body + more;
    assert FileLines(lines) == [one.header] + one.body + FileLines(more);
    assert BodyThere(lines, |one.body|) == one.body;
    assert Past(lines, |one.body|) == more;
  }

  lemma {:induction false} LinesFed(tell: Teller, all: seq<Fed>)
    requires AreFed(tell, all)
    ensures Feed(tell, LinesOf(all)) == Outcome(all, true)
    decreases |all|
  {
    if all != [] {
      LinesFed(tell, all[1..]);
      OneFed(tell, all[0], LinesOf(all[1..]));
      assert all == [all[0]] + all[1..];
    }
  }

  /** A stream that is whole is acted on whole. */
  lemma {:induction false} WholeFed(records: seq<Record>)
    requires EncodeRecords(records).Ok?
    ensures var lines := Split(EncodeRecords(records).value, '\n'); EndsWell(lines) && Feed(Told, lines) == Outcome(AllFed(records), true)
  {
    StreamFed(records);
    LinesFed(Told, AllFed(records));
  }

  // ----- A stream cut short -----

  /** A stream cut right after the `end` at the start of a line, with or without its line break. */
  predicate CutAfterEnd(lines: seq<string>, whole: seq<string>, e: nat) {
    && IsCut(lines, whole) && e < |whole| && "end" <= whole[e]
    && ((|lines| == e + 1 && lines[e] == "end") || (|lines| == e + 2 && whole[e] == lines[e] == "end" && lines[e + 1] == ""))
  }

  lemma {:induction false} CutEnds(cut: seq<string>, whole: seq<string>)
    requires IsCut(cut, whole)
    ensures EndsWell(cut) ==> CutAfterEnd(cut, whole, |FileLines(cut)| - 1)
    ensures forall e: nat :: CutAfterEnd(cut, whole, e) ==> EndsWell(cut)
  {
    var e := |FileLines(cut)| - 1;
    if EndsWell(cut) {
      assert |cut| == e + 2 ==> cut[e] == cut[..|cut| - 1][e] == whole[..|cut| - 1][e] == whole[e];
    }
  }

  /** A line of some record's body. */
  predicate IsBodyLine(all: seq<Fed>, e: nat) {
    all != [] && e > 0 && (e <= |all[0].body| || IsBodyLine(all[1..], e - 1 - |all[0].body|))
  }

  lemma {:induction false} EndsWhere(tell: Teller, all: seq<Fed>, e: nat)
    requires AreFed(tell, all) && e < |LinesOf(all)| && "end" <= LinesOf(all)[e]
    ensures e == |LinesOf(all)| - 2 || IsBodyLine(all, e)
    decreases |all|
  {
    if all != [] && e > |all[0].body| {
      LineAt(all[0], LinesOf(all[1..]), e - 1 - |all[0].body|);
      EndsWhere(tell, all[1..], e - 1 - |all[0].body|);
    }
  }

  lemma {:induction false} LineAt(one: Fed, more: seq<string>, i: nat)
    ensures i < |one.body| ==> ([one.header] + one.body + more)[1 + i] == one.body[i]
    ensures i < |more| ==> ([one.header] + one.body + more)[1 + |one.body| + i] == more[i]
  {
  }

  /** What a cut there leaves to act on. */
  function FedUntil(all: seq<Fed>, e: nat, broken: bool): seq<Fed> {
    if all == [] || e == 0 || (e == 1 && !broken) then []
    else if e <= |all[0].body| then [Fed(all[0].header, all[0].body[..e - 1] + ["end"])]
    else [all[0]] + FedUntil(all[1..], e - 1 - |all[0].body|, broken)
  }

  lemma {:induction false} CutFed(tell: Teller, all: seq<Fed>, lines: seq<string>, e: nat)
    requires AreFed(tell, all) && CutAfterEnd(lines, LinesOf(all), e)
    ensures Feed(tell, lines) == Outcome(FedUntil(all, e, |lines| == e + 2), true)
    decreases |all|
  {
    if all != [] && |lines| > 2 {
      var more := LinesOf(all[1..]);
      if e <= |all[0].body| {
        assert e > 0 by { NotAtHeader(tell, all[0], more, lines); }
        CutBody(tell, all[0], more, lines, e);
      } else {
        var rest := CutPast(all[0], more, lines, e);
        CutFed(tell, all[1..], rest, e - 1 - |all[0].body|);
        OneFed(tell, all[0], rest);
      }
    }
  }

  lemma {:induction false} NotAtHeader(tell: Teller, one: Fed, more: seq<string>, lines: seq<string>)
    requires IsFed(tell, one)
    ensures !CutAfterEnd(lines, [one.header] + one.body + more, 0)
  {
  }

  /** Cut past the first record: what follows it is cut so. */
  lemma {:induction false} CutPast(one: Fed, more: seq<string>, lines: seq<string>, e: nat) returns (rest: seq<string>)
    requires CutAfterEnd(lines, [one.header] + one.body + more, e) && e > |one.body|
    ensures lines == [one.header] + one.body + rest && |rest| > 0 && |FileLines(rest)| > 0
    ensures CutAfterEnd(rest, more, e - 1 - |one.body|) && (|lines| == e + 2 <==> |rest| == e - 1 - |one.body| + 2)
  {
    StartsWhole([one.header] + one.body, more, lines);
    rest := lines[1 + |one.body|..];
    LineAt(one, more, e - 1 - |one.body|);
  }

  /** Cut within a body: those of its lines that are there. */
  lemma {:induction false} CutBody(tell: Teller, one: Fed, more: seq<string>, lines: seq<string>, e: nat)
    requires IsFed(tell, one) && 0 < e <= |one.body| && |lines| > 2
    requires CutAfterEnd(lines, [one.header] + one.body + more, e)
    ensures Feed(tell, lines) == Outcome([Fed(one.header, one.body[..e - 1] + ["end"])], true)
  {
    var whole := [one.header] + one.body + more;
    var file := FileLines(lines);
    forall i | 0 <= i < e ensures lines[i] == whole[i] {
      assert lines[i] == lines[..|lines| - 1][i] == whole[..|lines| - 1][i];
    }
    assert file == lines[..e + 1];
    assert BodyThere(lines, |one.body|) == file[1..];
    forall i | 0 <= i < e ensures file[1..][i] == (one.body[..e - 1] + ["end"])[i] {
      if i < e - 1 { assert lines[i + 1] == whole[i + 1] == one.body[i]; } else { assert lines[e] == "end"; }
    }
    assert file[1..] == one.body[..e - 1] + ["end"];
    assert |Past(lines, |one.body|)| <= 2;
    var fed := Fed(one.header, one.body[..e - 1] + ["end"]);
    assert [fed] + [] == [fed];
  }

  /** The lines a stream cut after so many characters has. */
  function CutLinesOf(records: seq<Record>, n: nat): seq<string>
    requires EncodeRecords(records).Ok? && n <= |EncodeRecords(records).value|
  {
    Split(EncodeRecords(records).value[..n], '\n')
  }

  lemma {:induction false} CutOfStream(records: seq<Record>, n: nat)
    requires EncodeRecords(records).Ok? && n <= |EncodeRecords(records).value|
    ensures IsCut(CutLinesOf(records, n), LinesOf(AllFed(records))) && AreFed(Told, AllFed(records))
  {
    StreamFed(records);
    CutLines(EncodeRecords(records).value, n);
  }

  /** A stream cut short anywhere is taken for a whole one just when it is cut right after an `end`
      that starts a line: the closing one, or one of a body. */
  lemma {:induction false} CutTakenWhere(records: seq<Record>, n: nat)
    requires EncodeRecords(records).Ok? && n <= |EncodeRecords(records).value|
    ensures EndsWell(CutLinesOf(records, n)) <==>
      exists e: nat :: CutAfterEnd(CutLinesOf(records, n), LinesOf(AllFed(records)), e)
        && (e == |LinesOf(AllFed(records))| - 2 || IsBodyLine(AllFed(records), e))
  {
    var cut, all := CutLinesOf(records, n), AllFed(records);
    CutOfStream(records, n);
    CutEnds(cut, LinesOf(all));
    if EndsWell(cut) { EndsWhere(Told, all, |FileLines(cut)| - 1); }
  }

  /** What is acted on then: the records before, and of the one it is cut in the body as far as it
      came, with nothing said to be wrong. */
  lemma {:induction false} CutActsOn(records: seq<Record>, n: nat, e: nat)
    requires EncodeRecords(records).Ok? && n <= |EncodeRecords(records).value|
    requires CutAfterEnd(CutLinesOf(records, n), LinesOf(AllFed(records)), e)
    ensures Feed(Told, CutLinesOf(records, n)) == Outcome(FedUntil(AllFed(records), e, |CutLinesOf(records, n)| == e + 2), true)
  {
    CutOfStream(records, n);
    CutFed(Told, AllFed(records), CutLinesOf(records, n), e);
  }

  // ----- Exactly which streams can be cut so -----

  /** A cut text whose lines are some first ones of the whole's, the last of them cut. */
  lemma {:induction false} JoinCut(whole: seq<string>, e: nat, last: string)
    requires e < |whole| && last <= whole[e]
    ensures Join(whole[..e] + [last], '\n') <= Join(whole, '\n')
    decreases e
  {
    var lines := whole[..e] + [last];
    if e == 0 {
      assert lines == [last];
      assert Join(whole, '\n')[..|whole[0]|] == whole[0];
    } else {
      JoinCut(whole[1..], e - 1, last);
      assert lines[1..] == whole[1..][..e - 1] + [last];
      var front := whole[0] + ['\n'];
      assert Join(lines, '\n') == front + Join(lines[1..], '\n');
      assert Join(whole, '\n') == front + Join(whole[1..], '\n');
    }
  }

  /** Any line of a text that starts with `end` is where it can be cut. */
  lemma {:induction false} CutTextAt(text: string, whole: seq<string>, e: nat) returns (n: nat)
    requires whole == Split(text, '\n') && e < |whole| && "end" <= whole[e]
    ensures n <= |text| && Split(text[..n], '\n') == whole[..e] + ["end"]
  {
    JoinOfSplit(text, '\n');
    JoinCut(whole, e, "end");
    var cut := whole[..e] + ["end"];
    n := |Join(cut, '\n')|;
    assert text[..n] == Join(cut, '\n');
    forall i | 0 <= i < |cut| ensures '\n' !in cut[i] { PartsFree(text, '\n', i); }
    SplitOfJoin(cut, '\n');
  }

  predicate StartsEnd(line: string) {
    "end" <= line
  }

  /** A body with a line that starts so. */
  predicate HasEndLine(body: seq<string>) {
    exists j :: 0 <= j < |body| && StartsEnd(body[j])
  }

  /** Where a record's line stands in its stream. */
  function PlaceOf(all: seq<Fed>, k: nat, j: nat): (e: nat)
    requires k < |all|
    ensures e > j
  {
    if k == 0 then 1 + j else 1 + |all[0].body| + PlaceOf(all[1..], k - 1, j)
  }

  lemma {:induction false} BodyLineAt(all: seq<Fed>, k: nat, j: nat)
    requires k < |all| && j < |all[k].body|
    ensures var e := PlaceOf(all, k, j);
      IsBodyLine(all, e) && e < |LinesOf(all)| - 2 && LinesOf(all)[e] == all[k].body[j]
    decreases |all|
  {
    if k == 0 {
      LineAt(all[0], LinesOf(all[1..]), j);
    } else {
      BodyLineAt(all[1..], k - 1, j);
      LineAt(all[0], LinesOf(all[1..]), PlaceOf(all[1..], k - 1, j));
    }
  }

  lemma {:induction false} FedUpTo(all: seq<Fed>, k: nat, j: nat)
    requires k < |all| && 0 < j < |all[k].body|
    ensures FedUntil(all, PlaceOf(all, k, j), false) == all[..k] + [Fed(all[k].header, all[k].body[..j] + ["end"])]
    decreases k
  {
    if k > 0 {
      FedUpTo(all[1..], k - 1, j);
      assert all[..k] == [all[0]] + all[1..][..k - 1];
    }
  }

  lemma {:induction false} EndsInBody(all: seq<Fed>, e: nat)
    requires IsBodyLine(all, e) && e < |LinesOf(all)| && StartsEnd(LinesOf(all)[e])
    ensures exists k :: 0 <= k < |all| && HasEndLine(all[k].body)
    decreases |all|
  {
    var body := all[0].body;
    if e <= |body| {
      LineAt(all[0], LinesOf(all[1..]), e - 1);
      assert HasEndLine(all[0].body) by { assert StartsEnd(body[e - 1]); }
    } else {
      LineAt(all[0], LinesOf(all[1..]), e - 1 - |body|);
      EndsInBody(all[1..], e - 1 - |body|);
      var k :| 0 <= k < |all| - 1 && HasEndLine(all[1..][k].body);
      assert HasEndLine(all[k + 1].body);
    }
  }

  lemma {:induction false} NoneCut(records: seq<Record>, n: nat)
    requires EncodeRecords(records).Ok? && n < |EncodeRecords(records).value| - 1 && EndsWell(CutLinesOf(records, n))
    ensures exists k :: 0 <= k < |records| && HasEndLine(BodyLines(records[k]))
  {
    var cut, all := CutLinesOf(records, n), AllFed(records);
    CutOfStream(records, n);
    CutEnds(cut, LinesOf(all));
    var e := |FileLines(cut)| - 1;
    EndsWhere(Told, all, e);
    if IsBodyLine(all, e) {
      EndsInBody(all, e);
      var k :| 0 <= k < |all| && HasEndLine(all[k].body);
      assert HasEndLine(BodyLines(records[k]));
    } else {
      StreamFed(records);
      CutLength(EncodeRecords(records).value, n);
    }
  }

  /** Any line of a body that starts with `end` is where its stream can be cut and is half acted on:
      the agent takes the records before it and, from its body's second line on, its own record with
      its body cut there, and says that all went well. */
  lemma {:induction false} CutInBody(records: seq<Record>, k: nat, j: nat) returns (n: nat)
    requires EncodeRecords(records).Ok? && k < |records| && j < |BodyLines(records[k])| && "end" <= BodyLines(records[k])[j]
    ensures n < |EncodeRecords(records).value| - 1 && EndsWell(CutLinesOf(records, n))
    ensures j > 0 ==>
      Feed(Told, CutLinesOf(records, n)) == Outcome(AllFed(records)[..k] + [Fed(Header(records[k]), BodyLines(records[k])[..j] + ["end"])], true)
  {
    var all := AllFed(records);
    var e, whole := PlaceOf(all, k, j), LinesOf(all);
    BodyLineAt(all, k, j);
    StreamFed(records);
    n := CutTextAt(EncodeRecords(records).value, whole, e);
    CutIsShort(EncodeRecords(records).value, whole, n);
    CutOfStream(records, n);
    assert CutAfterEnd(CutLinesOf(records, n), whole, e);
    CutEnds(CutLinesOf(records, n), whole);
    if j > 0 {
      CutActsOn(records, n, e);
      FedUpTo(all, k, j);
    }
  }

  lemma {:induction false} CutIsShort(text: string, whole: seq<string>, n: nat)
    requires whole == Split(text, '\n') && |whole| > 1 && whole[|whole| - 1] == ""
    requires n <= |text| && |Split(text[..n], '\n')| < |whole| - 1
    ensures n < |text| - 1
  {
    LastBreakOff(text, whole);
    assert text[..|text|] == text;
  }

  /** Cut anywhere before its closing line's end, a stream is refused by the agent if, and only if,
      no body in it has a line that starts with `end`. */
  lemma {:induction false} CutRefusedIsExact(records: seq<Record>)
    requires EncodeRecords(records).Ok?
    ensures (forall n: nat :: n < |EncodeRecords(records).value| - 1 ==> !EndsWell(CutLinesOf(records, n)))
      <==> forall k :: 0 <= k < |records| ==> !HasEndLine(BodyLines(records[k]))
  {
    if k :| 0 <= k < |records| && HasEndLine(BodyLines(records[k])) {
      var j :| 0 <= j < |BodyLines(records[k])| && StartsEnd(BodyLines(records[k])[j]);
      var n := CutInBody(records, k, j);
    } else {
      forall n: nat | n < |EncodeRecords(records).value| - 1 ensures !EndsWell(CutLinesOf(records, n)) {
        if EndsWell(CutLinesOf(records, n)) { NoneCut(records, n); }
      }
    }
  }

  lemma {:induction false} LastBreakOff(text: string, whole: seq<string>)
    requires whole == Split(text, '\n') && |whole| > 1 && whole[|whole| - 1] == ""
    ensures |text| > 0 && Split(text[..|text| - 1], '\n') == whole[..|whole| - 1]
  {
    JoinOfSplit(text, '\n');
    var cut := whole[..|whole| - 1];
    assert whole == cut + [""];
    JoinGrows(cut);
    assert text[..|text| - 1] == Join(cut, '\n');
    forall i | 0 <= i < |cut| ensures '\n' !in cut[i] { PartsFree(text, '\n', i); }
    SplitOfJoin(cut, '\n');
  }

  /** The records acted on when only the last line break is gone: all, or all but a last without a
      body. */
  function FedUnbroken(all: seq<Fed>): seq<Fed> {
    if all != [] && all[|all| - 1].body == [] then all[..|all| - 1] else all
  }

  /** Only its last line break gone, a stream is taken for a whole one, and its last record is not
      acted on just when that has no body. */
  lemma {:induction false} LastBreakLost(records: seq<Record>)
    requires EncodeRecords(records).Ok?
    ensures |EncodeRecords(records).value| > 0
    ensures var cut := CutLinesOf(records, |EncodeRecords(records).value| - 1);
      EndsWell(cut) && Feed(Told, cut) == Outcome(FedUnbroken(AllFed(records)), true)
  {
    var text, all := EncodeRecords(records).value, AllFed(records);
    StreamFed(records);
    LastBreakOff(text, LinesOf(all));
    BreakLost(Told, CutLinesOf(records, |text| - 1), all);
  }

  lemma {:induction false} BreakLost(tell: Teller, cut: seq<string>, all: seq<Fed>)
    requires cut == LinesOf(all)[..|LinesOf(all)| - 1] && AreFed(tell, all)
    ensures EndsWell(cut) && Feed(tell, cut) == Outcome(FedUnbroken(all), true)
  {
    AllButTheBreak(cut, LinesOf(all));
    LastIsThere(all);
    CutFed(tell, all, cut, LastAt(all));
    FedToTheEnd(all);
  }

  lemma {:induction false} AllButTheBreak(cut: seq<string>, whole: seq<string>)
    requires |whole| >= 2 && whole[|whole| - 2] == "end" && cut == whole[..|whole| - 1]
    ensures CutAfterEnd(cut, whole, |whole| - 2) && EndsWell(cut) && |cut| == |whole| - 1
  {
    assert cut[..|cut| - 1] == whole[..|cut| - 1];
  }

  /** Where the closing line stands. */
  function LastAt(all: seq<Fed>): nat {
    if all == [] then 0 else 1 + |all[0].body| + LastAt(all[1..])
  }

  lemma {:induction false} LastIsThere(all: seq<Fed>)
    ensures |LinesOf(all)| == LastAt(all) + 2
    decreases |all|
  {
    if all != [] { LastIsThere(all[1..]); }
  }

  lemma {:induction false} FedToTheEnd(all: seq<Fed>)
    ensures FedUntil(all, LastAt(all), false) == FedUnbroken(all)
    decreases |all|
  {
    if |all| == 1 {
      assert LastAt(all[1..]) == 0;
      assert all[..0] == [];
      assert all == [all[0]] + FedUntil([], 0, false);
    } else if all != [] {
      assert LastAt(all[1..]) > 0;
      calc {
        FedUntil(all, LastAt(all), false);
        [all[0]] + FedUntil(all[1..], LastAt(all[1..]), false);
        { FedToTheEnd(all[1..]); }
        [all[0]] + FedUnbroken(all[1..]);
        { UnbrokenRest(all); }
        FedUnbroken(all);
      }
    }
  }

  lemma {:induction false} UnbrokenRest(all: seq<Fed>)
    requires |all| > 1
    ensures FedUnbroken(all) == [all[0]] + FedUnbroken(all[1..])
  {
  }

  function ThreeLines(first: string, second: string, third: string): string {
    first + ['\n'] + (second + ['\n'] + third) + "\n"
  }

  /** A file with a line `end` between two others, its stream cut there: written without the last, as
      if whole. */
  lemma {:induction false} HalfWritten(path: string, mode: string, first: string, last: string) returns (n: nat)
    requires IsLastField(path) && IsField(mode) && '\n' !in first && '\n' !in last
    ensures var records := [Write(path, mode, ThreeLines(first, "end", last), None)];
      && EncodeRecords(records).Ok? && n < |EncodeRecords(records).value| - 1
      && EndsWell(CutLinesOf(records, n))
      && Feed(Told, CutLinesOf(records, n)) == Outcome([Fed(Header(records[0]), [first, "end"])], true)
      && Feed(Told, Split(EncodeRecords(records).value, '\n')) == Outcome([Fed(Header(records[0]), [first, "end", last])], true)
  {
    var record := Write(path, mode, ThreeLines(first, "end", last), None);
    LinesAreThree(first, "end", last);
    assert BodyLines(record) == Lines(Body(record.content)) + [] == [first, "end", last];
    n := CutInMiddle(record, first, last);
  }

  lemma {:induction false} CutInMiddle(record: Record, first: string, last: string) returns (n: nat)
    requires Sendable(record) && BodyLines(record) == [first, "end", last]
    ensures EncodeRecords([record]).Ok? && n < |EncodeRecords([record]).value| - 1 && EndsWell(CutLinesOf([record], n))
    ensures Feed(Told, CutLinesOf([record], n)) == Outcome([Fed(Header(record), [first, "end"])], true)
    ensures Feed(Told, Split(EncodeRecords([record]).value, '\n')) == Outcome([Fed(Header(record), [first, "end", last])], true)
  {
    var records := [record];
    OneSent(record);
    n := CutInBody(records, 0, 1);
    assert [first, "end", last][..1] + ["end"] == [first, "end"];
    assert AllFed(records)[..0] == [];
    WholeFed(records);
  }

  lemma {:induction false} OneSent(record: Record)
    requires Sendable(record)
    ensures EncodeRecords([record]).Ok?
  {
    assert [record][1..] == [];
  }

  lemma {:induction false} LinesAreThree(first: string, second: string, third: string)
    requires '\n' !in first && '\n' !in second && '\n' !in third
    ensures Lines(Body(ThreeLines(first, second, third))) == [first, second, third]
  {
    var rest := second + ['\n'] + third;
    assert Unended(ThreeLines(first, second, third)) == first + ['\n'] + rest;
    SplitJoined(first, rest, '\n');
    SplitJoined(second, third, '\n');
    SplitFree(first, '\n');
    SplitFree(second, '\n');
    SplitFree(third, '\n');
  }
}
