/** A whole stream of records, sent and received (src/agent/records.ts). */
module RecordStream {
  import opened Wrappers
  import opened Text
  import opened Records

  /** A line with a space in it: never "end", nor more lines than one. */
  predicate SpacedLine(text: string) {
    '\n' !in text && ' ' in text
  }

  lemma {:induction false} Spaced(a: string, b: string)
    requires '\n' !in a && '\n' !in b
    ensures SpacedLine(a + " " + b)
  {
    assert (a + " " + b)[|a|] == ' ';
  }

  lemma {:induction false} CountedLine(kind: string, body: string, last: string)
    requires '\n' !in kind && '\n' !in last
    ensures SpacedLine(kind + " " + Count(body) + " " + last) && SpacedLine(kind + " " + Count(body))
  {
    CountWord(|Split(body, '\n')| - 1);
    Spaced(kind, Count(body));
    Spaced(kind + " " + Count(body), last);
  }

  lemma {:induction false} WriteOneLine(path: string, mode: string, content: string, runAfter: Option<string>)
    requires IsField(mode) && IsLastField(path)
    ensures SpacedLine(Header(Write(path, mode, content, runAfter)))
  {
    assert "write" + " " == "write ";
    CountedLine("write", Body(content), Count(AfterBody(runAfter)));
    CountWord(|Split(AfterBody(runAfter), '\n')| - 1);
    Spaced("write" + " " + Count(Body(content)) + " " + Count(AfterBody(runAfter)) + " " + mode, path);
  }

  lemma {:induction false} RestartOneLine(service: string, config: Option<string>)
    requires Sendable(Restart(service, config))
    ensures SpacedLine(Header(Restart(service, config)))
  {
    assert "restart" + " " == "restart ";
    Spaced("restart", service);
    if config.Some? { Spaced("restart" + " " + service, config.value); }
  }

  lemma {:induction false} HeaderOneLine(record: Record)
    requires Sendable(record)
    ensures SpacedLine(Header(record))
  {
    match record
    case Seed(path, content) =>
      assert "seed" + " " == "seed ";
      CountedLine("seed", Body(content), path);
    case Batch(operations) =>
      assert "batch" + " " == "batch ";
      CountedLine("batch", Join(operations, '\n') + "\n", "");
    case Command(command) =>
      assert "run" + " " == "run ";
      CountedLine("run", command + "\n", "");
    case RemoveFile(path) =>
      assert "remove-file" + " " == "remove-file ";
      Spaced("remove-file", path);
    case Valued(kind, key, value) => CountedLine(kind, value + "\n", key);
    case Named(kind, name) => Spaced(kind, name);
    case Write(path, mode, content, runAfter) => WriteOneLine(path, mode, content, runAfter);
    case Restart(name, config) => RestartOneLine(name, config);
  }

  lemma {:induction false} WriteBodySplits(content: string, runAfter: Option<string>, tail: string)
    ensures Split(Body(content) + AfterBody(runAfter) + tail, '\n') == Lines(Body(content)) + Lines(AfterBody(runAfter)) + Split(tail, '\n')
  {
    var one, two := Body(content), AfterBody(runAfter);
    EndedBodies(content, runAfter);
    assert one + two + tail == one + (two + tail);
    BodySplit(one, two + tail);
    if runAfter.Some? { BodySplit(two, tail); } else { assert two + tail == tail; }
  }

  lemma {:induction false} BodySplits(record: Record, tail: string)
    ensures Split(BodyOf(record) + tail, '\n') == BodyLines(record) + Split(tail, '\n')
  {
    if record.Write? {
      WriteBodySplits(record.content, record.runAfter, tail);
    } else if BodyOf(record) == "" {
      assert BodyOf(record) + tail == tail;
    } else {
      OtherEnds(record);
      BodySplit(BodyOf(record), tail);
    }
  }

  lemma {:induction false} OtherEnds(record: Record)
    requires !record.Write? && BodyOf(record) != ""
    ensures Ends(BodyOf(record))
  {
    if record.Seed? { Ended(record.content); }
  }

  lemma {:induction false} RecordSplits(record: Record, tail: string)
    requires Sendable(record)
    ensures Split(Header(record) + "\n" + BodyOf(record) + tail, '\n') == [Header(record)] + BodyLines(record) + Split(tail, '\n')
    ensures Header(record) != "end"
  {
    HeaderOneLine(record);
    var rest := BodyOf(record) + tail;
    assert Header(record) + "\n" + BodyOf(record) + tail == Header(record) + ['\n'] + rest;
    SplitJoined(Header(record), rest, '\n');
    SplitFree(Header(record), '\n');
    BodySplits(record, tail);
  }

  function AllLanded(records: seq<Record>): seq<Record> {
    seq(|records|, i requires 0 <= i < |records| => Landed(records[i]))
  }

  /** The lines of a stream. */
  function StreamLines(records: seq<Record>): seq<string> {
    if records == [] then ["end", ""]
    else [Header(records[0])] + BodyLines(records[0]) + StreamLines(records[1..])
  }

  lemma {:induction false} StreamSplits(records: seq<Record>)
    ensures EncodeRecords(records).Ok? <==> forall i :: 0 <= i < |records| ==> Sendable(records[i])
    ensures EncodeRecords(records).Ok? ==> Split(EncodeRecords(records).value, '\n') == StreamLines(records)
    decreases |records|
  {
    if records == [] {
      SplitJoined("end", "", '\n');
      SplitFree("end", '\n');
      assert "end\n" == "end" + ['\n'] + "";
    } else {
      StreamSplits(records[1..]);
      assert (forall i :: 0 <= i < |records| ==> Sendable(records[i]))
        <==> Sendable(records[0]) && forall i :: 0 <= i < |records[1..]| ==> Sendable(records[1..][i]);
      if EncodeRecords(records).Ok? {
        var rest := EncodeRecords(records[1..]).value;
        RecordSplits(records[0], rest);
      }
    }
  }

  lemma {:induction false} StreamEnds(records: seq<Record>)
    ensures var lines := StreamLines(records);
      |lines| >= 2 && lines[|lines| - 2] == "end" && lines[|lines| - 1] == ""
    decreases |records|
  {
    if records != [] { StreamEnds(records[1..]); }
  }

  lemma {:induction false} StreamDecodes(records: seq<Record>)
    requires forall i :: 0 <= i < |records| ==> Sendable(records[i])
    ensures DecodeLines(StreamLines(records)) == Ok(AllLanded(records))
    decreases |records|
  {
    if records != [] {
      var lines, more := StreamLines(records), StreamLines(records[1..]);
      Received(records[0], more);
      RecordSplits(records[0], "");
      StreamDecodes(records[1..]);
      assert lines[1 + |BodyLines(records[0])|..] == more;
      assert [Landed(records[0])] + AllLanded(records[1..]) == AllLanded(records);
    }
  }

  /** Records are refused just when a field of one is no word or no line; sent, they are received
      as they land, whatever their bodies hold: a line `end`, or one that reads as a record. */
  lemma {:induction false} SentIsReceived(records: seq<Record>)
    ensures EncodeRecords(records).Ok? <==> forall i :: 0 <= i < |records| ==> Sendable(records[i])
    ensures EncodeRecords(records).Ok? ==> Decode(EncodeRecords(records).value) == Ok(AllLanded(records))
  {
    StreamSplits(records);
    if EncodeRecords(records).Ok? {
      StreamEnds(records);
      StreamDecodes(records);
    }
  }

  // ----- A stream cut short -----

  /** The first lines of a text, the last of them perhaps cut. */
  predicate IsCut(lines: seq<string>, whole: seq<string>) {
    && 0 < |lines| <= |whole|
    && lines[..|lines| - 1] == whole[..|lines| - 1]
    && lines[|lines| - 1] <= whole[|lines| - 1]
  }

  lemma {:induction false} CutLines(text: string, n: nat)
    requires n <= |text|
    ensures IsCut(Split(text[..n], '\n'), Split(text, '\n'))
    decreases |text|
  {
    if n > 0 {
      CutLines(text[1..], n - 1);
      assert text[..n][1..] == text[1..][..n - 1];
      var lines, whole := Split(text[..n], '\n'), Split(text, '\n');
      var less, rest := Split(text[1..][..n - 1], '\n'), Split(text[1..], '\n');
      if text[0] == '\n' {
        assert lines[..|lines| - 1] == [""] + less[..|less| - 1];
        assert whole[..|lines| - 1] == [""] + rest[..|less| - 1];
      } else if |less| == 1 {
        assert lines == [[text[0]] + less[0]] && whole[0] == [text[0]] + rest[0];
      } else {
        assert less[0] == less[..|less| - 1][0] == rest[..|less| - 1][0] == rest[0];
        assert lines[..|lines| - 1] == [[text[0]] + less[0]] + less[..|less| - 1][1..];
        assert whole[..|lines| - 1] == [[text[0]] + rest[0]] + rest[..|less| - 1][1..];
      }
    } else {
      assert text[..n] == "";
    }
  }

  /** How many lines a record takes is told by its header alone. */
  lemma {:induction false} TakesAsTold(a: seq<string>, b: seq<string>)
    requires a != [] && b != [] && a[0] == b[0] && DecodeOne(a).Ok? && DecodeOne(b).Ok?
    ensures DecodeOne(a).value.1 == DecodeOne(b).value.1
  {
  }

  lemma {:induction false} NoEarlyEnd(record: Record, cut: string)
    requires cut <= Header(record)
    ensures cut != "end"
  {
    if |cut| == 3 {
      var header := Header(record);
      assert cut[0] == header[0] && cut[2] == header[2];
      match record
      case Named(kind, name) => assert header[2] == kind[2];
      case Valued(kind, _, _) => assert header[0] == kind[0];
      case _ =>
    }
  }

  /** All there, or all but the empty line a last line break leaves. */
  predicate IsAllBut(lines: seq<string>, whole: seq<string>) {
    |lines| == |whole| || (0 < |lines| == |whole| - 1 && lines[|lines| - 1] == whole[|lines| - 1])
  }

  lemma {:induction false} CutDecodes(records: seq<Record>, lines: seq<string>)
    requires forall i :: 0 <= i < |records| ==> Sendable(records[i])
    requires IsCut(lines, StreamLines(records)) && DecodeLines(lines).Ok?
    ensures DecodeLines(lines) == Ok(AllLanded(records)) && IsAllBut(lines, StreamLines(records))
    decreases |records|
  {
    if records == [] {
      assert StreamLines(records) == ["end", ""];
      EndCut(lines);
    } else {
      var start, more := [Header(records[0])] + BodyLines(records[0]), StreamLines(records[1..]);
      assert StreamLines(records) == start + more;
      var rest := CutRest(records[0], more, start, lines);
      CutDecodes(records[1..], rest);
      assert [Landed(records[0])] + AllLanded(records[1..]) == AllLanded(records);
      AllButLonger(start, rest, more);
    }
  }

  /** A cut stream past its first record. */
  lemma {:induction false} CutRest(record: Record, more: seq<string>, start: seq<string>, lines: seq<string>) returns (rest: seq<string>)
    requires Sendable(record) && DecodeLines(lines).Ok? && start == [Header(record)] + BodyLines(record)
    requires IsCut(lines, start + more)
    ensures rest != [] && IsCut(rest, more) && lines == start + rest
    ensures DecodeLines(lines) == Prepend([Landed(record)], DecodeLines(rest)) && DecodeLines(rest).Ok?
  {
    CutTaken(record, more, lines);
    rest := lines[|start|..];
  }

  lemma {:induction false} EndCut(lines: seq<string>)
    requires IsCut(lines, ["end", ""]) && DecodeLines(lines).Ok?
    ensures DecodeLines(lines) == Ok([]) && IsAllBut(lines, ["end", ""])
  {
    if |lines| == 2 {
      assert lines[0] == lines[..1][0] == ["end", ""][..1][0];
    } else {
      assert lines[1..] == [];
      assert DecodeOne(lines).Ok? ==> DecodeOne(lines).value.1 == 1;
    }
  }

  lemma {:induction false} AllButLonger(start: seq<string>, rest: seq<string>, more: seq<string>)
    requires rest != [] && IsAllBut(rest, more)
    ensures IsAllBut(start + rest, start + more)
  {
  }

  /** The first record of a cut stream that reads is there whole. */
  lemma {:induction false} CutTaken(record: Record, more: seq<string>, lines: seq<string>)
    requires Sendable(record) && DecodeLines(lines).Ok?
    requires IsCut(lines, [Header(record)] + BodyLines(record) + more)
    ensures var start := [Header(record)] + BodyLines(record);
      && |lines| > |start| && IsCut(lines[|start|..], more) && lines == start + lines[|start|..]
      && DecodeLines(lines) == Prepend([Landed(record)], DecodeLines(lines[|start|..]))
      && DecodeLines(lines[|start|..]).Ok?
  {
    var whole := [Header(record)] + BodyLines(record) + more;
    var start := [Header(record)] + BodyLines(record);
    NoEarlyEnd(record, lines[0]);
    Received(record, more);
    var taken := DecodeOne(lines).value.1;
    assert DecodeLines(lines[taken..]).Ok?;
    assert |lines[taken..]| > 0;
    assert lines[0] == lines[..|lines| - 1][0] == whole[..|lines| - 1][0] == whole[0];
    TakesAsTold(lines, whole);
    StartsWhole(start, more, lines);
    Received(record, lines[|start|..]);
  }

  lemma {:induction false} StartsWhole(start: seq<string>, more: seq<string>, lines: seq<string>)
    requires IsCut(lines, start + more) && |lines| > |start|
    ensures lines == start + lines[|start|..] && IsCut(lines[|start|..], more)
  {
    var whole, last := start + more, |lines| - 1;
    assert forall i :: 0 <= i < last ==> lines[i] == lines[..last][i] == whole[..last][i] == whole[i];
    assert lines[..|start|] == start;
    assert lines[|start|..][..last - |start|] == more[..last - |start|];
  }

  /** A stream cut short anywhere is refused by the decoder, or (its last line break alone gone) read
      in full. The agent's own reader is another: see AgentReader. */
  lemma {:induction false} CutShortIsRefused(records: seq<Record>, n: nat)
    requires EncodeRecords(records).Ok? && n <= |EncodeRecords(records).value|
    ensures var text := EncodeRecords(records).value;
      Decode(text[..n]).Ok? ==> n >= |text| - 1 && Decode(text[..n]) == Decode(text)
  {
    var text := EncodeRecords(records).value;
    SentIsReceived(records);
    StreamSplits(records);
    StreamEnds(records);
    if Decode(text[..n]).Ok? {
      CutLines(text, n);
      CutDecodes(records, Split(text[..n], '\n'));
      CutLength(text, n);
    }
  }

  /** Few lines gone, few characters gone: only a last line that is empty can go. */
  lemma {:induction false} CutLength(text: string, n: nat)
    requires n <= |text|
    requires var whole := Split(text, '\n');
      whole[|whole| - 1] == "" && IsAllBut(Split(text[..n], '\n'), whole)
    ensures n >= |text| - 1
  {
    JoinOfSplit(text[..n], '\n');
    JoinOfSplit(text, '\n');
    CutLines(text, n);
    CutJoins(Split(text[..n], '\n'), Split(text, '\n'));
  }

  lemma {:induction false} CutJoins(lines: seq<string>, whole: seq<string>)
    requires IsCut(lines, whole) && IsAllBut(lines, whole) && whole[|whole| - 1] == ""
    ensures |Join(lines, '\n')| >= |Join(whole, '\n')| - 1
  {
    assert lines == lines[..|lines| - 1] + [lines[|lines| - 1]];
    if |lines| == |whole| {
      assert whole == whole[..|lines| - 1] + [whole[|lines| - 1]];
      assert lines == whole;
    } else {
      assert whole == lines + [""];
      JoinGrows(lines);
    }
  }

  lemma {:induction false} JoinGrows(lines: seq<string>)
    requires lines != []
    ensures Join(lines + [""], '\n') == Join(lines, '\n') + "\n"
    decreases |lines|
  {
    if |lines| == 1 {
      assert lines + [""] == [lines[0], ""];
      assert [lines[0], ""][1..] == [""];
    } else {
      assert (lines + [""])[1..] == lines[1..] + [""];
      JoinGrows(lines[1..]);
      assert lines[0] + ['\n'] + (Join(lines[1..], '\n') + "\n") == lines[0] + ['\n'] + Join(lines[1..], '\n') + "\n";
    }
  }
}
