/** Reading `uci export` and writing config files (src/engine/uci.ts, lines, parseUciExport,
    uciFileText; src/shell.ts, shellQuote). */
module UciText {
  import opened Wrappers
  import opened Uci

  // ----- Lines of words -----

  /** The tokenizer between two characters: the lines so far, the line's words, the word begun and
      the quote it is in. */
  datatype Lexer = Lexer(lines: seq<seq<string>>, words: seq<string>, word: Option<string>, quote: Option<char>)

  const Fresh := Lexer([], [], None, None)

  function Sofar(word: Option<string>): string {
    if word.Some? then word.value else ""
  }

  /** The word begun, if any, ended. */
  function Ended(words: seq<string>, word: Option<string>): seq<string> {
    if word.Some? then words + [word.value] else words
  }

  function LineEnded(lines: seq<seq<string>>, words: seq<string>): seq<seq<string>> {
    if words != [] then lines + [words] else lines
  }

  predicate IsBlank(c: char) {
    c == ' ' || c == '\t' || c == '\n'
  }

  /** One character outside quotes, not a backslash before another. */
  function Bare(c: char, s: Lexer): Lexer {
    if c == '\'' || c == '"' then s.(quote := Some(c), word := Some(Sofar(s.word)))
    else if !IsBlank(c) then s.(word := Some(Sofar(s.word) + [c]))
    else if c == '\n' then Lexer(LineEnded(s.lines, Ended(s.words, s.word)), [], None, None)
    else s.(words := Ended(s.words, s.word), word := None)
  }

  function Quoted(c: char, s: Lexer): Lexer {
    if s.quote == Some(c) then s.(quote := None) else s.(word := Some(Sofar(s.word) + [c]))
  }

  function Scan(text: string, s: Lexer): Lexer {
    if text == "" then s
    else if s.quote.Some? then Scan(text[1..], Quoted(text[0], s))
    else if text[0] == '\\' && |text| > 1 then Scan(text[2..], s.(word := Some(Sofar(s.word) + [text[1]])))
    else Scan(text[1..], Bare(text[0], s))
  }

  function Close(s: Lexer): Result<seq<seq<string>>> {
    if s.quote.Some? then Err else Ok(LineEnded(s.lines, Ended(s.words, s.word)))
  }

  /** The text as lines of words; refused when it ends inside a quote. */
  function LinesOf(text: string): Result<seq<seq<string>>> {
    Close(Scan(text, Fresh))
  }

  method Lines(text: string) returns (result: Result<seq<seq<string>>>)
    ensures result == LinesOf(text)
  {
    var lines: seq<seq<string>>, words: seq<string> := [], [];
    var word: Option<string>, quote: Option<char> := None, None;
    var i := 0;
    while i < |text|
      invariant 0 <= i <= |text|
      invariant Scan(text[i..], Lexer(lines, words, word, quote)) == Scan(text, Fresh)
    {
      var c := text[i];
      assert text[i..][0] == c && text[i..][1..] == text[i + 1..];
      if quote.Some? {
        if Some(c) == quote { quote := None; } else { word := Some(Sofar(word) + [c]); }
      } else if c == '\'' || c == '"' {
        quote := Some(c);
        word := Some(Sofar(word));
      } else if c == '\\' && i + 1 < |text| {
        assert text[i..][2..] == text[i + 2..];
        i := i + 1;
        word := Some(Sofar(word) + [text[i]]);
      } else if c == ' ' || c == '\t' || c == '\n' {
        if word.Some? { words := words + [word.value]; }
        word := None;
        if c == '\n' {
          if |words| > 0 { lines := lines + [words]; }
          words := [];
        }
      } else {
        word := Some(Sofar(word) + [c]);
      }
      i := i + 1;
    }
    assert text[i..] == "";
    if quote.Some? { return Err; }
    if word.Some? { words := words + [word.value]; }
    if |words| > 0 { lines := lines + [words]; }
    return Ok(lines);
  }

  // ----- Quoting -----

  /** The inside of a quoted value: a quote closes, is escaped, and opens again. */
  function Escaped(value: string): string {
    if value == "" then ""
    else (if value[0] == '\'' then "'\\''" else [value[0]]) + Escaped(value[1..])
  }

  function ShellQuote(value: string): string {
    "'" + Escaped(value) + "'"
  }

  /** An escaped quote: out, the quote, and in again. */
  lemma {:induction false} ScanEscape(after: string, s: Lexer)
    requires s.quote == Some('\'') && s.word.Some?
    ensures Scan("'\\''" + after, s) == Scan(after, s.(word := Some(s.word.value + ['\''])))
  {
    var out := "\\''" + after;
    assert ("'\\''" + after)[1..] == out;
    assert Scan("'\\''" + after, s) == Scan(out, s.(quote := None));
    ScanBack(after, s.(quote := None));
  }

  lemma {:induction false} ScanBack(after: string, s: Lexer)
    requires s.quote.None? && s.word.Some?
    ensures Scan("\\''" + after, s) == Scan(after, s.(quote := Some('\''), word := Some(s.word.value + ['\''])))
  {
    assert ("\\''" + after)[2..] == "'" + after && ("\\''" + after)[1] == '\'';
    assert ("'" + after)[1..] == after;
  }

  lemma {:induction false} ScanInside(value: string, rest: string, s: Lexer)
    requires s.quote == Some('\'') && s.word.Some?
    ensures Scan(Escaped(value) + "'" + rest, s) == Scan(rest, s.(quote := None, word := Some(s.word.value + value)))
    decreases |value|
  {
    if value == "" {
      assert (Escaped(value) + "'" + rest)[1..] == rest;
      assert s.word.value + value == s.word.value;
    } else {
      var next := s.(word := Some(s.word.value + [value[0]]));
      calc {
        Scan(Escaped(value) + "'" + rest, s);
        { ScanFirst(value, rest, s); }
        Scan(Escaped(value[1..]) + "'" + rest, next);
        { ScanInside(value[1..], rest, next); }
        Scan(rest, s.(quote := None, word := Some(s.word.value + [value[0]] + value[1..])));
        { assert s.word.value + [value[0]] + value[1..] == s.word.value + value; }
        Scan(rest, s.(quote := None, word := Some(s.word.value + value)));
      }
    }
  }

  lemma {:induction false} ScanFirst(value: string, rest: string, s: Lexer)
    requires s.quote == Some('\'') && s.word.Some? && value != ""
    ensures Scan(Escaped(value) + "'" + rest, s) == Scan(Escaped(value[1..]) + "'" + rest, s.(word := Some(s.word.value + [value[0]])))
  {
    var text, after := Escaped(value) + "'" + rest, Escaped(value[1..]) + "'" + rest;
    if value[0] == '\'' {
      assert text == "'\\''" + after;
      ScanEscape(after, s);
    } else {
      assert text[0] == value[0] && text[1..] == after;
    }
  }

  /** A quoted value is read as one piece of a word, whatever it holds. */
  lemma {:induction false} ScanQuoted(value: string, rest: string, s: Lexer)
    requires s.quote.None?
    ensures Scan(ShellQuote(value) + rest, s) == Scan(rest, s.(word := Some(Sofar(s.word) + value)))
  {
    var text := ShellQuote(value) + rest;
    assert text[0] == '\'' && text[1..] == Escaped(value) + "'" + rest;
    ScanInside(value, rest, s.(quote := Some('\''), word := Some(Sofar(s.word))));
  }

  /** A character that is read as itself. */
  predicate IsPlain(c: char) {
    !IsBlank(c) && c != '\'' && c != '"' && c != '\\'
  }

  predicate AllPlain(text: string) {
    forall i :: 0 <= i < |text| ==> IsPlain(text[i])
  }

  /** A word that is read as itself. */
  predicate PlainWord(word: string) {
    word != "" && AllPlain(word)
  }

  lemma {:induction false} ScanPlain(text: string, rest: string, s: Lexer)
    requires s.quote.None? && AllPlain(text) && text != ""
    ensures Scan(text + rest, s) == Scan(rest, s.(word := Some(Sofar(s.word) + text)))
    decreases |text|
  {
    assert (text + rest)[1..] == text[1..] + rest;
    var next := s.(word := Some(Sofar(s.word) + [text[0]]));
    assert Scan(text + rest, s) == Scan(text[1..] + rest, next);
    if |text| > 1 {
      ScanPlain(text[1..], rest, next);
      assert Sofar(s.word) + [text[0]] + text[1..] == Sofar(s.word) + text;
    } else {
      assert text[1..] + rest == rest && [text[0]] == text;
    }
  }

  /** A plain word and the blank after it. */
  lemma {:induction false} ScanWord(word: string, blank: char, rest: string, s: Lexer)
    requires s.quote.None? && s.word.None? && PlainWord(word) && IsBlank(blank)
    ensures Scan(word + [blank] + rest, s) == Scan(rest, Bare(blank, s.(word := Some(word))))
  {
    assert word + [blank] + rest == word + ([blank] + rest);
    ScanPlain(word, [blank] + rest, s);
    assert "" + word == word;
    assert ([blank] + rest)[1..] == rest;
  }

  /** A quoted value and the line's end. */
  lemma {:induction false} ScanLast(value: string, rest: string, s: Lexer)
    requires s.quote.None? && s.word.None?
    ensures Scan(ShellQuote(value) + "\n" + rest, s) == Scan(rest, Lexer(s.lines + [s.words + [value]], [], None, None))
  {
    assert ShellQuote(value) + "\n" + rest == ShellQuote(value) + ("\n" + rest);
    ScanQuoted(value, "\n" + rest, s);
    assert "" + value == value;
    assert ("\n" + rest)[1..] == rest;
  }
}
