/** The `.if` condition language: its tokens and its grammar (src/condition.ts). */
module Condition {
  import opened Wrappers
  import opened Text
  import opened When

  // ----- Tokens -----

  datatype Token = Punct(text: string) | Str(value: string) | Num(text: string) | Word(text: string) | End

  predicate IsLetter(c: char) {
    'a' <= c <= 'z' || 'A' <= c <= 'Z' || c == '_'
  }

  predicate IsDigit(c: char) {
    '0' <= c <= '9'
  }

  predicate IsWordPart(c: char) {
    IsLetter(c) || IsDigit(c) || c == '.' || c == '-'
  }

  predicate IsPair(text: string) {
    text == "==" || text == "!=" || text == "&&" || text == "||" || text == "<=" || text == ">="
  }

  predicate IsMark(c: char) {
    c == '(' || c == ')' || c == '[' || c == ']' || c == ',' || c == '!' || c == '*' || c == '<' || c == '>'
  }

  /** How many characters at the start are of a word. */
  function WordLength(text: string): (n: nat)
    ensures n <= |text|
  {
    if text == "" || !IsWordPart(text[0]) then 0 else 1 + WordLength(text[1..])
  }

  function DigitsLength(text: string): (n: nat)
    ensures n <= |text|
  {
    if text == "" || !IsDigit(text[0]) then 0 else 1 + DigitsLength(text[1..])
  }

  /** How long a number at the start is, a sign before it or a fraction after; 0 for none. */
  function NumberLength(text: string): (n: nat)
    ensures n <= |text|
  {
    var sign := if text != "" && text[0] == '-' then 1 else 0;
    var whole := DigitsLength(text[sign..]);
    if whole == 0 then 0
    else
      var point := sign + whole;
      var fraction := if point < |text| && text[point] == '.' then DigitsLength(text[point + 1..]) else 0;
      if fraction == 0 then point else point + 1 + fraction
  }

  /** A string's value up to its closing quote, and the text after that. */
  function StringOf(text: string, quote: char): (r: Option<(string, string)>)
    ensures r.Some? ==> |r.value.1| < |text|
  {
    if text == "" then None
    else if text[0] == quote then Some(("", text[1..]))
    else
      var at := if text[0] == '\\' && |text| > 1 then 1 else 0;
      match StringOf(text[at + 1..], quote)
      case None => None
      case Some((value, rest)) => Some(([text[at]] + value, rest))
  }

  /** The token a text starts with, or none for a space; and the rest. */
  function NextToken(text: string): (r: Result<(seq<Token>, string)>)
    requires text != ""
    ensures r.Ok? ==> |r.value.1| < |text|
  {
    var c := text[0];
    if IsSpace(c) then Ok(([], text[1..]))
    else if |text| > 1 && IsPair(text[..2]) then Ok(([Punct(text[..2])], text[2..]))
    else if IsMark(c) then Ok(([Punct([c])], text[1..]))
    else if c == '\'' || c == '"' then
      match StringOf(text[1..], c)
      case None => Err
      case Some((value, rest)) => Ok(([Str(value)], rest))
    else if NumberLength(text) > 0 then Ok(([Num(text[..NumberLength(text)])], text[NumberLength(text)..]))
    else if IsLetter(c) then Ok(([Word(text[..WordLength(text)])], text[WordLength(text)..]))
    else Err
  }

  function Before(tokens: seq<Token>, rest: Result<seq<Token>>): Result<seq<Token>> {
    if rest.Ok? then Ok(tokens + rest.value) else Err
  }

  function Tokens(text: string): Result<seq<Token>>
    decreases |text|
  {
    if text == "" then Ok([End])
    else match NextToken(text)
      case Err => Err
      case Ok((tokens, rest)) => Before(tokens, Tokens(rest))
  }

  function Longer(value: string, rest: Option<(string, string)>): Option<(string, string)> {
    if rest.Some? then Some((value + rest.value.0, rest.value.1)) else None
  }

  lemma {:induction false} LongerStill(value: string, c: char, rest: Option<(string, string)>)
    ensures Longer(value, Longer([c], rest)) == Longer(value + [c], rest) && Longer("", rest) == rest
  {
    if rest.Some? {
      assert value + ([c] + rest.value.0) == value + [c] + rest.value.0;
      assert "" + rest.value.0 == rest.value.0;
    }
  }

  /** A string's value so far, and what is left of it. */
  lemma {:induction false} StringTurn(source: string, i: nat, quote: char, value: string)
    requires i < |source| && source[i] != quote
    ensures var at := if source[i] == '\\' && i + 1 < |source| then i + 1 else i;
      Longer(value, StringOf(source[i..], quote)) == Longer(value + [source[at]], StringOf(source[at + 1..], quote))
  {
    var at := if source[i] == '\\' && i + 1 < |source| then i + 1 else i;
    assert source[i..][at - i + 1..] == source[at + 1..] && source[i..][at - i] == source[at];
    assert StringOf(source[i..], quote) == Longer([source[at]], StringOf(source[at + 1..], quote));
    LongerStill(value, source[at], StringOf(source[at + 1..], quote));
  }

  lemma {:induction false} StringEnd(source: string, i: nat, quote: char, value: string)
    requires i <= |source| && (i < |source| ==> source[i] == quote)
    ensures Longer(value, StringOf(source[i..], quote)) == if i < |source| then Some((value, source[i + 1..])) else None
  {
    if i < |source| {
      assert source[i..][1..] == source[i + 1..];
      assert value + "" == value;
    }
  }

  /** The string loop: its value and where it ends, past the closing quote. */
  method TakeString(source: string, start: nat, quote: char) returns (end: nat, value: string)
    requires start <= |source|
    ensures StringOf(source[start..], quote) == if end <= |source| then Some((value, source[end..])) else None
    ensures end <= |source| ==> start < end
  {
    var i := start;
    value := "";
    LongerStill("", quote, StringOf(source[start..], quote));
    while i < |source| && source[i] != quote
      invariant start <= i <= |source|
      invariant StringOf(source[start..], quote) == Longer(value, StringOf(source[i..], quote))
    {
      StringTurn(source, i, quote, value);
      if source[i] == '\\' && i + 1 < |source| { i := i + 1; }
      value := value + [source[i]];
      i := i + 1;
    }
    StringEnd(source, i, quote, value);
    return i + 1, value;
  }

  method Tokenize(source: string) returns (result: Result<seq<Token>>)
    ensures result == Tokens(source)
  {
    var tokens, i := [], 0;
    assert source[0..] == source;
    BeforeNothing(Tokens(source));
    while i < |source|
      invariant 0 <= i <= |source|
      invariant Tokens(source) == Before(tokens, Tokens(source[i..]))
    {
      var at, found := NextAt(source, i);
      if at.None? { return Err; }
      BeforeBefore(tokens, found, Tokens(source[at.value..]));
      tokens, i := tokens + found, at.value;
    }
    assert source[i..] == "";
    return Ok(tokens + [End]);
  }

  /** One turn of the tokenizer's loop. */
  method NextAt(source: string, i: nat) returns (at: Option<nat>, found: seq<Token>)
    requires i < |source|
    ensures at.None? ==> NextToken(source[i..]) == Err
    ensures at.Some? ==> i < at.value <= |source| && NextToken(source[i..]) == Ok((found, source[at.value..]))
  {
    var c, rest := source[i], source[i..];
    assert rest[1..] == source[i + 1..];
    assert |rest| > 1 ==> rest[2..] == source[i + 2..];
    assert rest[NumberLength(rest)..] == source[i + NumberLength(rest)..];
    assert rest[WordLength(rest)..] == source[i + WordLength(rest)..];
    if IsSpace(c) { return Some(i + 1), []; }
    if |rest| > 1 && IsPair(rest[..2]) { return Some(i + 2), [Punct(rest[..2])]; }
    if IsMark(c) { return Some(i + 1), [Punct([c])]; }
    if c == '\'' || c == '"' {
      var end, value := TakeString(source, i + 1, c);
      if end > |source| { return None, []; }
      return Some(end), [Str(value)];
    }
    if NumberLength(rest) > 0 { return Some(i + NumberLength(rest)), [Num(rest[..NumberLength(rest)])]; }
    if IsLetter(c) { return Some(i + WordLength(rest)), [Word(rest[..WordLength(rest)])]; }
    return None, [];
  }

  lemma {:induction false} BeforeNothing(rest: Result<seq<Token>>)
    ensures Before([], rest) == rest
  {
    if rest.Ok? { assert [] + rest.value == rest.value; }
  }

  lemma {:induction false} BeforeBefore(a: seq<Token>, b: seq<Token>, rest: Result<seq<Token>>)
    ensures Before(a, Before(b, rest)) == Before(a + b, rest)
  {
    if rest.Ok? { assert a + (b + rest.value) == a + b + rest.value; }
  }
}
