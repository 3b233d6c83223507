/** Conditions printed as the `.if` language writes them (src/plan/when.ts, printWhen), and read
    back. */
module ConditionPrint {
  import opened Wrappers
  import opened Text
  import opened When
  import opened Condition
  import opened ConditionParser

  // ----- Printing -----

  /** A quote or a backslash escaped. */
  function Escaped(text: string): string {
    if text == "" then ""
    else (if text[0] == '\\' || text[0] == '\'' then ['\\', text[0]] else [text[0]]) + Escaped(text[1..])
  }

  function PrintLiteral(value: Literal): string {
    match value
    case Flag(on) => if on then "true" else "false"
    case Text(text) => "'" + Escaped(text) + "'"
  }

  function Joined(parts: seq<string>, between: string): string {
    if parts == [] then ""
    else if |parts| == 1 then parts[0]
    else parts[0] + between + Joined(parts[1..], between)
  }

  function Literals(values: seq<Literal>): seq<string> {
    seq(|values|, i requires 0 <= i < |values| => PrintLiteral(values[i]))
  }

  function OrderText(order: Order): string {
    match order
    case Lt => "<"
    case Le => "<="
    case Gt => ">"
    case Ge => ">="
  }

  datatype Parent = InAll | InAny | InNot

  /** Whether a condition within another needs brackets. */
  predicate Bracketed(child: When, parent: Parent) {
    (child.Any? && !parent.InAny?) || (child.All? && parent.InNot?)
  }

  function Inner(printed: string, child: When, parent: Parent): string {
    if Bracketed(child, parent) then "(" + printed + ")" else printed
  }

  function Print(node: When): string {
    match node
    case Always => "*"
    case Is(fact, value, negated) => fact + (if negated then " != " else " == ") + PrintLiteral(value)
    case OneOf(fact, values) => fact + " in [" + Joined(Literals(values), ", ") + "]"
    case Compare(fact, order, release) => fact + " " + OrderText(order) + " '" + release + "'"
    case All(of) => Joined(seq(|of|, i requires 0 <= i < |of| => Inner(Print(of[i]), of[i], InAll)), " AND ")
    case Any(of) => Joined(seq(|of|, i requires 0 <= i < |of| => Inner(Print(of[i]), of[i], InAny)), " OR ")
    case Not(inner) => "NOT " + Inner(Print(inner), inner, InNot)
  }

  // ----- The tokens printed -----

  function LiteralToken(value: Literal): Token {
    match value
    case Flag(on) => Word(if on then "true" else "false")
    case Text(text) => Str(text)
  }

  function TokensJoined(parts: seq<seq<Token>>, between: Token): seq<Token> {
    if parts == [] then []
    else if |parts| == 1 then parts[0]
    else parts[0] + [between] + TokensJoined(parts[1..], between)
  }

  function LiteralTokens(values: seq<Literal>): seq<seq<Token>> {
    seq(|values|, i requires 0 <= i < |values| => [LiteralToken(values[i])])
  }

  function InnerTokens(printed: seq<Token>, child: When, parent: Parent): seq<Token> {
    if Bracketed(child, parent) then [Punct("(")] + printed + [Punct(")")] else printed
  }

  function TokensOf(node: When): seq<Token> {
    match node
    case Always => [Punct("*")]
    case Is(fact, value, negated) => [Word(fact), Punct(if negated then "!=" else "=="), LiteralToken(value)]
    case OneOf(fact, values) => [Word(fact), Word("in"), Punct("[")] + TokensJoined(LiteralTokens(values), Punct(",")) + [Punct("]")]
    case Compare(fact, order, release) => [Word(fact), Punct(OrderText(order)), Str(release)]
    case All(of) => TokensJoined(seq(|of|, i requires 0 <= i < |of| => InnerTokens(TokensOf(of[i]), of[i], InAll)), Word("AND"))
    case Any(of) => TokensJoined(seq(|of|, i requires 0 <= i < |of| => InnerTokens(TokensOf(of[i]), of[i], InAny)), Word("OR"))
    case Not(inner) => [Word("NOT")] + InnerTokens(TokensOf(inner), inner, InNot)
  }

  // ----- The text printed has those tokens -----

  /** A text no word runs on into. */
  predicate Bounded(rest: string) {
    rest == "" || !IsWordPart(rest[0])
  }

  /** A text of whole tokens, whatever follows it. */
  ghost predicate Lexes(text: string, tokens: seq<Token>) {
    forall rest :: Tokens(text + rest) == Before(tokens, Tokens(rest))
  }

  /** A text of whole tokens, when what follows does not run on from it. */
  ghost predicate LexesBounded(text: string, tokens: seq<Token>) {
    forall rest | Bounded(rest) :: Tokens(text + rest) == Before(tokens, Tokens(rest))
  }

  lemma {:induction false} LexesAt(a: string, x: seq<Token>, b: string, y: seq<Token>, rest: string)
    requires Tokens(a + (b + rest)) == Before(x, Tokens(b + rest))
    requires Tokens(b + rest) == Before(y, Tokens(rest))
    ensures Tokens(a + b + rest) == Before(x + y, Tokens(rest))
  {
    assert a + b + rest == a + (b + rest);
    BeforeBefore(x, y, Tokens(rest));
  }

  lemma {:induction false} LexesThen(a: string, x: seq<Token>, b: string, y: seq<Token>)
    requires Lexes(a, x) && LexesBounded(b, y)
    ensures LexesBounded(a + b, x + y)
  {
    forall rest | Bounded(rest) ensures Tokens(a + b + rest) == Before(x + y, Tokens(rest)) {
      LexesAt(a, x, b, y, rest);
    }
  }

  lemma {:induction false} LexesBoth(a: string, x: seq<Token>, b: string, y: seq<Token>)
    requires LexesBounded(a, x) && Lexes(b, y) && b != "" && !IsWordPart(b[0])
    ensures Lexes(a + b, x + y)
  {
    forall rest ensures Tokens(a + b + rest) == Before(x + y, Tokens(rest)) {
      assert Bounded(b + rest);
      LexesAt(a, x, b, y, rest);
    }
  }

  /** A text, a mark that bounds it, and more. */
  lemma {:induction false} LexesThree(a: string, x: seq<Token>, mark: string, token: Token, b: string, y: seq<Token>)
    requires LexesBounded(a, x) && LexesBetween(mark, token) && LexesBounded(b, y)
    ensures LexesBounded(a + mark + b, x + [token] + y)
  {
    LexesBoth(a, x, mark, [token]);
    LexesThen(a + mark, x + [token], b, y);
  }

  lemma {:induction false} WordLexes(word: string)
    requires IsWordText(word)
    ensures LexesBounded(word, [Word(word)])
  {
    forall rest | Bounded(rest) ensures Tokens(word + rest) == Before([Word(word)], Tokens(rest)) {
      var text := word + rest;
      WordEnds(word, rest);
      assert text[..|word|] == word && text[|word|..] == rest;
      assert text[0] == word[0];
      assert |text| > 1 ==> text[..2][0] == word[0];
    }
  }

  lemma {:induction false} WordEnds(word: string, rest: string)
    requires Bounded(rest) && forall i :: 0 <= i < |word| ==> IsWordPart(word[i])
    ensures WordLength(word + rest) == |word|
    decreases |word|
  {
    if word == "" {
      assert word + rest == rest;
    } else {
      assert (word + rest)[1..] == word[1..] + rest;
      WordEnds(word[1..], rest);
    }
  }

  /** One mark, when it does not pair with what follows. */
  lemma {:induction false} MarkLexes(mark: char)
    requires mark == '(' || mark == ')' || mark == '[' || mark == ']' || mark == ',' || mark == '*'
    ensures Lexes([mark], [Punct([mark])])
  {
    forall rest ensures Tokens([mark] + rest) == Before([Punct([mark])], Tokens(rest)) {
      MarkNext(mark, rest);
      OneToken([mark] + rest, [Punct([mark])], rest);
    }
  }

  lemma {:induction false} OneToken(text: string, tokens: seq<Token>, rest: string)
    requires text != "" && NextToken(text) == Ok((tokens, rest))
    ensures Tokens(text) == Before(tokens, Tokens(rest))
  {
  }

  lemma {:induction false} MarkNext(mark: char, rest: string)
    requires mark == '(' || mark == ')' || mark == '[' || mark == ']' || mark == ',' || mark == '*'
    ensures NextToken([mark] + rest) == Ok(([Punct([mark])], rest))
  {
    var text := [mark] + rest;
    assert text[1..] == rest && text[0] == mark;
    assert |text| > 1 ==> text[..2][0] == mark;
  }

  lemma {:induction false} SpaceLexes()
    ensures Lexes(" ", [])
  {
    forall rest ensures Tokens(" " + rest) == Before([], Tokens(rest)) {
      assert (" " + rest)[1..] == rest;
      BeforeNothing(Tokens(rest));
    }
  }

  lemma {:induction false} StringEnds(text: string, rest: string)
    ensures StringOf(Escaped(text) + "'" + rest, '\'') == Some((text, rest))
    decreases |text|
  {
    var whole := Escaped(text) + "'" + rest;
    if text == "" {
      assert whole[1..] == rest;
    } else {
      var at := if text[0] == '\\' || text[0] == '\'' then 1 else 0;
      assert whole[at] == text[0] && whole[at + 1..] == Escaped(text[1..]) + "'" + rest;
      StringEnds(text[1..], rest);
      assert [text[0]] + text[1..] == text;
    }
  }

  lemma {:induction false} QuotedLexes(text: string)
    ensures Lexes("'" + Escaped(text) + "'", [Str(text)])
  {
    forall rest ensures Tokens("'" + Escaped(text) + "'" + rest) == Before([Str(text)], Tokens(rest)) {
      var whole := "'" + Escaped(text) + "'" + rest;
      assert whole[1..] == Escaped(text) + "'" + rest && whole[0] == '\'';
      assert |whole| > 1 ==> whole[..2][0] == '\'';
      StringEnds(text, rest);
    }
  }

  lemma {:induction false} LexesIsBounded(text: string, tokens: seq<Token>)
    requires Lexes(text, tokens)
    ensures LexesBounded(text, tokens)
  {
  }

  lemma {:induction false} LiteralLexes(value: Literal)
    ensures LexesBounded(PrintLiteral(value), [LiteralToken(value)])
  {
    match value
    case Flag(on) => WordLexes(if on then "true" else "false");
    case Text(text) => QuotedLexes(text);
  }

  /** Between blanks: a mark or a keyword, which starts and ends as no word does. */
  ghost predicate LexesBetween(text: string, token: Token) {
    text != "" && !IsWordPart(text[0]) && Lexes(text, [token])
  }

  lemma {:induction false} BlankLexes(text: string, tokens: seq<Token>)
    requires LexesBounded(text, tokens)
    ensures Lexes(" " + text + " ", tokens) && Lexes(text + " ", tokens)
  {
    SpaceLexes();
    LexesBoth(text, tokens, " ", []);
    assert tokens + [] == tokens && [] + tokens == tokens;
    forall rest ensures Tokens(" " + text + " " + rest) == Before(tokens, Tokens(rest)) {
      assert " " + text + " " + rest == " " + (text + " " + rest);
      BeforeNothing(Tokens(text + " " + rest));
    }
  }

  lemma {:induction false} PairLexes(pair: string)
    requires IsPair(pair)
    ensures Lexes(pair, [Punct(pair)])
  {
    forall rest ensures Tokens(pair + rest) == Before([Punct(pair)], Tokens(rest)) {
      var text := pair + rest;
      assert text[..2] == pair && text[2..] == rest && text[0] == pair[0];
    }
  }

  /** A `<` or `>` with a blank after it. */
  lemma {:induction false} OrderLexes(order: Order)
    ensures Lexes(" " + OrderText(order) + " ", [Punct(OrderText(order))])
  {
    var text := OrderText(order);
    if order.Le? || order.Ge? {
      PairLexes(text);
      LexesIsBounded(text, [Punct(text)]);
      BlankLexes(text, [Punct(text)]);
    } else {
      forall rest ensures Tokens(" " + text + " " + rest) == Before([Punct(text)], Tokens(rest)) {
        SingleOrder(text[0], rest);
      }
    }
  }

  lemma {:induction false} SingleOrder(mark: char, rest: string)
    requires mark == '<' || mark == '>'
    ensures Tokens(" " + [mark] + " " + rest) == Before([Punct([mark])], Tokens(rest))
  {
    SpaceLexes();
    var text := [mark] + (" " + rest);
    assert " " + [mark] + " " + rest == " " + text;
    BeforeNothing(Tokens(text));
    BeforeNothing(Tokens(rest));
    assert text[1..] == " " + rest && text[0] == mark;
    assert text[..2] == [mark, ' '];
  }

  lemma {:induction false} JoinedLexes(parts: seq<string>, tokens: seq<seq<Token>>, between: string, token: Token)
    requires parts != [] && |parts| == |tokens| && LexesBetween(between, token)
    requires forall i :: 0 <= i < |parts| ==> LexesBounded(parts[i], tokens[i])
    ensures LexesBounded(Joined(parts, between), TokensJoined(tokens, token))
    decreases |parts|
  {
    if |parts| > 1 {
      JoinedLexes(parts[1..], tokens[1..], between, token);
      LexesBoth(parts[0], tokens[0], between, [token]);
      LexesThen(parts[0] + between, tokens[0] + [token], Joined(parts[1..], between), TokensJoined(tokens[1..], token));
    }
  }

  // ----- What prints -----

  predicate IsQuoteFree(text: string) {
    forall i :: 0 <= i < |text| ==> text[i] != '\'' && text[i] != '\\'
  }

  /** Every release compared with free of quotes and backslashes, which are not escaped there. */
  predicate Printable(node: When) {
    match node
    case Compare(_, _, release) => IsQuoteFree(release)
    case All(of) => forall i :: 0 <= i < |of| ==> Printable(of[i])
    case Any(of) => forall i :: 0 <= i < |of| ==> Printable(of[i])
    case Not(inner) => Printable(inner)
    case _ => true
  }

  lemma {:induction false} QuoteFreeEscaped(text: string)
    requires IsQuoteFree(text)
    ensures Escaped(text) == text
    decreases |text|
  {
    if text != "" { QuoteFreeEscaped(text[1..]); }
  }

  lemma {:induction false} CompareLexes(fact: string, order: Order, release: string)
    requires IsWordText(fact) && IsQuoteFree(release)
    ensures LexesBounded(Print(Compare(fact, order, release)), TokensOf(Compare(fact, order, release)))
  {
    QuoteFreeEscaped(release);
    var mark, quoted := " " + OrderText(order) + " ", "'" + Escaped(release) + "'";
    WordLexes(fact);
    OrderLexes(order);
    QuotedLexes(release);
    LexesIsBounded(quoted, [Str(release)]);
    LexesThree(fact, [Word(fact)], mark, Punct(OrderText(order)), quoted, [Str(release)]);
    ComparePrints(fact, order, release);
  }

  lemma {:induction false} ComparePrints(fact: string, order: Order, release: string)
    requires Escaped(release) == release
    ensures fact + (" " + OrderText(order) + " ") + ("'" + Escaped(release) + "'") == Print(Compare(fact, order, release))
    ensures [Word(fact)] + [Punct(OrderText(order))] + [Str(release)] == TokensOf(Compare(fact, order, release))
  {
    assert " " + OrderText(order) + " '" == (" " + OrderText(order) + " ") + "'";
  }

  lemma {:induction false} IsLexes(fact: string, value: Literal, negated: bool)
    requires IsWordText(fact)
    ensures LexesBounded(Print(Is(fact, value, negated)), TokensOf(Is(fact, value, negated)))
  {
    var pair := if negated then "!=" else "==";
    WordLexes(fact);
    PairLexes(pair);
    LexesIsBounded(pair, [Punct(pair)]);
    BlankLexes(pair, [Punct(pair)]);
    LiteralLexes(value);
    LexesThree(fact, [Word(fact)], " " + pair + " ", Punct(pair), PrintLiteral(value), [LiteralToken(value)]);
    IsPrints(fact, value, negated);
  }

  lemma {:induction false} IsPrints(fact: string, value: Literal, negated: bool)
    ensures var pair := if negated then "!=" else "==";
      && fact + (" " + pair + " ") + PrintLiteral(value) == Print(Is(fact, value, negated))
      && [Word(fact)] + [Punct(pair)] + [LiteralToken(value)] == TokensOf(Is(fact, value, negated))
  {
    var pair := if negated then "!=" else "==";
    assert " " + pair + " " == if negated then " != " else " == ";
  }
}
