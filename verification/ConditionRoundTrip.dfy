/** A condition printed and parsed is the condition it was (src/plan/when.ts, printWhen;
    src/condition.ts, parse). */
module ConditionRoundTrip {
  import opened Wrappers
  import opened When
  import opened Condition
  import opened ConditionParser
  import opened ConditionPrint

  // ----- Printed, it has its tokens -----

  lemma {:induction false} LexesMore(a: string, x: seq<Token>, b: string, y: seq<Token>)
    requires Lexes(a, x) && Lexes(b, y)
    ensures Lexes(a + b, x + y)
  {
    forall rest ensures Tokens(a + b + rest) == Before(x + y, Tokens(rest)) {
      LexesAt(a, x, b, y, rest);
    }
  }

  lemma {:induction false} CommaLexes()
    ensures LexesBetween(", ", Punct(","))
  {
    MarkLexes(',');
    SpaceLexes();
    LexesMore([','], [Punct([','])], " ", []);
    assert [','] + " " == ", " && [Punct([','])] + [] == [Punct(",")];
  }

  lemma {:induction false} KeywordLexes(word: string)
    requires IsWordText(word)
    ensures LexesBetween(" " + word + " ", Word(word))
  {
    WordLexes(word);
    BlankLexes(word, [Word(word)]);
  }

  lemma {:induction false} LiteralsLex(values: seq<Literal>)
    requires values != []
    ensures LexesBounded(ConditionPrint.Joined(Literals(values), ", "), TokensJoined(LiteralTokens(values), Punct(",")))
  {
    forall i | 0 <= i < |values| ensures LexesBounded(Literals(values)[i], LiteralTokens(values)[i]) { LiteralLexes(values[i]); }
    CommaLexes();
    JoinedLexes(Literals(values), LiteralTokens(values), ", ", Punct(","));
  }

  /** A text within brackets of either kind. */
  lemma {:induction false} EnclosedLexes(open: char, text: string, tokens: seq<Token>, close: char)
    requires (open == '(' && close == ')') || (open == '[' && close == ']')
    requires LexesBounded(text, tokens)
    ensures Lexes([open] + text + [close], [Punct([open])] + tokens + [Punct([close])])
  {
    MarkLexes(open);
    MarkLexes(close);
    LexesThen([open], [Punct([open])], text, tokens);
    LexesBoth([open] + text, [Punct([open])] + tokens, [close], [Punct([close])]);
  }

  lemma {:induction false} OneOfLexes(fact: string, values: seq<Literal>)
    requires IsWordText(fact) && values != []
    ensures LexesBounded(Print(OneOf(fact, values)), TokensOf(OneOf(fact, values)))
  {
    var text, tokens := ConditionPrint.Joined(Literals(values), ", "), TokensJoined(LiteralTokens(values), Punct(","));
    WordLexes(fact);
    KeywordLexes("in");
    LiteralsLex(values);
    EnclosedLexes('[', text, tokens, ']');
    LexesIsBounded(['['] + text + [']'], [Punct(['['])] + tokens + [Punct([']'])]);
    LexesThree(fact, [Word(fact)], " " + "in" + " ", Word("in"), ['['] + text + [']'], [Punct(['['])] + tokens + [Punct([']'])]);
    OneOfPrints(fact, values);
  }

  lemma {:induction false} OneOfPrints(fact: string, values: seq<Literal>)
    ensures var text, tokens := ConditionPrint.Joined(Literals(values), ", "), TokensJoined(LiteralTokens(values), Punct(","));
      && fact + (" " + "in" + " ") + (['['] + text + [']']) == Print(OneOf(fact, values))
      && [Word(fact)] + [Word("in")] + ([Punct(['['])] + tokens + [Punct([']'])]) == TokensOf(OneOf(fact, values))
  {
    assert " " + "in" + " " + ['['] == " in [";
  }

  predicate Prints(node: When) {
    Good(node) && Printable(node)
  }

  lemma {:induction false} InnerLexes(child: When, parent: Parent)
    requires LexesBounded(Print(child), TokensOf(child))
    ensures LexesBounded(Inner(Print(child), child, parent), InnerTokens(TokensOf(child), child, parent))
  {
    if Bracketed(child, parent) {
      EnclosedLexes('(', Print(child), TokensOf(child), ')');
      LexesIsBounded("(" + Print(child) + ")", [Punct("(")] + TokensOf(child) + [Punct(")")]);
    }
  }

  lemma {:induction false} PrintLexes(node: When)
    requires Prints(node)
    ensures LexesBounded(Print(node), TokensOf(node))
    decreases node, 1
  {
    match node
    case Always =>
      MarkLexes('*');
      LexesIsBounded("*", [Punct("*")]);
    case Is(fact, value, negated) => IsLexes(fact, value, negated);
    case OneOf(fact, values) => OneOfLexes(fact, values);
    case Compare(fact, order, release) => CompareLexes(fact, order, release);
    case All(of) => PartsLex(node, of, InAll, "AND");
    case Any(of) => PartsLex(node, of, InAny, "OR");
    case Not(inner) => NotLexes(inner);
  }

  lemma {:induction false} NotLexes(inner: When)
    requires Prints(inner)
    ensures LexesBounded(Print(Not(inner)), TokensOf(Not(inner)))
    decreases inner, 3
  {
    var text, tokens := InnerPrinted(inner);
    AfterNotLexes(text, tokens);
    assert Print(Not(inner)) == "NOT " + text && TokensOf(Not(inner)) == [Word("NOT")] + tokens;
  }

  lemma {:induction false} InnerPrinted(inner: When) returns (text: string, tokens: seq<Token>)
    requires Prints(inner)
    ensures text == Inner(Print(inner), inner, InNot) && tokens == InnerTokens(TokensOf(inner), inner, InNot)
    ensures LexesBounded(text, tokens)
    decreases inner, 2
  {
    PrintLexes(inner);
    InnerLexes(inner, InNot);
    text, tokens := Inner(Print(inner), inner, InNot), InnerTokens(TokensOf(inner), inner, InNot);
  }

  lemma {:induction false} AfterNotLexes(text: string, tokens: seq<Token>)
    requires LexesBounded(text, tokens)
    ensures LexesBounded("NOT " + text, [Word("NOT")] + tokens)
  {
    WordLexes("NOT");
    BlankLexes("NOT", [Word("NOT")]);
    assert "NOT" + " " == "NOT ";
    LexesThen("NOT ", [Word("NOT")], text, tokens);
  }

  lemma {:induction false} PartsLex(node: When, of: seq<When>, parent: Parent, word: string)
    requires Prints(node)
    requires (node == All(of) && parent.InAll? && word == "AND") || (node == Any(of) && parent.InAny? && word == "OR")
    ensures LexesBounded(Print(node), TokensOf(node))
    decreases node, 0
  {
    var parts := seq(|of|, i requires 0 <= i < |of| => Inner(Print(of[i]), of[i], parent));
    var tokens := seq(|of|, i requires 0 <= i < |of| => InnerTokens(TokensOf(of[i]), of[i], parent));
    forall i | 0 <= i < |of| ensures LexesBounded(parts[i], tokens[i]) {
      PrintLexes(of[i]);
      InnerLexes(of[i], parent);
    }
    KeywordLexes(word);
    JoinedLexes(parts, tokens, " " + word + " ", Word(word));
    if parent.InAll? {
      assert " " + word + " " == " AND ";
      assert parts == seq(|of|, i requires 0 <= i < |of| => Inner(Print(of[i]), of[i], InAll));
      assert tokens == seq(|of|, i requires 0 <= i < |of| => InnerTokens(TokensOf(of[i]), of[i], InAll));
    } else {
      assert " " + word + " " == " OR ";
      assert parts == seq(|of|, i requires 0 <= i < |of| => Inner(Print(of[i]), of[i], InAny));
      assert tokens == seq(|of|, i requires 0 <= i < |of| => InnerTokens(TokensOf(of[i]), of[i], InAny));
    }
  }

  // ----- And those tokens parse as it -----

  predicate Stops(rest: seq<Token>, kind: Kind) {
    rest != [] && !IsJoin(rest[0], kind)
  }

  /** What may follow an operand of a kind's chain. */
  predicate Follows(kind: Kind, rest: seq<Token>) {
    rest != [] && (kind.AnyOf? ==> Stops(rest, AllOf))
  }

  ghost predicate ParsesAsOperand(kind: Kind, tokens: seq<Token>, node: When) {
    forall rest | Follows(kind, rest) :: Operand(kind, tokens + rest) == Ok(Parsed(node, rest))
  }

  function JoinWord(kind: Kind): Token {
    if kind.AllOf? then Word("AND") else Word("OR")
  }

  lemma {:induction false} JoinWords()
    ensures IsJoin(Word("AND"), AllOf) && IsJoin(Word("OR"), AnyOf)
    ensures !IsJoin(Word("AND"), AnyOf) && !IsJoin(Word("OR"), AllOf)
    ensures IsNot(Word("NOT")) && IsKeyword(Word("in"), "IN")
    ensures IsKeyword(Word("true"), "TRUE") && IsKeyword(Word("false"), "FALSE") && !IsKeyword(Word("false"), "TRUE")
  {
    assert Upper("AND") == "AND" && Upper("OR") == "OR" && Upper("NOT") == "NOT" && Upper("in") == "IN";
    assert Upper("true") == "TRUE" && Upper("false") == "FALSE";
    assert "OR" != "AND" && "FALSE" != "TRUE" by { assert |"OR"| != |"AND"| && |"FALSE"| != |"TRUE"|; }
  }

  /** Each operand after the first, with the word before it. */
  function Others(parts: seq<seq<Token>>, kind: Kind): seq<Token> {
    if parts == [] then [] else [JoinWord(kind)] + parts[0] + Others(parts[1..], kind)
  }

  lemma {:induction false} JoinedIsOthers(parts: seq<seq<Token>>, kind: Kind)
    requires parts != []
    ensures TokensJoined(parts, JoinWord(kind)) == parts[0] + Others(parts[1..], kind)
    decreases |parts|
  {
    if |parts| > 1 {
      JoinedIsOthers(parts[1..], kind);
      assert parts[0] + [JoinWord(kind)] + (parts[1] + Others(parts[1..][1..], kind))
        == parts[0] + ([JoinWord(kind)] + parts[1] + Others(parts[1..][1..], kind));
    } else {
      assert parts[0] + [] == parts[0];
    }
  }

  /** The tree of a chain's first operands. */
  function SoFar(kind: Kind, of: seq<When>, k: nat): When
    requires 0 < k <= |of|
  {
    if k == 1 then of[0] else Of(kind, of[..k])
  }

  lemma {:induction false} SoFarGrows(kind: Kind, of: seq<When>, k: nat)
    requires 0 < k < |of| && forall i :: 0 <= i < |of| ==> !IsKind(of[i], kind)
    ensures Join2(kind, SoFar(kind, of, k), of[k]) == SoFar(kind, of, k + 1)
  {
    assert of[..k + 1] == of[..k] + [of[k]];
    assert k == 1 ==> of[..1] == [of[0]];
  }

  lemma {:induction false} ChainParses(kind: Kind, of: seq<When>, parts: seq<seq<Token>>, k: nat, rest: seq<Token>)
    requires 0 < k <= |of| == |parts| && Follows(kind, rest) && Stops(rest, kind)
    requires forall i :: 0 <= i < |of| ==> !IsKind(of[i], kind) && ParsesAsOperand(kind, parts[i], of[i])
    ensures Chain(kind, SoFar(kind, of, k), Others(parts[k..], kind) + rest) == Ok(Parsed(SoFar(kind, of, |of|), rest))
    decreases |of| - k
  {
    if k == |of| {
      assert Others(parts[k..], kind) + rest == rest;
    } else {
      var more := Others(parts[k + 1..], kind) + rest;
      var ts := Others(parts[k..], kind) + rest;
      assert parts[k..][1..] == parts[k + 1..];
      assert ts == [JoinWord(kind)] + (parts[k] + more);
      JoinWords();
      assert Follows(kind, more) by { if k + 1 < |of| { assert more[0] == JoinWord(kind); } }
      assert ts[1..] == parts[k] + more;
      assert Operand(kind, parts[k] + more) == Ok(Parsed(of[k], more));
      SoFarGrows(kind, of, k);
      ChainParses(kind, of, parts, k + 1, rest);
    }
  }

  lemma {:induction false} BinaryParses(kind: Kind, of: seq<When>, parts: seq<seq<Token>>, rest: seq<Token>)
    requires 2 <= |of| == |parts| && Follows(kind, rest) && Stops(rest, kind)
    requires forall i :: 0 <= i < |of| ==> !IsKind(of[i], kind) && ParsesAsOperand(kind, parts[i], of[i])
    ensures Binary(kind, TokensJoined(parts, JoinWord(kind)) + rest) == Ok(Parsed(Of(kind, of), rest))
  {
    JoinedIsOthers(parts, kind);
    var more := Others(parts[1..], kind) + rest;
    assert TokensJoined(parts, JoinWord(kind)) + rest == parts[0] + more;
    JoinWords();
    assert Follows(kind, more) by { assert more[0] == JoinWord(kind); }
    assert Operand(kind, parts[0] + more) == Ok(Parsed(of[0], more));
    ChainParses(kind, of, parts, 1, rest);
    assert of[..|of|] == of;
  }

  // ----- Leaves -----

  lemma {:induction false} LiteralParses(value: Literal, rest: seq<Token>)
    ensures ValueOf([LiteralToken(value)] + rest) == Ok(Parsed(value, rest))
  {
    JoinWords();
    assert ([LiteralToken(value)] + rest)[1..] == rest;
  }

  lemma {:induction false} ValuesParse(values: seq<Literal>, more: seq<Literal>, rest: seq<Token>)
    ensures MoreValues(values, LaterValues(more) + [Punct("]")] + rest) == Ok(Parsed(values + more, rest))
    decreases |more|
  {
    var ts := LaterValues(more) + [Punct("]")] + rest;
    if more == [] {
      assert ts[1..] == rest && values + more == values;
    } else {
      var tail := LaterValues(more[1..]) + [Punct("]")] + rest;
      assert ts == [Punct(",")] + ([LiteralToken(more[0])] + tail);
      assert ts[1..] == [LiteralToken(more[0])] + tail;
      LiteralParses(more[0], tail);
      ValuesParse(values + [more[0]], more[1..], rest);
      assert values + [more[0]] + more[1..] == values + more;
    }
  }

  function LaterValues(more: seq<Literal>): seq<Token> {
    if more == [] then [] else [Punct(",")] + [LiteralToken(more[0])] + LaterValues(more[1..])
  }

  lemma {:induction false} ValuesJoined(values: seq<Literal>)
    requires values != []
    ensures TokensJoined(LiteralTokens(values), Punct(",")) == [LiteralToken(values[0])] + LaterValues(values[1..])
    decreases |values|
  {
    if |values| > 1 {
      ValuesJoined(values[1..]);
      assert LiteralTokens(values)[1..] == LiteralTokens(values[1..]);
    }
  }

  /** A name is none of the words kept for the language. */
  lemma {:induction false} FactIsFree(fact: string)
    requires IsFact(fact)
    ensures !IsReserved(Word(fact)) && !IsNot(Word(fact))
  {
    assert |Upper(fact)| == |fact| > 3;
    assert |"AND"| == 3 && |"OR"| == 2 && |"NOT"| == 3 && |"IN"| == 2;
  }

  lemma {:induction false} IsParses(fact: string, value: Literal, negated: bool, rest: seq<Token>)
    ensures TestOf(fact, TokensOf(Is(fact, value, negated))[1..] + rest) == Ok(Parsed(Is(fact, value, negated), rest))
  {
    var ts := TokensOf(Is(fact, value, negated))[1..] + rest;
    assert ts[1..] == [LiteralToken(value)] + rest;
    LiteralParses(value, rest);
  }

  lemma {:induction false} CompareParses(fact: string, order: Order, release: string, rest: seq<Token>)
    ensures TestOf(fact, TokensOf(Compare(fact, order, release))[1..] + rest) == Ok(Parsed(Compare(fact, order, release), rest))
  {
    var ts := TokensOf(Compare(fact, order, release))[1..] + rest;
    assert ts[0] == Punct(OrderText(order)) && ts[1] == Str(release) && ts[2..] == rest;
  }

  lemma {:induction false} OneOfParses(fact: string, values: seq<Literal>, rest: seq<Token>)
    requires values != []
    ensures TestOf(fact, TokensOf(OneOf(fact, values))[1..] + rest) == Ok(Parsed(OneOf(fact, values), rest))
  {
    var tail := LaterValues(values[1..]) + [Punct("]")] + rest;
    OneOfTokens(fact, values, rest);
    LiteralParses(values[0], tail);
    ValuesParse([values[0]], values[1..], rest);
    assert [values[0]] + values[1..] == values;
    ListParses(fact, [LiteralToken(values[0])] + tail, values[0], tail, values, rest);
  }

  lemma {:induction false} OneOfTokens(fact: string, values: seq<Literal>, rest: seq<Token>)
    requires values != []
    ensures TokensOf(OneOf(fact, values))[1..] + rest
      == [Word("in"), Punct("[")] + ([LiteralToken(values[0])] + (LaterValues(values[1..]) + [Punct("]")] + rest))
  {
    ValuesJoined(values);
  }

  /** A list of values after its bracket, its parts parsed. */
  lemma {:induction false} ListParses(fact: string, inside: seq<Token>, first: Literal, tail: seq<Token>, values: seq<Literal>, rest: seq<Token>)
    requires ValueOf(inside) == Ok(Parsed(first, tail)) && MoreValues([first], tail) == Ok(Parsed(values, rest))
    ensures TestOf(fact, [Word("in"), Punct("[")] + inside) == Ok(Parsed(OneOf(fact, values), rest))
  {
    var ts := [Word("in"), Punct("[")] + inside;
    assert ts[2..] == inside;
    JoinWords();
  }

  predicate IsLeaf(node: When) {
    node.Is? || node.OneOf? || node.Compare?
  }

  lemma {:induction false} LeafParses(node: When, rest: seq<Token>)
    requires Good(node) && IsLeaf(node)
    ensures NotOf(TokensOf(node) + rest) == Ok(Parsed(node, rest))
  {
    var ts := TokensOf(node) + rest;
    FactIsFree(node.fact);
    assert ts[0] == Word(node.fact) && ts[1..] == TokensOf(node)[1..] + rest;
    match node
    case Is(fact, value, negated) => IsParses(fact, value, negated, rest);
    case OneOf(fact, values) => OneOfParses(fact, values, rest);
    case Compare(fact, order, release) => CompareParses(fact, order, release, rest);
  }

  // ----- Trees -----

  lemma {:induction false} ChainStops(kind: Kind, ts: seq<Token>, node: When, rest: seq<Token>)
    requires Operand(kind, ts) == Ok(Parsed(node, rest)) && Stops(rest, kind)
    ensures Binary(kind, ts) == Ok(Parsed(node, rest))
  {
  }

  lemma {:induction false} AnyLevelParses(node: When, rest: seq<Token>)
    requires Good(node) && Stops(rest, AllOf) && Stops(rest, AnyOf)
    ensures Binary(AnyOf, TokensOf(node) + rest) == Ok(Parsed(node, rest))
    decreases node, 3
  {
    if node.Any? {
      var parts := seq(|node.of|, i requires 0 <= i < |node.of| => InnerTokens(TokensOf(node.of[i]), node.of[i], InAny));
      forall i | 0 <= i < |node.of| ensures ParsesAsOperand(AnyOf, parts[i], node.of[i]) {
        forall rest | Follows(AnyOf, rest) ensures Operand(AnyOf, parts[i] + rest) == Ok(Parsed(node.of[i], rest)) {
          AllLevelParses(node.of[i], rest);
        }
      }
      BinaryParses(AnyOf, node.of, parts, rest);
    } else {
      AllLevelParses(node, rest);
      ChainStops(AnyOf, TokensOf(node) + rest, node, rest);
    }
  }

  lemma {:induction false} AllLevelParses(node: When, rest: seq<Token>)
    requires Good(node) && !node.Any? && Stops(rest, AllOf)
    ensures Binary(AllOf, TokensOf(node) + rest) == Ok(Parsed(node, rest))
    decreases node, 2
  {
    if node.All? {
      var parts := seq(|node.of|, i requires 0 <= i < |node.of| => InnerTokens(TokensOf(node.of[i]), node.of[i], InAll));
      forall i | 0 <= i < |node.of| ensures ParsesAsOperand(AllOf, parts[i], node.of[i]) {
        forall rest | Follows(AllOf, rest) ensures Operand(AllOf, parts[i] + rest) == Ok(Parsed(node.of[i], rest)) {
          InnerParses(node.of[i], InAll, rest);
        }
      }
      BinaryParses(AllOf, node.of, parts, rest);
    } else {
      NotLevelParses(node, rest);
      ChainStops(AllOf, TokensOf(node) + rest, node, rest);
    }
  }

  lemma {:induction false} NotLevelParses(node: When, rest: seq<Token>)
    requires Good(node) && !node.Any? && !node.All? && rest != []
    ensures NotOf(TokensOf(node) + rest) == Ok(Parsed(node, rest))
    decreases node, 1
  {
    match node
    case Always =>
      assert ([Punct("*")] + rest)[1..] == rest;
    case Not(inner) =>
      var tokens := InnerTokens(TokensOf(inner), inner, InNot);
      InnerParses(inner, InNot, rest);
      JoinWords();
      assert TokensOf(node) + rest == [Word("NOT")] + (tokens + rest);
      assert (TokensOf(node) + rest)[1..] == tokens + rest;
    case _ => LeafParses(node, rest);
  }

  /** Within an `all` or a `not`: in brackets if it must be. */
  lemma {:induction false} InnerParses(child: When, parent: Parent, rest: seq<Token>)
    requires Good(child) && rest != [] && (parent.InNot? || (parent.InAll? && !child.All?))
    ensures NotOf(InnerTokens(TokensOf(child), child, parent) + rest) == Ok(Parsed(child, rest))
    decreases child, 4
  {
    if Bracketed(child, parent) {
      AnyLevelParses(child, [Punct(")")] + rest);
      BracketsParse(TokensOf(child), child, rest);
    } else {
      NotLevelParses(child, rest);
    }
  }

  lemma {:induction false} BracketsParse(tokens: seq<Token>, child: When, rest: seq<Token>)
    requires Binary(AnyOf, tokens + ([Punct(")")] + rest)) == Ok(Parsed(child, [Punct(")")] + rest))
    ensures NotOf([Punct("(")] + tokens + [Punct(")")] + rest) == Ok(Parsed(child, rest))
  {
    var ts := [Punct("(")] + tokens + [Punct(")")] + rest;
    assert ts[0] == Punct("(") && ts[1..] == tokens + ([Punct(")")] + rest);
    assert ([Punct(")")] + rest)[1..] == rest;
  }

  /** Printed and parsed, a condition is itself: any tree with no join nested in one of its kind, at
      least two in each, facts a device has, and releases free of quotes and backslashes. */
  lemma {:induction false} PrintParses(node: When)
    requires Good(node) && Printable(node)
    ensures ParseOf(Print(node)) == Ok(node)
  {
    PrintLexes(node);
    assert Print(node) + "" == Print(node);
    assert Tokens(Print(node)) == Before(TokensOf(node), Tokens(""));
    AnyLevelParses(node, [End]);
  }

  /** Whatever is parsed prints back to itself, unless a release compared with holds a quote or a
      backslash. */
  lemma {:induction false} ParsePrints(source: string)
    requires ParseOf(source).Ok? && Printable(ParseOf(source).value)
    ensures ParseOf(Print(ParseOf(source).value)) == ParseOf(source)
  {
    ParsedIsGood(source);
    PrintParses(ParseOf(source).value);
  }
}
