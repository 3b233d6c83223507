/** Exactly which conditions print and read back (src/plan/when.ts, printWhen, which escapes no
    release; src/condition.ts, parse). */
module ConditionExact {
  import opened Wrappers
  import opened When
  import opened Condition
  import opened ConditionParser
  import opened ConditionPrint
  import opened ConditionRoundTrip

  // ----- Parsing keeps every string and number, in order -----

  function LitOf(token: Token): seq<string> {
    if token.Str? then [token.value] else if token.Num? then [token.text] else []
  }

  /** The strings and numbers of tokens. */
  function Lits(ts: seq<Token>): seq<string> {
    if ts == [] then [] else LitOf(ts[0]) + Lits(ts[1..])
  }

  function ValueLits(values: seq<Literal>): seq<string> {
    if values == [] then [] else ValueLits(values[..|values| - 1]) + ValueLit(values[|values| - 1])
  }

  function ValueLit(value: Literal): seq<string> {
    if value.Text? then [value.text] else []
  }

  function Flattened(parts: seq<seq<string>>): seq<string> {
    if parts == [] then [] else parts[0] + Flattened(parts[1..])
  }

  /** The strings of a condition. */
  function TreeLits(node: When): seq<string> {
    match node
    case Always => []
    case Is(_, value, _) => ValueLit(value)
    case OneOf(_, values) => ValueLits(values)
    case Compare(_, _, release) => [release]
    case All(of) => Flattened(seq(|of|, i requires 0 <= i < |of| => TreeLits(of[i])))
    case Any(of) => Flattened(seq(|of|, i requires 0 <= i < |of| => TreeLits(of[i])))
    case Not(inner) => TreeLits(inner)
  }

  function AllLits(of: seq<When>): seq<string> {
    Flattened(seq(|of|, i requires 0 <= i < |of| => TreeLits(of[i])))
  }

  lemma {:induction false} LitsJoined(a: seq<Token>, b: seq<Token>)
    ensures Lits(a + b) == Lits(a) + Lits(b)
    decreases |a|
  {
    if a == [] {
      assert a + b == b;
    } else {
      assert (a + b)[1..] == a[1..] + b;
      LitsJoined(a[1..], b);
    }
  }

  lemma {:induction false} AllLitsFirst(of: seq<When>)
    requires of != []
    ensures AllLits(of) == TreeLits(of[0]) + AllLits(of[1..])
  {
    var parts := seq(|of|, i requires 0 <= i < |of| => TreeLits(of[i]));
    assert parts[1..] == seq(|of[1..]|, i requires 0 <= i < |of[1..]| => TreeLits(of[1..][i]));
  }

  lemma {:induction false} AllLitsJoined(a: seq<When>, b: seq<When>)
    ensures AllLits(a + b) == AllLits(a) + AllLits(b)
    decreases |a|
  {
    if a == [] {
      assert a + b == b;
    } else {
      AllLitsFirst(a + b);
      AllLitsFirst(a);
      assert (a + b)[1..] == a[1..] + b;
      AllLitsJoined(a[1..], b);
    }
  }

  lemma {:induction false} OneLits(node: When)
    ensures AllLits([node]) == TreeLits(node)
  {
    AllLitsFirst([node]);
    assert AllLits([]) == [];
  }

  lemma {:induction false} Join2Lits(kind: Kind, left: When, right: When)
    ensures TreeLits(Join2(kind, left, right)) == TreeLits(left) + TreeLits(right)
  {
    var a := if IsKind(left, kind) then left.of else [left];
    var b := if IsKind(right, kind) then right.of else [right];
    OneLits(left);
    OneLits(right);
    assert AllLits(a) == TreeLits(left) && AllLits(b) == TreeLits(right);
    AllLitsJoined(a, b);
  }

  /** The last of some tokens. */
  predicate IsTail(rest: seq<Token>, ts: seq<Token>) {
    |rest| <= |ts| && rest == ts[|ts| - |rest|..]
  }

  lemma {:induction false} TailOfTail(a: seq<Token>, b: seq<Token>, c: seq<Token>)
    requires IsTail(a, b) && IsTail(b, c)
    ensures IsTail(a, c)
  {
  }

  lemma {:induction false} TailAfter(rest: seq<Token>, ts: seq<Token>, n: nat)
    requires n <= |ts| && IsTail(rest, ts[n..])
    ensures IsTail(rest, ts)
  {
    TailOfTail(rest, ts[n..], ts);
  }

  /** A parse that took from the tokens just the strings in its tree, and left the last of them. */
  predicate Keeps(ts: seq<Token>, r: Result<Parsed<When>>) {
    r.Ok? ==> Lits(ts) == TreeLits(r.value.tree) + Lits(r.value.rest) && IsTail(r.value.rest, ts)
  }

  lemma {:induction false} ValueKeeps(ts: seq<Token>)
    ensures ValueOf(ts).Ok? ==>
      Lits(ts) == ValueLit(ValueOf(ts).value.tree) + Lits(ValueOf(ts).value.rest) && IsTail(ValueOf(ts).value.rest, ts)
  {
  }

  lemma {:induction false} ValuesKeep(values: seq<Literal>, ts: seq<Token>)
    ensures MoreValues(values, ts).Ok? ==>
      ValueLits(values) + Lits(ts) == ValueLits(MoreValues(values, ts).value.tree) + Lits(MoreValues(values, ts).value.rest)
    decreases |ts|
  {
    if ts != [] && IsPunct(ts[0], ",") && ValueOf(ts[1..]).Ok? {
      var p := ValueOf(ts[1..]).value;
      ValueKeeps(ts[1..]);
      ValuesKeep(values + [p.tree], p.rest);
      OneMore(values, p.tree, Lits(p.rest));
      assert Lits(ts) == Lits(ts[1..]);
    }
  }

  lemma {:induction false} ValuesTail(values: seq<Literal>, ts: seq<Token>)
    ensures MoreValues(values, ts).Ok? ==> IsTail(MoreValues(values, ts).value.rest, ts)
    decreases |ts|
  {
    if ts != [] && IsPunct(ts[0], ",") && ValueOf(ts[1..]).Ok? {
      var p := ValueOf(ts[1..]).value;
      ValueKeeps(ts[1..]);
      ValuesTail(values + [p.tree], p.rest);
      TailAfter(p.rest, ts, 1);
      var more := MoreValues(values + [p.tree], p.rest);
      if more.Ok? { TailOfTail(more.value.rest, p.rest, ts); }
    }
  }

  lemma {:induction false} OneMore(values: seq<Literal>, value: Literal, rest: seq<string>)
    ensures ValueLits(values + [value]) + rest == ValueLits(values) + (ValueLit(value) + rest)
  {
    assert (values + [value])[..|values|] == values;
  }

  lemma {:induction false} ListKeeps(fact: string, ts: seq<Token>)
    requires |ts| >= 2 && IsKeyword(ts[0], "IN") && IsPunct(ts[1], "[") && !IsEquality(ts[0]) && OrderOf(ts[0]).None?
    ensures Keeps(ts, TestOf(fact, ts))
  {
    assert ts[1..][1..] == ts[2..];
    assert Lits(ts) == Lits(ts[2..]);
    ValueKeeps(ts[2..]);
    if ValueOf(ts[2..]).Ok? {
      var first := ValueOf(ts[2..]).value;
      ValuesKeep([first.tree], first.rest);
      ListTail(first, ts);
      assert [first.tree][..0] == [] && ValueLits([first.tree]) == ValueLit(first.tree);
    }
  }

  lemma {:induction false} ListTail(first: Parsed<Literal>, ts: seq<Token>)
    requires |ts| >= 2 && IsTail(first.rest, ts[2..])
    ensures var more := MoreValues([first.tree], first.rest); more.Ok? ==> IsTail(more.value.rest, ts)
  {
    TailAfter(first.rest, ts, 2);
    ValuesTail([first.tree], first.rest);
    var more := MoreValues([first.tree], first.rest);
    if more.Ok? { TailOfTail(more.value.rest, first.rest, ts); }
  }

  lemma {:induction false} TestKeeps(fact: string, ts: seq<Token>)
    ensures Keeps(ts, TestOf(fact, ts))
  {
    if |ts| >= 2 {
      if IsEquality(ts[0]) {
        ValueKeeps(ts[1..]);
        if ValueOf(ts[1..]).Ok? { TailAfter(ValueOf(ts[1..]).value.rest, ts, 1); }
      } else if OrderOf(ts[0]).Some? {
        assert ts[1..][1..] == ts[2..];
        assert Lits(ts) == LitOf(ts[1]) + Lits(ts[2..]);
      } else if IsKeyword(ts[0], "IN") && IsPunct(ts[1], "[") {
        ListKeeps(fact, ts);
      }
    }
  }

  lemma {:induction false} PrimaryKeeps(ts: seq<Token>)
    ensures Keeps(ts, Primary(ts))
    decreases |ts|, 0
  {
    if ts != [] {
      if IsPunct(ts[0], "(") {
        BinaryKeeps(AnyOf, ts[1..]);
        var inner := Binary(AnyOf, ts[1..]);
        if inner.Ok? {
          TailAfter(inner.value.rest, ts, 1);
          if inner.value.rest != [] { TailOfTail(inner.value.rest[1..], inner.value.rest, ts); }
        }
      } else if ts[0].Word? {
        TestKeeps(ts[0].text, ts[1..]);
        if TestOf(ts[0].text, ts[1..]).Ok? { TailAfter(TestOf(ts[0].text, ts[1..]).value.rest, ts, 1); }
      }
    }
  }

  lemma {:induction false} NotKeeps(ts: seq<Token>)
    ensures Keeps(ts, NotOf(ts))
    decreases |ts|, 1
  {
    if ts != [] && IsNot(ts[0]) {
      NotKeeps(ts[1..]);
      if NotOf(ts[1..]).Ok? { TailAfter(NotOf(ts[1..]).value.rest, ts, 1); }
    } else {
      PrimaryKeeps(ts);
    }
  }

  lemma {:induction false} OperandKeeps(kind: Kind, ts: seq<Token>)
    ensures Keeps(ts, Operand(kind, ts))
    decreases |ts|, Level(kind)
  {
    if kind.AllOf? { NotKeeps(ts); } else { BinaryKeeps(AllOf, ts); }
  }

  lemma {:induction false} BinaryKeeps(kind: Kind, ts: seq<Token>)
    ensures Keeps(ts, Binary(kind, ts))
    decreases |ts|, Level(kind) + 1
  {
    OperandKeeps(kind, ts);
    var first := Operand(kind, ts);
    if first.Ok? {
      ChainKeeps(kind, first.value.tree, first.value.rest);
      var chain := Chain(kind, first.value.tree, first.value.rest);
      if chain.Ok? { TailOfTail(chain.value.rest, first.value.rest, ts); }
    }
  }

  lemma {:induction false} ChainKeeps(kind: Kind, left: When, ts: seq<Token>)
    ensures Chain(kind, left, ts).Ok? ==>
      && TreeLits(left) + Lits(ts) == TreeLits(Chain(kind, left, ts).value.tree) + Lits(Chain(kind, left, ts).value.rest)
      && IsTail(Chain(kind, left, ts).value.rest, ts)
    decreases |ts|, Level(kind) + 1
  {
    if ts != [] && IsJoin(ts[0], kind) {
      OperandKeeps(kind, ts[1..]);
      var next := Operand(kind, ts[1..]);
      if next.Ok? {
        Join2Lits(kind, left, next.value.tree);
        ChainKeeps(kind, Join2(kind, left, next.value.tree), next.value.rest);
        assert Lits(ts) == Lits(ts[1..]);
        Regroup(TreeLits(left), TreeLits(next.value.tree), Lits(next.value.rest));
        TailAfter(next.value.rest, ts, 1);
        var more := Chain(kind, Join2(kind, left, next.value.tree), next.value.rest);
        if more.Ok? { TailOfTail(more.value.rest, next.value.rest, ts); }
      }
    }
  }

  lemma {:induction false} Regroup(a: seq<string>, b: seq<string>, c: seq<string>)
    ensures a + (b + c) == a + b + c
  {
  }

  /** Tokens with their end at the end alone, as every text's are. */
  predicate EndsOnce(ts: seq<Token>) {
    forall i :: 0 <= i < |ts| ==> (ts[i].End? <==> i == |ts| - 1)
  }

  /** What tokens parse as holds their strings and numbers, each once, in order: all of them, if their
      end is at the end alone. */
  lemma {:induction false} ParseKeeps(ts: seq<Token>)
    requires TreeOf(ts).Ok?
    ensures TreeLits(TreeOf(ts).value) <= Lits(ts)
    ensures EndsOnce(ts) ==> TreeLits(TreeOf(ts).value) == Lits(ts)
  {
    BinaryKeeps(AnyOf, ts);
    var rest := Binary(AnyOf, ts).value.rest;
    if EndsOnce(ts) {
      assert rest[0] == ts[|ts| - |rest|];
      assert rest == [End];
      assert Lits(rest[1..]) == [] && Lits(rest) == [];
    }
  }

  lemma {:induction false} TokensEndOnce(text: string)
    ensures Tokens(text).Ok? ==> EndsOnce(Tokens(text).value) && Tokens(text).value != []
    decreases |text|
  {
    if text != "" && NextToken(text).Ok? {
      var (tokens, rest) := NextToken(text).value;
      TokensEndOnce(rest);
      assert |tokens| <= 1 && forall i :: 0 <= i < |tokens| ==> !tokens[i].End?;
    }
  }

  /** What a text parses as holds all its strings and numbers, each once, in order. */
  lemma {:induction false} ParseHoldsAll(source: string)
    requires ParseOf(source).Ok?
    ensures TreeLits(ParseOf(source).value) == Lits(Tokens(source).value)
  {
    TokensEndOnce(source);
    ParseKeeps(Tokens(source).value);
  }

  /** A condition's tokens hold its strings. */
  lemma {:induction false} TokensKeep(node: When)
    requires Good(node)
    ensures Lits(TokensOf(node)) == TreeLits(node)
  {
    AnyLevelParses(node, [End]);
    BinaryKeeps(AnyOf, TokensOf(node) + [End]);
    LitsJoined(TokensOf(node), [End]);
    assert Lits([End]) == [];
    assert Lits(TokensOf(node)) + [] == Lits(TokensOf(node)) && TreeLits(node) + [] == TreeLits(node);
  }

  // ----- A release is never read as it is, if it holds a quote or a backslash -----

  function Backslashes(n: nat): string {
    if n == 0 then "" else ['\\'] + Backslashes(n - 1)
  }

  lemma {:induction false} BackslashesGrow(n: nat, rest: string)
    ensures Backslashes(n) + (['\\', '\\'] + rest) == Backslashes(n + 2) + rest
    decreases n
  {
    if n > 0 {
      BackslashesGrow(n - 1, rest);
      assert Backslashes(n) + (['\\', '\\'] + rest) == ['\\'] + (Backslashes(n - 1) + (['\\', '\\'] + rest));
    } else {
      assert Backslashes(2) == ['\\', '\\'];
    }
  }

  /** Read, a text never gains backslashes: each read takes two. */
  lemma {:induction false} NeverGains(text: string, b: string, n: nat)
    requires n > 0
    ensures var read := StringOf(text + "'" + b, '\''); read.Some? ==> read.value.0 != Backslashes(n) + text
    decreases |text|
  {
    var all := text + "'" + b;
    var read := StringOf(all, '\'');
    assert text == "" ==> all[0] == '\'';
    assert |text| == 1 ==> all[1] == '\'';
    if read.Some? && read.value.0 == Backslashes(n) + text {
      assert (Backslashes(n) + text)[0] == '\\';
      assert all[0] == '\\' && all[1] == '\\' && |text| >= 2;
      var rest := text[2..];
      assert text == ['\\', '\\'] + rest && all[2..] == rest + "'" + b;
      OneTaken(n, text, rest);
      NeverGains(rest, b, n + 1);
      assert false;
    }
  }

  lemma {:induction false} OneTaken(n: nat, text: string, rest: string)
    requires n > 0 && text == ['\\', '\\'] + rest
    ensures (Backslashes(n) + text)[1..] == Backslashes(n + 1) + rest
  {
    BackslashesGrow(n, rest);
    assert Backslashes(n + 2) == ['\\'] + Backslashes(n + 1);
  }

  lemma {:induction false} NeverRead(release: string, b: string)
    requires !IsQuoteFree(release)
    ensures var read := StringOf(release + "'" + b, '\''); read.Some? ==> read.value.0 != release
    decreases |release|
  {
    var all := release + "'" + b;
    var read := StringOf(all, '\'');
    assert |release| == 1 ==> all[1] == '\'';
    if read.Some? && read.value.0 == release {
      assert all[0] == release[0];
      if release[0] == '\\' {
        assert |release| >= 2 && release[1] == '\\';
        var rest := release[2..];
        assert all[2..] == rest + "'" + b && release[1..] == Backslashes(1) + rest;
        NeverGains(rest, b, 1);
        assert false;
      } else {
        assert all[1..] == release[1..] + "'" + b;
        NeverRead(release[1..], b);
        assert false;
      }
    }
  }

  // ----- The first such release in a tree -----

  /** A printed condition up to the first release it does not escape: the text before, whole tokens of
      it; the release; and the text after. */
  datatype Torn = Torn(before: string, tokens: seq<Token>, release: string, after: string)

  predicate IsTornShape(torn: Torn, text: string, lits: seq<string>) {
    && text == torn.before + ("'" + torn.release + "'" + torn.after)
    && !IsQuoteFree(torn.release)
    && Lits(torn.tokens) + [torn.release] <= lits
  }

  ghost predicate IsTorn(torn: Torn, text: string, lits: seq<string>) {
    IsTornShape(torn, text, lits) && Lexes(torn.before, torn.tokens)
  }

  /** With text before, and any after. */
  function Wider(torn: Torn, before: string, tokens: seq<Token>, after: string): Torn {
    Torn(before + torn.before, tokens + torn.tokens, torn.release, torn.after + after)
  }

  lemma {:induction false} WiderShape(torn: Torn, text: string, lits: seq<string>, before: string, tokens: seq<Token>, after: string, more: seq<string>)
    requires IsTornShape(torn, text, lits)
    ensures IsTornShape(Wider(torn, before, tokens, after), before + text + after, Lits(tokens) + lits + more)
  {
    LitsJoined(tokens, torn.tokens);
    WiderText(before, torn.before, "'" + torn.release + "'", torn.after, after);
    WiderLits(Lits(tokens), Lits(torn.tokens), torn.release, lits, more);
    assert "'" + torn.release + "'" + (torn.after + after) == "'" + torn.release + "'" + torn.after + after;
  }

  lemma {:induction false} WiderText(a: string, b: string, c: string, d: string, e: string)
    ensures a + (b + (c + d)) + e == (a + b) + (c + (d + e))
  {
  }

  lemma {:induction false} WiderLits(a: seq<string>, b: seq<string>, release: string, lits: seq<string>, more: seq<string>)
    requires b + [release] <= lits
    ensures (a + b) + [release] <= a + lits + more
  {
    assert lits == (b + [release]) + lits[|b| + 1..];
    assert a + lits + more == ((a + b) + [release]) + (lits[|b| + 1..] + more);
  }

  /** With text of whole tokens before. */
  lemma {:induction false} TornWithin(torn: Torn, text: string, lits: seq<string>, before: string, tokens: seq<Token>, after: string, more: seq<string>)
    returns (wider: Torn)
    requires IsTorn(torn, text, lits) && Lexes(before, tokens)
    ensures IsTorn(wider, before + text + after, Lits(tokens) + lits + more)
  {
    wider := Wider(torn, before, tokens, after);
    WiderShape(torn, text, lits, before, tokens, after, more);
    LexesMore(before, tokens, torn.before, torn.tokens);
  }

  lemma {:induction false} CompareShape(fact: string, order: Order, release: string)
    requires !IsQuoteFree(release)
    ensures IsTornShape(Torn(fact + (" " + OrderText(order) + " "), [Word(fact), Punct(OrderText(order))], release, ""),
      Print(Compare(fact, order, release)), [release])
  {
    HeadPrints(fact, order, release);
    var tokens := [Word(fact), Punct(OrderText(order))];
    assert tokens[1..] == [Punct(OrderText(order))] && tokens[1..][1..] == [];
    assert Lits(tokens[1..]) == [] && Lits(tokens) == [];
    assert [] + [release] == [release];
  }

  lemma {:induction false} CompareTorn(fact: string, order: Order, release: string) returns (torn: Torn)
    requires IsWordText(fact) && !IsQuoteFree(release)
    ensures IsTorn(torn, Print(Compare(fact, order, release)), [release])
  {
    torn := Torn(fact + (" " + OrderText(order) + " "), [Word(fact), Punct(OrderText(order))], release, "");
    CompareShape(fact, order, release);
    HeadLexes(fact, order);
  }

  lemma {:induction false} HeadLexes(fact: string, order: Order)
    requires IsWordText(fact)
    ensures Lexes(fact + (" " + OrderText(order) + " "), [Word(fact), Punct(OrderText(order))])
  {
    WordLexes(fact);
    OrderLexes(order);
    LexesBoth(fact, [Word(fact)], " " + OrderText(order) + " ", [Punct(OrderText(order))]);
    assert [Word(fact)] + [Punct(OrderText(order))] == [Word(fact), Punct(OrderText(order))];
  }

  lemma {:induction false} HeadPrints(fact: string, order: Order, release: string)
    ensures fact + (" " + OrderText(order) + " ") + ("'" + release + "'" + "") == Print(Compare(fact, order, release))
  {
    assert " " + OrderText(order) + " '" == (" " + OrderText(order) + " ") + "'";
  }

  /** A text of one token that is no string, before. */
  lemma {:induction false} TornAfter(torn: Torn, text: string, lits: seq<string>, before: string, token: Token, after: string) returns (wider: Torn)
    requires IsTorn(torn, text, lits) && Lexes(before, [token]) && LitOf(token) == []
    ensures IsTorn(wider, before + text + after, lits)
  {
    wider := TornWithin(torn, text, lits, before, [token], after, []);
    NoLits(token, lits);
  }

  lemma {:induction false} NoLits(token: Token, lits: seq<string>)
    requires LitOf(token) == []
    ensures Lits([token]) == [] && Lits([token]) + lits + [] == lits
  {
    assert [token][1..] == [];
  }

  /** Within brackets, or not. */
  lemma {:induction false} InnerTorn(torn: Torn, child: When, parent: Parent) returns (wider: Torn)
    requires IsTorn(torn, Print(child), TreeLits(child))
    ensures IsTorn(wider, Inner(Print(child), child, parent), TreeLits(child))
  {
    wider := torn;
    if Bracketed(child, parent) {
      MarkLexes('(');
      wider := TornAfter(torn, Print(child), TreeLits(child), "(", Punct("("), ")");
    }
  }

  lemma {:induction false} NotTorn(torn: Torn, inner: When) returns (wider: Torn)
    requires IsTorn(torn, Inner(Print(inner), inner, InNot), TreeLits(inner))
    ensures IsTorn(wider, Print(Not(inner)), TreeLits(Not(inner)))
  {
    NotLexesFirst();
    NotPrints(inner);
    wider := TornAfter(torn, Inner(Print(inner), inner, InNot), TreeLits(inner), "NOT ", Word("NOT"), "");
  }

  lemma {:induction false} NotPrints(inner: When)
    ensures "NOT " + Inner(Print(inner), inner, InNot) + "" == Print(Not(inner)) && TreeLits(Not(inner)) == TreeLits(inner)
  {
  }

  lemma {:induction false} NotLexesFirst()
    ensures Lexes("NOT ", [Word("NOT")])
  {
    WordLexes("NOT");
    BlankLexes("NOT", [Word("NOT")]);
    assert "NOT" + " " == "NOT ";
  }

  // ----- In a join -----

  /** Parts each with what is between after it. */
  function Each(parts: seq<string>, between: string): string {
    if parts == [] then "" else parts[0] + between + Each(parts[1..], between)
  }

  function EachTokens(parts: seq<seq<Token>>, between: Token): seq<Token> {
    if parts == [] then [] else parts[0] + [between] + EachTokens(parts[1..], between)
  }

  lemma {:induction false} EachLexes(parts: seq<string>, tokens: seq<seq<Token>>, between: string, token: Token)
    requires |parts| == |tokens| && LexesBetween(between, token)
    requires forall i :: 0 <= i < |parts| ==> LexesBounded(parts[i], tokens[i])
    ensures Lexes(Each(parts, between), EachTokens(tokens, token))
    decreases |parts|
  {
    if parts == [] {
      NothingLexes();
    } else {
      EachLexes(parts[1..], tokens[1..], between, token);
      LexesBoth(parts[0], tokens[0], between, [token]);
      LexesMore(parts[0] + between, tokens[0] + [token], Each(parts[1..], between), EachTokens(tokens[1..], token));
    }
  }

  lemma {:induction false} NothingLexes()
    ensures Lexes("", [])
  {
    forall rest ensures Tokens("" + rest) == Before([], Tokens(rest)) {
      assert "" + rest == rest;
      BeforeNothing(Tokens(rest));
    }
  }

  /** Joined parts, split at one of them. */
  lemma {:induction false} JoinedAt(parts: seq<string>, between: string, i: nat)
    requires i < |parts|
    ensures ConditionPrint.Joined(parts, between)
      == Each(parts[..i], between) + parts[i] + if i == |parts| - 1 then "" else between + ConditionPrint.Joined(parts[i + 1..], between)
    decreases i
  {
    if i == 0 {
      assert parts[..0] == [];
    } else {
      JoinedAt(parts[1..], between, i - 1);
      assert parts[1..][..i - 1] == parts[..i][1..] && parts[1..][i..] == parts[i + 1..];
      assert parts[1..][i - 1] == parts[i];
      var rest := if i == |parts| - 1 then "" else between + ConditionPrint.Joined(parts[i + 1..], between);
      assert parts[0] + between + (Each(parts[..i][1..], between) + parts[i] + rest)
        == parts[0] + between + Each(parts[..i][1..], between) + parts[i] + rest;
    }
  }

  /** The strings of operands' tokens are the operands'. */
  lemma {:induction false} EachLits(of: seq<When>, parent: Parent, between: Token)
    requires (forall i :: 0 <= i < |of| ==> Good(of[i])) && between.Word?
    ensures Lits(EachTokens(seq(|of|, i requires 0 <= i < |of| => InnerTokens(TokensOf(of[i]), of[i], parent)), between)) == AllLits(of)
    decreases |of|
  {
    var tokens := seq(|of|, i requires 0 <= i < |of| => InnerTokens(TokensOf(of[i]), of[i], parent));
    if of != [] {
      EachLits(of[1..], parent, between);
      assert tokens[1..] == seq(|of[1..]|, i requires 0 <= i < |of[1..]| => InnerTokens(TokensOf(of[1..][i]), of[1..][i], parent));
      InnerLits(of[0], parent);
      LitsJoined(tokens[0] + [between], EachTokens(tokens[1..], between));
      LitsJoined(tokens[0], [between]);
      assert Lits([between]) == [] && TreeLits(of[0]) + [] == TreeLits(of[0]);
      AllLitsFirst(of);
    } else {
      assert tokens == [];
    }
  }

  lemma {:induction false} InnerLits(child: When, parent: Parent)
    requires Good(child)
    ensures Lits(InnerTokens(TokensOf(child), child, parent)) == TreeLits(child)
  {
    TokensKeep(child);
    if Bracketed(child, parent) {
      var tokens := TokensOf(child);
      LitsJoined([Punct("(")] + tokens, [Punct(")")]);
      LitsJoined([Punct("(")], tokens);
      assert Lits([Punct("(")]) == [] && Lits([Punct(")")]) == [];
      assert [] + TreeLits(child) + [] == TreeLits(child);
    }
  }

  // ----- The whole tree -----

  /** In a join: after the operands before it, each printing as it should. */
  lemma {:induction false} JoinTorn(node: When, of: seq<When>, parent: Parent, word: string, i: nat, torn: Torn) returns (wider: Torn)
    requires (node == All(of) && parent.InAll? && word == "AND") || (node == Any(of) && parent.InAny? && word == "OR")
    requires Good(node) && i < |of| && forall k :: 0 <= k < i ==> Printable(of[k])
    requires IsTorn(torn, Inner(Print(of[i]), of[i], parent), TreeLits(of[i]))
    ensures IsTorn(wider, Print(node), TreeLits(node))
  {
    var before, tokens := OperandsLex(of[..i], parent, word);
    var text, after := JoinSplits(node, of, parent, word, i, before);
    wider := TornWithin(torn, text, TreeLits(of[i]), before, tokens, after, AllLits(of[i + 1..]));
  }

  /** A join's text and strings, split at one operand. */
  lemma {:induction false} JoinSplits(node: When, of: seq<When>, parent: Parent, word: string, i: nat, before: string) returns (text: string, after: string)
    requires (node == All(of) && parent.InAll? && word == "AND") || (node == Any(of) && parent.InAny? && word == "OR")
    requires i < |of| && before == Each(seq(|of[..i]|, k requires 0 <= k < |of[..i]| => Inner(Print(of[..i][k]), of[..i][k], parent)), " " + word + " ")
    ensures text == Inner(Print(of[i]), of[i], parent) && Print(node) == before + text + after
    ensures TreeLits(node) == AllLits(of[..i]) + TreeLits(of[i]) + AllLits(of[i + 1..])
  {
    var texts := seq(|of|, k requires 0 <= k < |of| => Inner(Print(of[k]), of[k], parent));
    var between := " " + word + " ";
    text := texts[i];
    after := if i == |of| - 1 then "" else between + ConditionPrint.Joined(texts[i + 1..], between);
    assert texts[..i] == seq(|of[..i]|, k requires 0 <= k < |of[..i]| => Inner(Print(of[..i][k]), of[..i][k], parent));
    JoinedAt(texts, between, i);
    JoinPrints(node, of, parent, word);
    LitsSplit(of, i);
    assert TreeLits(node) == AllLits(of);
  }

  lemma {:induction false} LitsSplit(of: seq<When>, i: nat)
    requires i < |of|
    ensures AllLits(of) == AllLits(of[..i]) + TreeLits(of[i]) + AllLits(of[i + 1..])
  {
    assert of == of[..i] + ([of[i]] + of[i + 1..]);
    AllLitsJoined(of[..i], [of[i]] + of[i + 1..]);
    AllLitsJoined([of[i]], of[i + 1..]);
    OneLits(of[i]);
  }

  lemma {:induction false} JoinPrints(node: When, of: seq<When>, parent: Parent, word: string)
    requires (node == All(of) && parent.InAll? && word == "AND") || (node == Any(of) && parent.InAny? && word == "OR")
    ensures Print(node) == ConditionPrint.Joined(seq(|of|, k requires 0 <= k < |of| => Inner(Print(of[k]), of[k], parent)), " " + word + " ")
  {
    var texts := seq(|of|, k requires 0 <= k < |of| => Inner(Print(of[k]), of[k], parent));
    if parent.InAll? {
      assert " " + word + " " == " AND ";
      assert texts == seq(|of|, k requires 0 <= k < |of| => Inner(Print(of[k]), of[k], InAll));
    } else {
      assert " " + word + " " == " OR ";
      assert texts == seq(|of|, k requires 0 <= k < |of| => Inner(Print(of[k]), of[k], InAny));
    }
  }

  /** Operands that print as they should, each with the word after it. */
  lemma {:induction false} OperandsLex(of: seq<When>, parent: Parent, word: string) returns (text: string, tokens: seq<Token>)
    requires (forall i :: 0 <= i < |of| ==> Good(of[i]) && Printable(of[i])) && IsWordText(word)
    ensures text == Each(seq(|of|, i requires 0 <= i < |of| => Inner(Print(of[i]), of[i], parent)), " " + word + " ")
    ensures Lexes(text, tokens) && Lits(tokens) == AllLits(of)
  {
    var texts := seq(|of|, i requires 0 <= i < |of| => Inner(Print(of[i]), of[i], parent));
    var each := seq(|of|, i requires 0 <= i < |of| => InnerTokens(TokensOf(of[i]), of[i], parent));
    text, tokens := Each(texts, " " + word + " "), EachTokens(each, Word(word));
    forall i | 0 <= i < |of| ensures LexesBounded(texts[i], each[i]) {
      PrintLexes(of[i]);
      InnerLexes(of[i], parent);
    }
    KeywordLexes(word);
    EachLexes(texts, each, " " + word + " ", Word(word));
    EachLits(of, parent, Word(word));
  }

  /** A condition that does not print as it should does so first at one release. */
  lemma {:induction false} FirstTorn(node: When) returns (torn: Torn)
    requires Good(node) && !Printable(node)
    ensures IsTorn(torn, Print(node), TreeLits(node))
    decreases node
  {
    match node
    case Compare(fact, order, release) =>
      torn := CompareTorn(fact, order, release);
    case Not(inner) =>
      torn := FirstTorn(inner);
      torn := InnerTorn(torn, inner, InNot);
      torn := NotTorn(torn, inner);
    case All(of) =>
      var i := FirstUnprintable(of);
      torn := FirstTorn(of[i]);
      torn := InnerTorn(torn, of[i], InAll);
      torn := JoinTorn(node, of, InAll, "AND", i, torn);
    case Any(of) =>
      var i := FirstUnprintable(of);
      torn := FirstTorn(of[i]);
      torn := InnerTorn(torn, of[i], InAny);
      torn := JoinTorn(node, of, InAny, "OR", i, torn);
  }

  lemma {:induction false} FirstUnprintable(of: seq<When>) returns (i: nat)
    requires exists k :: 0 <= k < |of| && !Printable(of[k])
    ensures i < |of| && !Printable(of[i]) && forall k :: 0 <= k < i ==> Printable(of[k])
  {
    i := 0;
    while Printable(of[i])
      invariant i < |of| && forall k :: 0 <= k < i ==> Printable(of[k])
      decreases |of| - i
    {
      var k :| 0 <= k < |of| && !Printable(of[k]);
      i := i + 1;
    }
  }

  lemma {:induction false} TornTokens(torn: Torn, text: string, lits: seq<string>)
    requires IsTorn(torn, text, lits)
    ensures match StringOf(torn.release + "'" + torn.after, '\'')
      case None => Tokens(text) == Err
      case Some((value, rest)) => Tokens(text) == Before(torn.tokens, Before([Str(value)], Tokens(rest)))
  {
    LexesTo(torn.before, torn.tokens, "'" + torn.release + "'" + torn.after);
    ReleaseFirst(torn.release, torn.after);
  }

  lemma {:induction false} LexesTo(text: string, tokens: seq<Token>, rest: string)
    requires Lexes(text, tokens)
    ensures Tokens(text + rest) == Before(tokens, Tokens(rest))
  {
  }

  lemma {:induction false} ReleaseFirst(release: string, after: string)
    ensures Tokens("'" + release + "'" + after) == match StringOf(release + "'" + after, '\'')
      case None => Err
      case Some((value, rest)) => Before([Str(value)], Tokens(rest))
  {
    var quoted := "'" + release + "'" + after;
    assert quoted[0] == '\'' && quoted[1..] == release + "'" + after;
    StringFirst(quoted);
  }

  lemma {:induction false} StringFirst(text: string)
    requires |text| > 1 && text[0] == '\''
    ensures Tokens(text) == match StringOf(text[1..], '\'')
      case None => Err
      case Some((value, rest)) => Before([Str(value)], Tokens(rest))
  {
    assert text[..2][0] == '\'';
  }

  /** Such a condition, printed, parses as another, or not at all. */
  lemma {:induction false} TornIsAnother(node: When)
    requires Good(node) && !Printable(node)
    ensures ParseOf(Print(node)) != Ok(node)
  {
    var torn := FirstTorn(node);
    TornTokens(torn, Print(node), TreeLits(node));
    NeverRead(torn.release, torn.after);
    var read := StringOf(torn.release + "'" + torn.after, '\'');
    if read.Some? && Tokens(read.value.1).Ok? {
      OtherString(torn, TreeLits(node), read.value.0, Tokens(read.value.1).value);
    }
  }

  lemma {:induction false} OtherString(torn: Torn, lits: seq<string>, value: string, more: seq<Token>)
    requires Lits(torn.tokens) + [torn.release] <= lits && value != torn.release
    ensures var ts := torn.tokens + ([Str(value)] + more); TreeOf(ts).Ok? ==> TreeLits(TreeOf(ts).value) != lits
  {
    var ts := torn.tokens + ([Str(value)] + more);
    var n := |Lits(torn.tokens)|;
    LitsJoined(torn.tokens, [Str(value)] + more);
    assert ([Str(value)] + more)[1..] == more;
    assert Lits(ts)[n] == value;
    assert lits[n] == (Lits(torn.tokens) + [torn.release])[n];
    if TreeOf(ts).Ok? { ParseKeeps(ts); }
  }

  /** A condition prints and reads back just when no release compared with in it holds a quote or a
      backslash, which are not escaped there: for every shaped tree of facts a device has. */
  lemma {:induction false} RoundTripIsExact(node: When)
    requires Good(node)
    ensures ParseOf(Print(node)) == Ok(node) <==> Printable(node)
  {
    if Printable(node) { PrintParses(node); } else { TornIsAnother(node); }
  }
}
