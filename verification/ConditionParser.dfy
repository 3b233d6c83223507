/** Parsing the `.if` language (src/condition.ts, parse): a grammar over tokens, and the parser that
    advances one shared position. */
module ConditionParser {
  import opened Wrappers
  import opened Text
  import opened When
  import opened Condition

  // ----- Names -----

  predicate IsBuiltIn(name: string) {
    || name == "device.sw_config" || name == "device.hostname" || name == "device.ipaddr" || name == "device.model_id"
    || name == "device.version" || name == "device.target"
    || name == "device.wifi_2g" || name == "device.wifi_5g" || name == "device.wifi_6g"
    || name == "device.mesh_2g" || name == "device.mesh_5g" || name == "device.mesh_6g"
  }

  const TAG := "device.tag."

  predicate IsFact(name: string) {
    IsBuiltIn(name) || (TAG <= name && |name| > |TAG|)
  }

  function UpperChar(c: char): char {
    if 'a' <= c <= 'z' then (c as int - 32) as char else c
  }

  function Upper(text: string): string {
    seq(|text|, i requires 0 <= i < |text| => UpperChar(text[i]))
  }

  predicate IsKeyword(token: Token, word: string) {
    token.Word? && Upper(token.text) == word
  }

  predicate IsPunct(token: Token, text: string) {
    token == Punct(text)
  }

  // ----- The grammar -----

  datatype Parsed<T> = Parsed(tree: T, rest: seq<Token>)

  function ValueOf(ts: seq<Token>): (r: Result<Parsed<Literal>>)
    ensures r.Ok? ==> |r.value.rest| < |ts|
  {
    if ts == [] then Err
    else if ts[0].Str? then Ok(Parsed(Text(ts[0].value), ts[1..]))
    else if ts[0].Num? then Ok(Parsed(Text(ts[0].text), ts[1..]))
    else if IsKeyword(ts[0], "TRUE") then Ok(Parsed(Flag(true), ts[1..]))
    else if IsKeyword(ts[0], "FALSE") then Ok(Parsed(Flag(false), ts[1..]))
    else Err
  }

  /** More values, each after a comma, and the closing bracket. */
  function MoreValues(values: seq<Literal>, ts: seq<Token>): (r: Result<Parsed<seq<Literal>>>)
    ensures r.Ok? ==> |r.value.rest| < |ts| && values <= r.value.tree
    decreases |ts|
  {
    if ts == [] then Err
    else if IsPunct(ts[0], ",") then
      match ValueOf(ts[1..])
      case Err => Err
      case Ok(p) => MoreValues(values + [p.tree], p.rest)
    else if IsPunct(ts[0], "]") then Ok(Parsed(values, ts[1..]))
    else Err
  }

  /** The operators that order. */
  function OrderOf(token: Token): Option<Order> {
    if IsPunct(token, "<") then Some(Lt)
    else if IsPunct(token, "<=") then Some(Le)
    else if IsPunct(token, ">") then Some(Gt)
    else if IsPunct(token, ">=") then Some(Ge)
    else None
  }

  predicate IsEquality(token: Token) {
    IsPunct(token, "==") || IsPunct(token, "!=")
  }

  /** What follows a name: an equality, an ordering or a list. */
  function TestOf(fact: string, ts: seq<Token>): (r: Result<Parsed<When>>)
    ensures r.Ok? ==> |r.value.rest| < |ts|
  {
    if |ts| < 2 then Err
    else if IsEquality(ts[0]) then
      match ValueOf(ts[1..])
      case Err => Err
      case Ok(p) => Ok(Parsed(Is(fact, p.tree, IsPunct(ts[0], "!=")), p.rest))
    else if OrderOf(ts[0]).Some? then
      if ts[1].Str? then Ok(Parsed(Compare(fact, OrderOf(ts[0]).value, ts[1].value), ts[2..]))
      else if ts[1].Num? then Ok(Parsed(Compare(fact, OrderOf(ts[0]).value, ts[1].text), ts[2..]))
      else Err
    else if IsKeyword(ts[0], "IN") && IsPunct(ts[1], "[") then
      match ValueOf(ts[2..])
      case Err => Err
      case Ok(first) =>
        match MoreValues([first.tree], first.rest)
        case Err => Err
        case Ok(p) => Ok(Parsed(OneOf(fact, p.tree), p.rest))
    else Err
  }

  predicate IsReserved(token: Token) {
    IsKeyword(token, "AND") || IsKeyword(token, "OR") || IsKeyword(token, "NOT") || IsKeyword(token, "IN")
  }

  function Primary(ts: seq<Token>): (r: Result<Parsed<When>>)
    ensures r.Ok? ==> |r.value.rest| < |ts|
    decreases |ts|, 0
  {
    if ts == [] then Err
    else if IsPunct(ts[0], "(") then
      match Binary(AnyOf, ts[1..])
      case Err => Err
      case Ok(p) => if p.rest != [] && IsPunct(p.rest[0], ")") then Ok(Parsed(p.tree, p.rest[1..])) else Err
    else if IsPunct(ts[0], "*") then Ok(Parsed(Always, ts[1..]))
    else if !ts[0].Word? || IsReserved(ts[0]) || !IsFact(ts[0].text) then Err
    else TestOf(ts[0].text, ts[1..])
  }

  predicate IsNot(token: Token) {
    IsKeyword(token, "NOT") || IsPunct(token, "!")
  }

  function NotOf(ts: seq<Token>): (r: Result<Parsed<When>>)
    ensures r.Ok? ==> |r.value.rest| < |ts|
    decreases |ts|, 1
  {
    if ts != [] && IsNot(ts[0]) then
      match NotOf(ts[1..])
      case Err => Err
      case Ok(p) => Ok(Parsed(Not(p.tree), p.rest))
    else Primary(ts)
  }

  /** Same-kind chains flattened. */
  function Join2(kind: Kind, left: When, right: When): When {
    Of(kind, (if IsKind(left, kind) then left.of else [left]) + (if IsKind(right, kind) then right.of else [right]))
  }

  predicate IsJoin(token: Token, kind: Kind) {
    match kind
    case AllOf => IsKeyword(token, "AND") || IsPunct(token, "&&")
    case AnyOf => IsKeyword(token, "OR") || IsPunct(token, "||")
  }

  function Level(kind: Kind): nat {
    if kind.AllOf? then 2 else 4
  }

  /** What a chain of a kind is made of. */
  function Operand(kind: Kind, ts: seq<Token>): (r: Result<Parsed<When>>)
    ensures r.Ok? ==> |r.value.rest| < |ts|
    decreases |ts|, Level(kind)
  {
    match kind
    case AllOf => NotOf(ts)
    case AnyOf => Binary(AllOf, ts)
  }

  function Binary(kind: Kind, ts: seq<Token>): (r: Result<Parsed<When>>)
    ensures r.Ok? ==> |r.value.rest| < |ts|
    decreases |ts|, Level(kind) + 1
  {
    match Operand(kind, ts)
    case Err => Err
    case Ok(p) => Chain(kind, p.tree, p.rest)
  }

  /** The operands after the first, joined one by one. */
  function Chain(kind: Kind, left: When, ts: seq<Token>): (r: Result<Parsed<When>>)
    ensures r.Ok? ==> |r.value.rest| <= |ts|
    decreases |ts|, Level(kind) + 1
  {
    if ts != [] && IsJoin(ts[0], kind) then
      match Operand(kind, ts[1..])
      case Err => Err
      case Ok(p) => Chain(kind, Join2(kind, left, p.tree), p.rest)
    else Ok(Parsed(left, ts))
  }

  function TreeOf(ts: seq<Token>): Result<When> {
    match Binary(AnyOf, ts)
    case Err => Err
    case Ok(p) => if p.rest != [] && p.rest[0].End? then Ok(p.tree) else Err
  }

  function ParseOf(source: string): Result<When> {
    match Tokens(source)
    case Err => Err
    case Ok(ts) => TreeOf(ts)
  }

  // ----- The parser -----

  /** A parse that came to `result` and left off at `pos`. */
  predicate Came<T(==)>(expected: Result<Parsed<T>>, tokens: seq<Token>, result: Result<T>, pos: nat) {
    match expected
    case Err => result.Err?
    case Ok(p) => result == Ok(p.tree) && pos <= |tokens| && p.rest == tokens[pos..]
  }

  class Parser {
    const tokens: seq<Token>
    var pos: nat

    constructor (tokens: seq<Token>)
      ensures this.tokens == tokens && pos == 0
    {
      this.tokens := tokens;
      pos := 0;
    }

    method Value() returns (result: Result<Literal>)
      requires pos <= |tokens|
      modifies this`pos
      ensures Came(ValueOf(tokens[old(pos)..]), tokens, result, pos)
    {
      if pos == |tokens| { return Err; }
      var token := tokens[pos];
      pos := pos + 1;
      if token.Str? { return Ok(Text(token.value)); }
      if token.Num? { return Ok(Text(token.text)); }
      if IsKeyword(token, "TRUE") { return Ok(Flag(true)); }
      if IsKeyword(token, "FALSE") { return Ok(Flag(false)); }
      return Err;
    }

    method Values(first: Literal) returns (result: Result<seq<Literal>>)
      requires pos <= |tokens|
      modifies this`pos
      ensures Came(MoreValues([first], tokens[old(pos)..]), tokens, result, pos)
    {
      var values := [first];
      ghost var start := pos;
      while pos < |tokens| && IsPunct(tokens[pos], ",")
        invariant start <= pos <= |tokens|
        invariant MoreValues([first], tokens[start..]) == MoreValues(values, tokens[pos..])
        decreases |tokens| - pos
      {
        ghost var was := pos;
        pos := pos + 1;
        var value := Value();
        if value.Err? { return Err; }
        values := values + [value.value];
        assert |tokens[pos..]| < |tokens[was + 1..]|;
      }
      if pos == |tokens| || !IsPunct(tokens[pos], "]") { return Err; }
      pos := pos + 1;
      return Ok(values);
    }

    method Test(fact: string) returns (result: Result<When>)
      requires pos <= |tokens|
      modifies this`pos
      ensures Came(TestOf(fact, tokens[old(pos)..]), tokens, result, pos)
    {
      if pos + 2 > |tokens| { return Err; }
      ghost var ts := tokens[pos..];
      assert ts[1..] == tokens[pos + 1..] && ts[2..] == tokens[pos + 2..];
      var op := tokens[pos];
      pos := pos + 1;
      if IsEquality(op) {
        var value := Value();
        if value.Err? { return Err; }
        return Ok(Is(fact, value.value, IsPunct(op, "!=")));
      }
      if OrderOf(op).Some? {
        var literal := tokens[pos];
        pos := pos + 1;
        if !literal.Str? && !literal.Num? { return Err; }
        return Ok(Compare(fact, OrderOf(op).value, if literal.Str? then literal.value else literal.text));
      }
      if !IsKeyword(op, "IN") || !IsPunct(tokens[pos], "[") { return Err; }
      pos := pos + 1;
      var first := Value();
      if first.Err? { return Err; }
      var values := Values(first.value);
      if values.Err? { return Err; }
      return Ok(OneOf(fact, values.value));
    }

    method ParsePrimary() returns (result: Result<When>)
      requires pos <= |tokens|
      modifies this`pos
      ensures Came(Primary(tokens[old(pos)..]), tokens, result, pos)
      decreases |tokens| - pos, 0
    {
      if pos == |tokens| { return Err; }
      var token := tokens[pos];
      assert tokens[pos..][1..] == tokens[pos + 1..];
      if IsPunct(token, "(") {
        pos := pos + 1;
        var inner := ParseBinary(AnyOf);
        if inner.Err? || pos == |tokens| || !IsPunct(tokens[pos], ")") { return Err; }
        pos := pos + 1;
        return inner;
      }
      if IsPunct(token, "*") {
        pos := pos + 1;
        return Ok(Always);
      }
      if !token.Word? || IsReserved(token) || !IsFact(token.text) { return Err; }
      pos := pos + 1;
      result := Test(token.text);
    }

    method ParseNot() returns (result: Result<When>)
      requires pos <= |tokens|
      modifies this`pos
      ensures Came(NotOf(tokens[old(pos)..]), tokens, result, pos)
      decreases |tokens| - pos, 1
    {
      if pos < |tokens| && IsNot(tokens[pos]) {
        assert tokens[pos..][1..] == tokens[pos + 1..];
        pos := pos + 1;
        var inner := ParseNot();
        if inner.Err? { return Err; }
        return Ok(Not(inner.value));
      }
      result := ParsePrimary();
    }

    method ParseOperand(kind: Kind) returns (result: Result<When>)
      requires pos <= |tokens|
      modifies this`pos
      ensures Came(Operand(kind, tokens[old(pos)..]), tokens, result, pos)
      decreases |tokens| - pos, Level(kind)
    {
      if kind.AllOf? { result := ParseNot(); } else { result := ParseBinary(AllOf); }
    }

    method ParseBinary(kind: Kind) returns (result: Result<When>)
      requires pos <= |tokens|
      modifies this`pos
      ensures Came(Binary(kind, tokens[old(pos)..]), tokens, result, pos)
      decreases |tokens| - pos, Level(kind) + 1
    {
      ghost var start := pos;
      var first := ParseOperand(kind);
      if first.Err? { return Err; }
      var left := first.value;
      assert |tokens[pos..]| < |tokens[start..]|;
      while pos < |tokens| && IsJoin(tokens[pos], kind)
        invariant start < pos <= |tokens|
        invariant Binary(kind, tokens[start..]) == Chain(kind, left, tokens[pos..])
        decreases |tokens| - pos
      {
        assert tokens[pos..][1..] == tokens[pos + 1..];
        ghost var was := pos;
        pos := pos + 1;
        var right := ParseOperand(kind);
        if right.Err? { return Err; }
        assert |tokens[pos..]| < |tokens[was + 1..]|;
        left := Join2(kind, left, right.value);
      }
      return Ok(left);
    }
  }

  /** A condition as written, read into a tree. */
  method Parse(source: string) returns (result: Result<When>)
    ensures result == ParseOf(source)
  {
    var tokens := Tokenize(source);
    if tokens.Err? { return Err; }
    var parser := new Parser(tokens.value);
    assert tokens.value[0..] == tokens.value;
    var tree := parser.ParseBinary(AnyOf);
    if tree.Err? || parser.pos == |tokens.value| || !tokens.value[parser.pos].End? { return Err; }
    return tree;
  }

  // ----- The shape of what is parsed -----

  /** A name as the tokenizer reads one. */
  predicate IsWordText(text: string) {
    text != "" && IsLetter(text[0]) && forall i :: 0 <= i < |text| ==> IsWordPart(text[i])
  }

  predicate WordsOnly(ts: seq<Token>) {
    forall i :: 0 <= i < |ts| && ts[i].Word? ==> IsWordText(ts[i].text)
  }

  /** Every fact a name a device can have. */
  predicate FactsFit(node: When) {
    match node
    case Always => true
    case Is(fact, _, _) => IsFact(fact) && IsWordText(fact)
    case OneOf(fact, _) => IsFact(fact) && IsWordText(fact)
    case Compare(fact, _, _) => IsFact(fact) && IsWordText(fact)
    case All(of) => forall i :: 0 <= i < |of| ==> FactsFit(of[i])
    case Any(of) => forall i :: 0 <= i < |of| ==> FactsFit(of[i])
    case Not(inner) => FactsFit(inner)
  }

  predicate Good(node: When) {
    Shaped(node) && FactsFit(node)
  }

  lemma {:induction false} Join2Good(kind: Kind, left: When, right: When)
    requires Good(left) && Good(right)
    ensures Good(Join2(kind, left, right)) && IsKind(Join2(kind, left, right), kind)
  {
    var a := if IsKind(left, kind) then left.of else [left];
    var b := if IsKind(right, kind) then right.of else [right];
    assert forall i :: 0 <= i < |a| ==> Good(a[i]) && !IsKind(a[i], kind);
    assert forall i :: 0 <= i < |b| ==> Good(b[i]) && !IsKind(b[i], kind);
  }

  predicate GoodIfOk(r: Result<Parsed<When>>) {
    r.Ok? ==> Good(r.value.tree) && WordsOnly(r.value.rest)
  }

  lemma {:induction false} WordsAfter(ts: seq<Token>, n: nat)
    requires WordsOnly(ts) && n <= |ts|
    ensures WordsOnly(ts[n..])
  {
  }

  lemma {:induction false} MoreValuesWords(values: seq<Literal>, ts: seq<Token>)
    requires WordsOnly(ts)
    ensures MoreValues(values, ts).Ok? ==> WordsOnly(MoreValues(values, ts).value.rest)
    decreases |ts|
  {
    if ts != [] && IsPunct(ts[0], ",") && ValueOf(ts[1..]).Ok? {
      MoreValuesWords(values + [ValueOf(ts[1..]).value.tree], ValueOf(ts[1..]).value.rest);
    }
  }

  lemma {:induction false} TestGood(fact: string, ts: seq<Token>)
    requires WordsOnly(ts) && IsFact(fact) && IsWordText(fact)
    ensures GoodIfOk(TestOf(fact, ts))
  {
    if |ts| >= 2 && !IsEquality(ts[0]) && OrderOf(ts[0]).None? && ValueOf(ts[2..]).Ok? {
      WordsAfter(ts, 2);
      var first := ValueOf(ts[2..]).value;
      WordsAfter(ts[2..], 1);
      MoreValuesWords([first.tree], first.rest);
    }
  }

  lemma {:induction false} PrimaryGood(ts: seq<Token>)
    requires WordsOnly(ts)
    ensures GoodIfOk(Primary(ts))
    decreases |ts|, 0
  {
    if ts != [] {
      WordsAfter(ts, 1);
      if IsPunct(ts[0], "(") {
        BinaryGood(AnyOf, ts[1..]);
      } else if ts[0].Word? && IsFact(ts[0].text) {
        TestGood(ts[0].text, ts[1..]);
      }
    }
  }

  lemma {:induction false} NotGood(ts: seq<Token>)
    requires WordsOnly(ts)
    ensures GoodIfOk(NotOf(ts))
    decreases |ts|, 1
  {
    if ts != [] && IsNot(ts[0]) { NotGood(ts[1..]); } else { PrimaryGood(ts); }
  }

  lemma {:induction false} OperandGood(kind: Kind, ts: seq<Token>)
    requires WordsOnly(ts)
    ensures GoodIfOk(Operand(kind, ts))
    decreases |ts|, Level(kind)
  {
    if kind.AllOf? { NotGood(ts); } else { BinaryGood(AllOf, ts); }
  }

  lemma {:induction false} BinaryGood(kind: Kind, ts: seq<Token>)
    requires WordsOnly(ts)
    ensures GoodIfOk(Binary(kind, ts))
    decreases |ts|, Level(kind) + 1
  {
    OperandGood(kind, ts);
    var first := Operand(kind, ts);
    if first.Ok? { ChainGood(kind, first.value.tree, first.value.rest); }
  }

  lemma {:induction false} ChainGood(kind: Kind, left: When, ts: seq<Token>)
    requires WordsOnly(ts) && Good(left)
    ensures GoodIfOk(Chain(kind, left, ts))
    decreases |ts|, Level(kind) + 1
  {
    if ts != [] && IsJoin(ts[0], kind) {
      WordsAfter(ts, 1);
      OperandGood(kind, ts[1..]);
      var next := Operand(kind, ts[1..]);
      if next.Ok? {
        Join2Good(kind, left, next.value.tree);
        ChainGood(kind, Join2(kind, left, next.value.tree), next.value.rest);
      }
    }
  }

  lemma {:induction false} WordIsWord(text: string)
    ensures forall i :: 0 <= i < WordLength(text) ==> IsWordPart(text[i])
    decreases |text|
  {
    if text != "" && IsWordPart(text[0]) {
      WordIsWord(text[1..]);
      assert forall i :: 1 <= i < WordLength(text) ==> text[i] == text[1..][i - 1];
    }
  }

  lemma {:induction false} TokensWords(text: string)
    ensures Tokens(text).Ok? ==> WordsOnly(Tokens(text).value)
    decreases |text|
  {
    if text != "" && NextToken(text).Ok? {
      WordIsWord(text);
      TokensWords(NextToken(text).value.1);
    }
  }

  /** Every tree parsed nests no join in one of its kind, has two or more in each, and names only
      facts a device has. */
  lemma {:induction false} ParsedIsGood(source: string)
    ensures ParseOf(source).Ok? ==> Good(ParseOf(source).value)
  {
    TokensWords(source);
    if Tokens(source).Ok? { BinaryGood(AnyOf, Tokens(source).value); }
  }
}
