/** Every spelling of a condition reads as one (src/condition.ts, parse): `&&` as AND, `||` as OR, `!` as
    NOT, a number as its text quoted, a keyword in any case. */
module ConditionSpelling {
  import opened Wrappers
  import opened Text
  import opened When
  import opened Condition
  import opened ConditionParser

  /** A token as it is spelt in the printer's way. */
  function Spelt(token: Token): Token {
    if token.Num? then Str(token.text)
    else if IsPunct(token, "&&") || IsKeyword(token, "AND") then Word("AND")
    else if IsPunct(token, "||") || IsKeyword(token, "OR") then Word("OR")
    else if IsPunct(token, "!") || IsKeyword(token, "NOT") then Word("NOT")
    else if IsKeyword(token, "IN") then Word("in")
    else if IsKeyword(token, "TRUE") then Word("true")
    else if IsKeyword(token, "FALSE") then Word("false")
    else token
  }

  function AllSpelt(ts: seq<Token>): seq<Token> {
    seq(|ts|, i requires 0 <= i < |ts| => Spelt(ts[i]))
  }

  function RestSpelt<T>(r: Result<Parsed<T>>): Result<Parsed<T>> {
    match r
    case Err => Err
    case Ok(p) => Ok(Parsed(p.tree, AllSpelt(p.rest)))
  }

  lemma {:induction false} Cases()
    ensures Upper("AND") == "AND" && Upper("OR") == "OR" && Upper("NOT") == "NOT"
    ensures Upper("in") == "IN" && Upper("true") == "TRUE" && Upper("false") == "FALSE"
  {
  }

  /** No token is two keywords, and none of them a name. */
  lemma {:induction false} NotFacts(text: string)
    requires Upper(text) == "AND" || Upper(text) == "OR" || Upper(text) == "NOT" || Upper(text) == "IN" || Upper(text) == "TRUE" || Upper(text) == "FALSE"
    ensures !IsFact(text)
  {
    assert |Upper(text)| == |text|;
    assert |"device.tag."| == 11;
  }

  lemma {:induction false} SpeltKeyword(t: Token)
    ensures IsJoin(Spelt(t), AllOf) <==> IsJoin(t, AllOf)
    ensures IsJoin(Spelt(t), AnyOf) <==> IsJoin(t, AnyOf)
    ensures IsNot(Spelt(t)) <==> IsNot(t)
    ensures IsKeyword(Spelt(t), "IN") <==> IsKeyword(t, "IN")
    ensures IsKeyword(Spelt(t), "TRUE") <==> IsKeyword(t, "TRUE")
    ensures IsKeyword(Spelt(t), "FALSE") <==> IsKeyword(t, "FALSE")
  {
    Cases();
  }

  lemma {:induction false} SpeltMark(t: Token, mark: string)
    requires mark != "&&" && mark != "||" && mark != "!"
    ensures IsPunct(Spelt(t), mark) <==> IsPunct(t, mark)
  {
  }

  lemma {:induction false} SpeltTest(t: Token)
    ensures IsEquality(Spelt(t)) <==> IsEquality(t)
    ensures IsPunct(Spelt(t), "!=") <==> IsPunct(t, "!=")
    ensures OrderOf(Spelt(t)) == OrderOf(t)
    ensures IsPunct(Spelt(t), "[") <==> IsPunct(t, "[")
    ensures IsPunct(Spelt(t), "]") <==> IsPunct(t, "]")
    ensures IsPunct(Spelt(t), ",") <==> IsPunct(t, ",")
    ensures IsPunct(Spelt(t), "(") <==> IsPunct(t, "(")
    ensures IsPunct(Spelt(t), ")") <==> IsPunct(t, ")")
    ensures IsPunct(Spelt(t), "*") <==> IsPunct(t, "*")
    ensures Spelt(t).End? <==> t.End?
  {
    assert "!=" != "!" && |"!="| == 2;
    SpeltMark(t, "==");
    SpeltMark(t, "!=");
    SpeltMark(t, "<");
    SpeltMark(t, "<=");
    SpeltMark(t, ">");
    SpeltMark(t, ">=");
    SpeltMark(t, "[");
    SpeltMark(t, "]");
    SpeltMark(t, ",");
    SpeltMark(t, "(");
    SpeltMark(t, ")");
    SpeltMark(t, "*");
  }

  /** A name is spelt as it is, and nothing else is spelt as a name. */
  lemma {:induction false} SpeltName(t: Token)
    ensures Spelt(t).Word? && !IsReserved(Spelt(t)) && IsFact(Spelt(t).text) <==> t.Word? && !IsReserved(t) && IsFact(t.text)
    ensures t.Word? && !IsReserved(t) && IsFact(t.text) ==> Spelt(t) == t
  {
    Cases();
    if t.Word? {
      if Upper(t.text) == "TRUE" || Upper(t.text) == "FALSE" { NotFacts(t.text); }
    }
    NotFacts("true");
    NotFacts("false");
  }

  lemma {:induction false} SpeltTail(ts: seq<Token>, n: nat)
    requires n <= |ts|
    ensures AllSpelt(ts)[n..] == AllSpelt(ts[n..]) && |AllSpelt(ts)| == |ts|
  {
  }

  // ----- The grammar reads both alike -----

  lemma {:induction false} ValueSpelt(ts: seq<Token>)
    ensures ValueOf(AllSpelt(ts)) == RestSpelt(ValueOf(ts))
  {
    if ts != [] {
      SpeltTail(ts, 1);
      SpeltKeyword(ts[0]);
    }
  }

  lemma {:induction false} ValuesSpelt(values: seq<Literal>, ts: seq<Token>)
    ensures MoreValues(values, AllSpelt(ts)) == RestSpelt(MoreValues(values, ts))
    decreases |ts|
  {
    if ts != [] {
      SpeltTail(ts, 1);
      SpeltTest(ts[0]);
      ValueSpelt(ts[1..]);
      if IsPunct(ts[0], ",") && ValueOf(ts[1..]).Ok? {
        var p := ValueOf(ts[1..]).value;
        ValuesSpelt(values + [p.tree], p.rest);
      }
    }
  }

  lemma {:induction false} TestSpelt(fact: string, ts: seq<Token>)
    ensures TestOf(fact, AllSpelt(ts)) == RestSpelt(TestOf(fact, ts))
  {
    if |ts| >= 2 {
      SpeltTail(ts, 1);
      SpeltTail(ts, 2);
      SpeltTest(ts[0]);
      SpeltTest(ts[1]);
      SpeltKeyword(ts[0]);
      ValueSpelt(ts[1..]);
      ValueSpelt(ts[2..]);
      if ValueOf(ts[2..]).Ok? {
        var first := ValueOf(ts[2..]).value;
        ValuesSpelt([first.tree], first.rest);
      }
    }
  }

  lemma {:induction false} PrimarySpelt(ts: seq<Token>)
    ensures Primary(AllSpelt(ts)) == RestSpelt(Primary(ts))
    decreases |ts|, 0
  {
    if ts != [] {
      SpeltTail(ts, 1);
      SpeltTest(ts[0]);
      SpeltName(ts[0]);
      if IsPunct(ts[0], "(") {
        BinarySpelt(AnyOf, ts[1..]);
        if Binary(AnyOf, ts[1..]).Ok? {
          var rest := Binary(AnyOf, ts[1..]).value.rest;
          if rest != [] {
            SpeltTail(rest, 1);
            SpeltTest(rest[0]);
          }
        }
      } else if ts[0].Word? && !IsReserved(ts[0]) && IsFact(ts[0].text) {
        TestSpelt(ts[0].text, ts[1..]);
      }
    }
  }

  lemma {:induction false} NotSpelt(ts: seq<Token>)
    ensures NotOf(AllSpelt(ts)) == RestSpelt(NotOf(ts))
    decreases |ts|, 1
  {
    if ts != [] {
      SpeltTail(ts, 1);
      SpeltKeyword(ts[0]);
    }
    if ts != [] && IsNot(ts[0]) { NotSpelt(ts[1..]); } else { PrimarySpelt(ts); }
  }

  lemma {:induction false} OperandSpelt(kind: Kind, ts: seq<Token>)
    ensures Operand(kind, AllSpelt(ts)) == RestSpelt(Operand(kind, ts))
    decreases |ts|, Level(kind)
  {
    if kind.AllOf? { NotSpelt(ts); } else { BinarySpelt(AllOf, ts); }
  }

  lemma {:induction false} BinarySpelt(kind: Kind, ts: seq<Token>)
    ensures Binary(kind, AllSpelt(ts)) == RestSpelt(Binary(kind, ts))
    decreases |ts|, Level(kind) + 1
  {
    OperandSpelt(kind, ts);
    if Operand(kind, ts).Ok? {
      var p := Operand(kind, ts).value;
      ChainSpelt(kind, p.tree, p.rest);
    }
  }

  lemma {:induction false} ChainSpelt(kind: Kind, left: When, ts: seq<Token>)
    ensures Chain(kind, left, AllSpelt(ts)) == RestSpelt(Chain(kind, left, ts))
    decreases |ts|, Level(kind) + 1
  {
    if ts != [] {
      SpeltTail(ts, 1);
      SpeltKeyword(ts[0]);
      if IsJoin(ts[0], kind) {
        OperandSpelt(kind, ts[1..]);
        if Operand(kind, ts[1..]).Ok? {
          var p := Operand(kind, ts[1..]).value;
          ChainSpelt(kind, Join2(kind, left, p.tree), p.rest);
        }
      }
    }
  }

  /** A condition reads the same in every spelling. */
  lemma {:induction false} SpellingIsFree(ts: seq<Token>)
    ensures TreeOf(AllSpelt(ts)) == TreeOf(ts)
  {
    BinarySpelt(AnyOf, ts);
    if Binary(AnyOf, ts).Ok? {
      var rest := Binary(AnyOf, ts).value.rest;
      if rest != [] { SpeltTest(rest[0]); }
    }
  }
}
