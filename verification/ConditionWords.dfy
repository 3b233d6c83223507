/** How numbers and names are read in a condition (src/condition.ts, tokenize): each whole, however it
    goes on. */
module ConditionWords {
  import opened Wrappers
  import opened Text
  import opened Condition
  import opened ConditionParser

  predicate AllDigits(text: string) {
    forall i :: 0 <= i < |text| ==> '0' <= text[i] <= '9'
  }

  predicate StartsWithDigit(text: string) {
    text != "" && '0' <= text[0] <= '9'
  }

  /** A name's character: a letter, a digit, `_`, `.` or `-`. */
  predicate OfName(c: char) {
    'A' <= c <= 'Z' || 'a' <= c <= 'z' || '0' <= c <= '9' || c in "_.-"
  }

  predicate IsName(text: string) {
    && text != "" && ('A' <= text[0] <= 'Z' || 'a' <= text[0] <= 'z' || text[0] == '_')
    && forall i :: 0 <= i < |text| ==> OfName(text[i])
  }

  lemma {:induction false} OfNameIs(c: char)
    ensures IsWordPart(c) <==> OfName(c)
  {
    assert "_.-"[0] == '_' && "_.-"[1] == '.' && "_.-"[2] == '-';
  }

  lemma {:induction false} DigitsRun(digits: string, rest: string)
    requires AllDigits(digits) && !StartsWithDigit(rest)
    ensures DigitsLength(digits + rest) == |digits|
    decreases |digits|
  {
    var text := digits + rest;
    if digits == "" {
      assert text == rest;
    } else {
      assert text[0] == digits[0] && text[1..] == digits[1..] + rest;
      DigitsRun(digits[1..], rest);
    }
  }

  lemma {:induction false} NameRun(name: string, rest: string)
    requires (forall i :: 0 <= i < |name| ==> OfName(name[i])) && (rest != "" ==> !OfName(rest[0]))
    ensures WordLength(name + rest) == |name|
    decreases |name|
  {
    var text := name + rest;
    if name == "" {
      assert text == rest;
      if rest != "" { OfNameIs(rest[0]); }
    } else {
      assert text[0] == name[0] && text[1..] == name[1..] + rest;
      OfNameIs(name[0]);
      NameRun(name[1..], rest);
    }
  }

  /** A number as written: a sign or none, digits, and a fraction or none. */
  function Written(negative: bool, whole: string, fraction: string): string {
    (if negative then "-" else "") + whole + (if fraction == "" then "" else "." + fraction)
  }

  /** What comes after does not go on with it. */
  predicate EndsNumber(fraction: string, rest: string) {
    !StartsWithDigit(rest) && (fraction == "" && rest != "" && rest[0] == '.' ==> !StartsWithDigit(rest[1..]))
  }

  lemma {:induction false} WholeRun(text: string, sign: nat, whole: string, rest: string)
    requires sign <= 1 && sign < |text| && (text[0] == '-' <==> sign == 1) && text[sign..] == whole + rest
    requires whole != "" && AllDigits(whole) && EndsNumber("", rest)
    ensures NumberLength(text) == sign + |whole|
  {
    DigitsRun(whole, rest);
    var point := sign + |whole|;
    assert text[point..] == rest;
    if rest != "" && rest[0] == '.' {
      assert text[point] == '.' && text[point + 1..] == rest[1..];
      DigitsRun("", rest[1..]);
      assert "" + rest[1..] == rest[1..];
    } else {
      assert point < |text| ==> text[point] == rest[0];
    }
  }

  lemma {:induction false} FractionRun(text: string, sign: nat, whole: string, fraction: string, rest: string)
    requires sign <= 1 && sign < |text| && (text[0] == '-' <==> sign == 1) && text[sign..] == whole + ("." + fraction + rest)
    requires whole != "" && AllDigits(whole) && fraction != "" && AllDigits(fraction) && !StartsWithDigit(rest)
    ensures NumberLength(text) == sign + |whole| + 1 + |fraction|
  {
    DigitsRun(whole, "." + fraction + rest);
    var point := sign + |whole|;
    assert text[point..] == "." + fraction + rest;
    assert text[point] == '.' && text[point + 1..] == fraction + rest;
    DigitsRun(fraction, rest);
  }

  lemma {:induction false} NumberRun(negative: bool, whole: string, fraction: string, rest: string)
    requires whole != "" && AllDigits(whole) && AllDigits(fraction) && EndsNumber(fraction, rest)
    ensures NumberLength(Written(negative, whole, fraction) + rest) == |Written(negative, whole, fraction)|
  {
    var text := Written(negative, whole, fraction) + rest;
    var sign := if negative then 1 else 0;
    if fraction == "" {
      assert text[sign..] == whole + rest;
      WholeRun(text, sign, whole, rest);
    } else {
      assert text[sign..] == whole + ("." + fraction + rest);
      FractionRun(text, sign, whole, fraction, rest);
    }
  }

  lemma {:induction false} NumberToken(text: string, n: nat)
    requires text != "" && (text[0] == '-' || '0' <= text[0] <= '9') && 0 < n == NumberLength(text)
    ensures NextToken(text) == Ok(([Num(text[..n])], text[n..]))
  {
    if |text| > 1 { assert text[..2][0] == text[0]; }
  }

  /** A number is one token, of its text: 25.10 is not read as 25.1, nor -5 as two. */
  lemma {:induction false} NumberLexes(negative: bool, whole: string, fraction: string, rest: string)
    requires whole != "" && AllDigits(whole) && AllDigits(fraction) && EndsNumber(fraction, rest)
    ensures NextToken(Written(negative, whole, fraction) + rest) == Ok(([Num(Written(negative, whole, fraction))], rest))
  {
    var number := Written(negative, whole, fraction);
    var text := number + rest;
    NumberRun(negative, whole, fraction, rest);
    assert text[0] == number[0];
    NumberToken(text, |number|);
    assert text[..|number|] == number && text[|number|..] == rest;
  }

  /** A name is one token, as far as it goes. */
  lemma {:induction false} NameLexes(name: string, rest: string)
    requires IsName(name) && (rest != "" ==> !OfName(rest[0]))
    ensures NextToken(name + rest) == Ok(([Word(name)], rest))
  {
    var text := name + rest;
    NameRun(name, rest);
    assert text[0] == name[0] && !('0' <= text[0] <= '9') && text[0] != '-';
    if |text| > 1 { assert text[..2][0] == text[0]; }
    assert DigitsLength(text[0..]) == 0 by { assert text[0..] == text; }
    assert text[..|name|] == name && text[|name|..] == rest;
  }

  // ----- Names and keywords -----

  const BUILT_IN := [
    "device.sw_config", "device.hostname", "device.ipaddr", "device.model_id", "device.version", "device.target",
    "device.wifi_2g", "device.wifi_5g", "device.wifi_6g", "device.mesh_2g", "device.mesh_5g", "device.mesh_6g"]

  /** A condition may ask for any tag a device has, and twelve things more; nothing else is a name. */
  lemma {:induction false} FactsAre(name: string)
    ensures IsFact(name) <==> name in BUILT_IN || exists key: string :: key != "" && name == "device.tag." + key
  {
    if "device.tag." <= name && |name| > 11 {
      assert |"device.tag."| == 11;
      assert name == "device.tag." + name[11..] && name[11..] != "";
    }
    if key: string :| key != "" && name == "device.tag." + key {
      assert "device.tag." <= name;
    }
  }

  /** A capital and its small letter. */
  predicate SameLetter(c: char, capital: char)
    requires 'A' <= capital <= 'Z'
  {
    c == capital || (c as int) == (capital as int) + 32
  }

  /** A keyword is read in any mix of cases, and nothing else as it. */
  lemma {:induction false} KeywordAnyCase(text: string, word: string)
    requires forall i :: 0 <= i < |word| ==> 'A' <= word[i] <= 'Z'
    ensures IsKeyword(Word(text), word) <==> |text| == |word| && forall i :: 0 <= i < |word| ==> SameLetter(text[i], word[i])
  {
    var upper := Upper(text);
    assert forall i :: 0 <= i < |text| ==> upper[i] == UpperChar(text[i]);
    if |text| == |word| && forall i :: 0 <= i < |word| ==> SameLetter(text[i], word[i]) {
      assert upper == word;
    }
  }
}
