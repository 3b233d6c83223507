/** A config as `uci show` lines, and what changes between two of them (src/deviceState.ts, keyed and
    uciLines; src/applyDiff.ts, diffLines). */
module ReviewLines {
  import opened Wrappers
  import opened Text
  import opened Uci

  /** A line's value; a secret's is compared, never shown. */
  datatype Line = Line(value: string, secret: bool)

  // ----- A value as it shows -----

  function Items(value: Value): seq<string> {
    match value
    case One(text) => [text]
    case Many(items) => items
  }

  function Quoted(item: string): string {
    "'" + item + "'"
  }

  function ShowItems(items: seq<string>): string {
    if items == [] then ""
    else if |items| == 1 then Quoted(items[0])
    else Quoted(items[0]) + " " + ShowItems(items[1..])
  }

  function Show(value: Value): string {
    ShowItems(Items(value))
  }

  predicate QuoteFree(items: seq<string>) {
    forall i :: 0 <= i < |items| ==> '\'' !in items[i]
  }

  lemma {:induction false} ShowStarts(items: seq<string>)
    requires items != []
    ensures ShowItems(items) == "'" + items[0] + "'" + if |items| == 1 then "" else " " + ShowItems(items[1..])
  {
  }

  /** The text before a mark in two texts that are one. */
  lemma {:induction false} SplitAtQuote(a: string, x: string, b: string, y: string)
    requires "'" + a + "'" + x == "'" + b + "'" + y && '\'' !in a && '\'' !in b
    ensures a == b && x == y
  {
    var l, r := "'" + a + "'" + x, "'" + b + "'" + y;
    assert l[|a| + 1] == '\'' && r[|b| + 1] == '\'';
    assert forall i :: 0 <= i < |a| ==> l[i + 1] == a[i];
    assert forall i :: 0 <= i < |b| ==> r[i + 1] == b[i];
    assert |a| == |b|;
    assert a == l[1..|a| + 1] && b == r[1..|b| + 1];
    assert x == l[|a| + 2..] && y == r[|b| + 2..];
  }

  lemma {:induction false} ShowsOnce(a: seq<string>, b: seq<string>)
    requires QuoteFree(a) && QuoteFree(b) && ShowItems(a) == ShowItems(b)
    ensures a == b
    decreases |a|
  {
    if a != [] && b != [] {
      ShowStarts(a);
      ShowStarts(b);
      var x, y := if |a| == 1 then "" else " " + ShowItems(a[1..]), if |b| == 1 then "" else " " + ShowItems(b[1..]);
      SplitAtQuote(a[0], x, b[0], y);
      if |a| > 1 && |b| > 1 {
        assert ShowItems(a[1..]) == x[1..] == y[1..] == ShowItems(b[1..]);
        ShowsOnce(a[1..], b[1..]);
      }
      assert a == [a[0]] + a[1..] && b == [b[0]] + b[1..];
    }
  }

  /** Free of quotes, two values show alike just when they hold the same items: a list of one item
      shows as an option of it. */
  lemma {:induction false} ShowIsExact(a: Value, b: Value)
    requires QuoteFree(Items(a)) && QuoteFree(Items(b))
    ensures Show(a) == Show(b) <==> Items(a) == Items(b)
  {
    if Show(a) == Show(b) { ShowsOnce(Items(a), Items(b)); }
  }

  /** With quotes they need not: one item can show as two. */
  lemma {:induction false} ShowBlurs(a: string, b: string)
    ensures Show(Many([a, b])) == Show(One(a + "' '" + b))
  {
    assert [a, b][1..] == [b];
    assert ShowItems([b]) == Quoted(b) && ShowItems([a, b]) == Quoted(a) + " " + Quoted(b);
    assert "' '" == "'" + " " + "'";
    assert ("'" + a + "'") + " " + ("'" + b + "'") == "'" + (a + ("'" + " " + "'") + b) + "'";
    assert ShowItems([a + "' '" + b]) == Quoted(a + "' '" + b);
  }

  // ----- Exactly which values show as no other does -----

  /** A shown value without its first and last quotes. */
  function Inner(items: seq<string>): string
    requires items != []
  {
    if |items| == 1 then items[0] else items[0] + "' '" + Inner(items[1..])
  }

  lemma {:induction false} ShowIsInner(items: seq<string>)
    requires items != []
    ensures ShowItems(items) == "'" + Inner(items) + "'"
    decreases |items|
  {
    if |items| > 1 {
      ShowIsInner(items[1..]);
      assert "' '" == "'" + " " + "'";
      var first, rest := items[0], Inner(items[1..]);
      assert ("'" + first + "'") + " " + ("'" + rest + "'") == "'" + (first + ("'" + " " + "'") + rest) + "'";
    }
  }

  lemma {:induction false} QuotedOnce(a: string, b: string)
    requires "'" + a + "'" == "'" + b + "'"
    ensures a == b
  {
    var l, r := "'" + a + "'", "'" + b + "'";
    assert a == l[1..|l| - 1] && b == r[1..|r| - 1];
  }

  predicate BetweenAt(text: string, i: nat) {
    i + 3 <= |text| && text[i..i + 3] == "' '"
  }

  /** A text that has, somewhere, a quote, a space and a quote: what stands between two items. */
  predicate HasBetween(text: string) {
    exists i :: 0 <= i < |text| && BetweenAt(text, i)
  }

  lemma {:induction false} InnerHasBetween(items: seq<string>)
    requires |items| > 1
    ensures HasBetween(Inner(items))
  {
    var text := Inner(items);
    assert text == items[0] + "' '" + Inner(items[1..]);
    assert BetweenAt(text, |items[0]|);
  }

  predicate ShowsAlone(items: seq<string>) {
    items == [] || (|items| == 1 && !HasBetween(items[0]))
  }

  lemma {:induction false} AloneShowsOnce(a: seq<string>, b: seq<string>)
    requires ShowsAlone(a) && ShowItems(a) == ShowItems(b)
    ensures a == b
  {
    if a != [] && b != [] {
      ShowIsInner(a);
      ShowIsInner(b);
      QuotedOnce(Inner(a), Inner(b));
      if |b| > 1 { InnerHasBetween(b); }
    } else {
      if a != [] { ShowIsInner(a); }
      if b != [] { ShowIsInner(b); }
    }
  }

  /** Another list that shows as this one does: one item for two or more, two for one that has a mark
      between items in it. */
  lemma {:induction false} ShowsAs(a: seq<string>) returns (b: seq<string>)
    requires !ShowsAlone(a)
    ensures b != a && ShowItems(b) == ShowItems(a)
  {
    ShowIsInner(a);
    if |a| > 1 {
      b := [Inner(a)];
    } else {
      var text := a[0];
      var i :| 0 <= i < |text| && BetweenAt(text, i);
      b := [text[..i], text[i + 3..]];
      assert b[1..] == [text[i + 3..]];
      assert text == text[..i] + "' '" + text[i + 3..];
      ShowIsInner(b);
    }
  }

  /** A value shows as no other's items do just when it has none, or one with no quote, space, quote in
      it. Any list of two items or more shows as one item does. */
  lemma {:induction false} ShowsAloneIsExact(a: Value)
    ensures (forall b: Value :: Show(a) == Show(b) ==> Items(a) == Items(b)) <==> ShowsAlone(Items(a))
  {
    if ShowsAlone(Items(a)) {
      forall b: Value | Show(a) == Show(b) ensures Items(a) == Items(b) { AloneShowsOnce(Items(a), Items(b)); }
    } else {
      var b := ShowsAs(Items(a));
      assert Show(Many(b)) == Show(a) && Items(Many(b)) != Items(a);
    }
  }

  // ----- What changes -----

  datatype Change = Change(key: string, before: Option<string>, after: Option<string>)

  const HIDDEN := "(hidden)"

  function Shown(line: Option<Line>): Option<string> {
    if line.None? then None else Some(if line.value.secret then HIDDEN else line.value.value)
  }

  function At(lines: map<string, Line>, key: string): Option<Line> {
    if key in lines then Some(lines[key]) else None
  }

  function ValueAt(lines: map<string, Line>, key: string): Option<string> {
    if key in lines then Some(lines[key].value) else None
  }

  /** The lines that differ, of these keys. */
  function DiffOf(keys: seq<string>, before: map<string, Line>, after: map<string, Line>): seq<Change> {
    if keys == [] then []
    else
      (if ValueAt(before, keys[0]) == ValueAt(after, keys[0]) then []
       else [Change(keys[0], Shown(At(before, keys[0])), Shown(At(after, keys[0])))])
      + DiffOf(keys[1..], before, after)
  }

  /** Every key of either, each once, in some order. */
  ghost predicate IsKeys(keys: seq<string>, before: map<string, Line>, after: map<string, Line>) {
    && (forall i, j :: 0 <= i < j < |keys| ==> keys[i] != keys[j])
    && forall key :: key in keys <==> key in before || key in after
  }

  /** Lines as they show. */
  function ShownLines(lines: map<string, Line>): map<string, string> {
    map key | key in lines :: Shown(Some(lines[key])).value
  }

  /** A change made: its line set, or gone. */
  function Apply(lines: map<string, string>, changes: seq<Change>): map<string, string> {
    if changes == [] then lines
    else
      var last := changes[|changes| - 1];
      var before := Apply(lines, changes[..|changes| - 1]);
      if last.after.Some? then before[last.key := last.after.value] else before - {last.key}
  }

  function Changed(changes: seq<Change>, key: string): bool {
    exists i :: 0 <= i < |changes| && changes[i].key == key
  }

  lemma {:induction false} DiffMembers(keys: seq<string>, before: map<string, Line>, after: map<string, Line>, key: string)
    ensures Changed(DiffOf(keys, before, after), key) <==> key in keys && ValueAt(before, key) != ValueAt(after, key)
    decreases |keys|
  {
    if keys != [] {
      DiffMembers(keys[1..], before, after, key);
      var first := if ValueAt(before, keys[0]) == ValueAt(after, keys[0]) then []
        else [Change(keys[0], Shown(At(before, keys[0])), Shown(At(after, keys[0])))];
      ChangedJoined(first, DiffOf(keys[1..], before, after), key);
      if first != [] { assert first[0].key == keys[0]; }
    }
  }

  lemma {:induction false} ChangedJoined(a: seq<Change>, b: seq<Change>, key: string)
    ensures Changed(a + b, key) <==> Changed(a, key) || Changed(b, key)
  {
    assert forall i :: 0 <= i < |a| ==> (a + b)[i] == a[i];
    assert forall i :: 0 <= i < |b| ==> (a + b)[|a| + i] == b[i];
  }

  lemma {:induction false} DiffSays(keys: seq<string>, before: map<string, Line>, after: map<string, Line>, i: nat)
    requires i < |DiffOf(keys, before, after)|
    ensures var change := DiffOf(keys, before, after)[i];
      change.before == Shown(At(before, change.key)) && change.after == Shown(At(after, change.key))
    decreases |keys|
  {
    var rest, all := DiffOf(keys[1..], before, after), DiffOf(keys, before, after);
    if i >= |all| - |rest| {
      DiffSays(keys[1..], before, after, i - (|all| - |rest|));
      assert all[i] == rest[i - (|all| - |rest|)];
    }
  }

  /** A change says what its line was and what it is, a secret's only that there is one. */
  lemma {:induction false} SecretsHidden(keys: seq<string>, before: map<string, Line>, after: map<string, Line>, i: nat)
    requires i < |DiffOf(keys, before, after)|
    ensures var change := DiffOf(keys, before, after)[i];
      && (change.before.Some? <==> change.key in before) && (change.after.Some? <==> change.key in after)
      && (change.key in before ==> change.before.value == if before[change.key].secret then "(hidden)" else before[change.key].value)
      && (change.key in after ==> change.after.value == if after[change.key].secret then "(hidden)" else after[change.key].value)
  {
    DiffSays(keys, before, after, i);
  }

  /** Lines the same but for what the secret ones hold. */
  predicate AlikeButSecrets(a: map<string, Line>, b: map<string, Line>) {
    && a.Keys == b.Keys
    && forall key :: key in a ==> a[key].secret == b[key].secret && (a[key].secret || a[key].value == b[key].value)
  }

  /** Of a secret the changes tell only whether it changed: with other secrets they are the same. */
  lemma {:induction false} SecretsStaySecret(
      keys: seq<string>, before: map<string, Line>, after: map<string, Line>, before2: map<string, Line>, after2: map<string, Line>)
    requires AlikeButSecrets(before, before2) && AlikeButSecrets(after, after2)
    requires forall key :: key in keys ==>
      (ValueAt(before, key) == ValueAt(after, key) <==> ValueAt(before2, key) == ValueAt(after2, key))
    ensures DiffOf(keys, before, after) == DiffOf(keys, before2, after2)
    decreases |keys|
  {
    if keys != [] {
      SecretsStaySecret(keys[1..], before, after, before2, after2);
      assert Shown(At(before, keys[0])) == Shown(At(before2, keys[0]));
    }
  }

  /** After these changes a key is as the last of them for it says, or as it was. */
  lemma {:induction false} ApplyAt(lines: map<string, string>, changes: seq<Change>, key: string, after: map<string, Line>)
    requires forall i :: 0 <= i < |changes| ==> changes[i].after == Shown(At(after, changes[i].key))
    ensures var done := Apply(lines, changes);
      if Changed(changes, key) then (key in done <==> key in after) && (key in after ==> Some(done[key]) == Shown(At(after, key)))
      else (key in done <==> key in lines) && (key in lines ==> done[key] == lines[key])
    decreases |changes|
  {
    if changes != [] {
      var less, last := changes[..|changes| - 1], changes[|changes| - 1];
      ApplyAt(lines, less, key, after);
      assert Changed(changes, key) <==> Changed(less, key) || last.key == key by {
        assert forall i :: 0 <= i < |less| ==> less[i] == changes[i];
      }
    }
  }

  /** Lines that are equal are secret alike: it is the option's name that says. */
  predicate SecretAlike(before: map<string, Line>, after: map<string, Line>) {
    forall key :: key in before && key in after ==> before[key].secret == after[key].secret
  }

  /** The changes listed are exactly the lines that differ, and made to what was before, as shown,
      they give what comes after. */
  lemma {:induction false} DiffIsExact(keys: seq<string>, before: map<string, Line>, after: map<string, Line>)
    requires IsKeys(keys, before, after) && SecretAlike(before, after)
    ensures forall key :: Changed(DiffOf(keys, before, after), key) <==> ValueAt(before, key) != ValueAt(after, key)
    ensures Apply(ShownLines(before), DiffOf(keys, before, after)) == ShownLines(after)
  {
    var diff := DiffOf(keys, before, after);
    forall key ensures Changed(diff, key) <==> ValueAt(before, key) != ValueAt(after, key) { DiffMembers(keys, before, after, key); }
    forall i | 0 <= i < |diff| ensures diff[i].after == Shown(At(after, diff[i].key)) { DiffSays(keys, before, after, i); }
    forall key
      ensures key in Apply(ShownLines(before), diff) <==> key in after
      ensures key in after ==> Apply(ShownLines(before), diff)[key] == ShownLines(after)[key]
    {
      ApplyAt(ShownLines(before), diff, key, after);
    }
  }
}
