/** Which changes a review shows together (src/applyPlan.ts, fromEdit and buildApplyPlan): those of one
    cause, an edit's by the settings they come from. */
module PlanLaws {
  import opened Wrappers
  import opened Text
  import opened PlanItems

  // ----- Which edit a change comes from -----

  lemma {:induction false} JoinAppend(a: seq<string>, b: seq<string>, sep: char)
    requires a != [] && b != []
    ensures Join(a + b, sep) == Join(a, sep) + [sep] + Join(b, sep)
    decreases |a|
  {
    assert (a + b)[1..] == a[1..] + b;
    if |a| > 1 {
      JoinAppend(a[1..], b, sep);
    } else {
      assert a[1..] + b == b;
    }
  }

  /** One dotted path's parts begin another's. */
  predicate Begins(above: string, path: string) {
    Split(above, '.') <= Split(path, '.')
  }

  lemma {:induction false} BelowIsBegun(path: string, above: string)
    ensures IsBelow(path, above) || path == above <==> Begins(above, path)
  {
    var (a, p) := (Split(above, '.'), Split(path, '.'));
    if IsBelow(path, above) {
      var rest := path[|above| + 1..];
      assert path == above + ['.'] + rest;
      SplitJoined(above, rest, '.');
    }
    if a <= p {
      JoinOfSplit(above, '.');
      JoinOfSplit(path, '.');
      if a == p {
        assert path == above;
      } else {
        var rest := p[|a|..];
        assert p == a + rest;
        JoinAppend(a, rest, '.');
        assert path == above + "." + Join(rest, '.');
      }
    }
  }

  /** The setting a line comes from, or its item. */
  function ComesFrom(change: Change): Option<string> {
    if change.setting.Some? && |change.setting.value| > 0 then change.setting else change.item
  }

  /** An edit claims a line just when the parts of one's path begin the other's. */
  lemma {:induction false} ClaimsIs(path: string, unit: Unit)
    ensures Claims(path, unit) <==> (
      && unit.change.Some? && ComesFrom(unit.change.value).Some?
      && (Begins(ComesFrom(unit.change.value).value, path) || Begins(path, ComesFrom(unit.change.value).value)))
  {
    if unit.change.Some? && ComesFrom(unit.change.value).Some? {
      var at := ComesFrom(unit.change.value).value;
      BelowIsBegun(path, at);
      BelowIsBegun(at, path);
    }
  }

  // ----- What stands together -----

  ghost predicate Together(items: seq<Item>, i: nat, j: nat) {
    exists k :: 0 <= k < |items| && i in items[k].members && j in items[k].members
  }

  lemma {:induction false} TogetherJoined(a: seq<Item>, b: seq<Item>, i: nat, j: nat)
    ensures Together(a + b, i, j) <==> Together(a, i, j) || Together(b, i, j)
  {
    assert forall k :: 0 <= k < |a| ==> (a + b)[k] == a[k];
    assert forall k :: 0 <= k < |b| ==> (a + b)[|a| + k] == b[k];
  }

  lemma {:induction false} TogetherWhole(source: Why, places: seq<nat>, i: nat, j: nat)
    ensures Together(Whole(source, places), i, j) <==> i in places && j in places
  {
    if i in places { assert Whole(source, places)[0].members == places; }
  }

  lemma {:induction false} GroupKeysApart(places: seq<nat>, key: nat -> string)
    ensures forall g, h :: 0 <= g < h < |GroupBy(places, key)| ==> GroupBy(places, key)[g].0 != GroupBy(places, key)[h].0
    decreases |places|
  {
    if places != [] { GroupKeysApart(places[..|places| - 1], key); }
  }

  lemma {:induction false} GroupOf(places: seq<nat>, key: nat -> string, place: nat) returns (g: nat)
    requires place in places
    ensures g < |GroupBy(places, key)| && place in GroupBy(places, key)[g].1 && GroupBy(places, key)[g].0 == key(place)
    decreases |places|
  {
    var less, last := places[..|places| - 1], places[|places| - 1];
    var before := GroupBy(less, key);
    assert places == less + [last];
    if place == last {
      g := Find(before, key(last));
    } else {
      g := GroupOf(less, key, place);
    }
  }

  lemma {:induction false} GroupItemAt(source: Why, groups: seq<(string, seq<nat>)>, g: nat)
    requires g < |groups|
    ensures |GroupItems(source, groups)| == |groups| && GroupItems(source, groups)[g] == Item(source, groups[g].1)
    decreases |groups|
  {
    if g > 0 {
      GroupItemAt(source, groups[1..], g - 1);
    } else if |groups| > 1 {
      GroupItemAt(source, groups[1..], 0);
    } else {
      assert GroupItems(source, groups[1..]) == [];
    }
  }

  lemma {:induction false} TogetherGrouped(source: Why, places: seq<nat>, key: nat -> string, i: nat, j: nat)
    ensures Together(GroupItems(source, GroupBy(places, key)), i, j) <==> i in places && j in places && key(i) == key(j)
  {
    var groups := GroupBy(places, key);
    var items := GroupItems(source, groups);
    GroupKeysApart(places, key);
    if i in places && j in places && key(i) == key(j) {
      var g := GroupOf(places, key, i);
      var h := GroupOf(places, key, j);
      assert g == h;
      GroupItemAt(source, groups, g);
      assert i in items[g].members && j in items[g].members;
    }
    if Together(items, i, j) {
      if groups != [] { GroupItemAt(source, groups, 0); }
      var k :| 0 <= k < |items| && i in items[k].members && j in items[k].members;
      GroupItemAt(source, groups, k);
      GroupMembers(places, key, k, i);
      GroupMembers(places, key, k, j);
    }
  }

  /** Some edit claims both. */
  ghost predicate OneClaims(units: seq<Unit>, edits: seq<string>, i: nat, j: nat)
    requires i < |units| && j < |units|
  {
    exists e :: 0 <= e < |edits| && Claims(edits[e], units[i]) && Claims(edits[e], units[j])
  }

  predicate NoneClaims(edits: seq<string>, unit: Unit) {
    forall e :: 0 <= e < |edits| ==> !Claims(edits[e], unit)
  }

  lemma {:induction false} TogetherEdited(units: seq<Unit>, edited: seq<nat>, edits: seq<string>, i: nat, j: nat)
    requires (forall k :: 0 <= k < |edited| ==> edited[k] < |units|) && i < |units| && j < |units|
    ensures Together(EditItems(units, edited, edits), i, j) <==> i in edited && j in edited && OneClaims(units, edits, i, j)
    decreases |edits|
  {
    if edits == [] {
      assert EditItems(units, edited, edits) == [];
    } else {
      var first := [Item(Edit, Claimed(units, edited, edits[0]))];
      TogetherEdited(units, edited, edits[1..], i, j);
      TogetherJoined(first, EditItems(units, edited, edits[1..]), i, j);
      assert Together(first, i, j) <==> i in first[0].members && j in first[0].members;
      OneClaimsSplits(units, edits, i, j);
    }
  }

  lemma {:induction false} OneClaimsSplits(units: seq<Unit>, edits: seq<string>, i: nat, j: nat)
    requires edits != [] && i < |units| && j < |units|
    ensures OneClaims(units, edits, i, j)
      <==> (Claims(edits[0], units[i]) && Claims(edits[0], units[j])) || OneClaims(units, edits[1..], i, j)
  {
    assert forall e :: 1 <= e < |edits| ==> edits[e] == edits[1..][e - 1];
    assert forall e :: 0 <= e < |edits| - 1 ==> edits[1..][e] == edits[e + 1];
  }

  /** What a fix, an update or a device's own changes are told apart by. */
  function Title(unit: Unit): string {
    match unit.why
    case Fix => if unit.fix.Some? then unit.fix.value else "Fix"
    case Update => if unit.change.Some? && unit.change.value.called.Some? then unit.change.value.called.value else unit.text
    case _ => unit.device
  }

  /** One cause: the first setting up; one edit, or none; one fix, one update's label, one device. */
  ghost predicate OneCause(units: seq<Unit>, edits: seq<string>, i: nat, j: nat)
    requires i < |units| && j < |units|
  {
    && units[i].why == units[j].why
    && match units[i].why
       case First => true
       case Edit => OneClaims(units, edits, i, j) || (NoneClaims(edits, units[i]) && NoneClaims(edits, units[j]))
       case _ => Title(units[i]) == Title(units[j])
  }

  lemma {:induction false} TogetherOf(units: seq<Unit>, why: Why, key: nat -> string, i: nat, j: nat)
    requires i < |units| && j < |units|
    requires (units[i].why == why ==> key(i) == Title(units[i])) && (units[j].why == why ==> key(j) == Title(units[j]))
    ensures Together(GroupItems(why, GroupBy(Places(units, why), key)), i, j)
      <==> units[i].why == units[j].why == why && Title(units[i]) == Title(units[j])
  {
    TogetherGrouped(why, Places(units, why), key, i, j);
  }

  /** By why a change is there: a fix's, an update's, ... */
  lemma {:induction false} TogetherMade(units: seq<Unit>, i: nat, j: nat)
    requires i < |units| && j < |units|
    ensures Together(GroupItems(Fix, GroupBy(Places(units, Fix), FixKey(units))), i, j)
      <==> units[i].why == units[j].why == Fix && Title(units[i]) == Title(units[j])
    ensures Together(GroupItems(Update, GroupBy(Places(units, Update), LabelKey(units))), i, j)
      <==> units[i].why == units[j].why == Update && Title(units[i]) == Title(units[j])
  {
    TogetherOf(units, Fix, FixKey(units), i, j);
    TogetherOf(units, Update, LabelKey(units), i, j);
  }

  /** ... a device's own. */
  lemma {:induction false} TogetherFound(units: seq<Unit>, why: Why, i: nat, j: nat)
    requires i < |units| && j < |units| && (why.Drift? || why.Unknown?)
    ensures Together(GroupItems(why, GroupBy(Places(units, why), DeviceKey(units))), i, j)
      <==> units[i].why == units[j].why == why && Title(units[i]) == Title(units[j])
  {
    TogetherOf(units, why, DeviceKey(units), i, j);
  }

  lemma {:induction false} TogetherEdits(units: seq<Unit>, edits: seq<string>, i: nat, j: nat)
    requires i < |units| && j < |units|
    ensures var edited := Places(units, Edit);
      Together(EditItems(units, edited, edits), i, j) || Together(Whole(Edit, Unclaimed(units, edited, edits)), i, j)
      <==> units[i].why == units[j].why == Edit && (OneClaims(units, edits, i, j) || (NoneClaims(edits, units[i]) && NoneClaims(edits, units[j])))
  {
    var edited := Places(units, Edit);
    TogetherEdited(units, edited, edits, i, j);
    TogetherWhole(Edit, Unclaimed(units, edited, edits), i, j);
  }

  lemma {:induction false} SevenTogether(
      a: seq<Item>, b: seq<Item>, c: seq<Item>, d: seq<Item>, e: seq<Item>, f: seq<Item>, g: seq<Item>, i: nat, j: nat)
    ensures Together(a + b + c + d + e + f + g, i, j) <==> (
      || Together(a, i, j) || Together(b, i, j) || Together(c, i, j) || Together(d, i, j)
      || Together(e, i, j) || Together(f, i, j) || Together(g, i, j))
  {
    TogetherJoined(a, b, i, j);
    TogetherJoined(a + b, c, i, j);
    TogetherJoined(a + b + c, d, i, j);
    TogetherJoined(a + b + c + d, e, i, j);
    TogetherJoined(a + b + c + d + e, f, i, j);
    TogetherJoined(a + b + c + d + e + f, g, i, j);
  }

  lemma {:induction false} TogetherParts(units: seq<Unit>, edits: seq<string>, i: nat, j: nat)
    ensures var edited := Places(units, Edit);
      Together(Items(units, edits), i, j) <==> (
        || Together(Whole(First, Places(units, First)), i, j)
        || Together(EditItems(units, edited, edits), i, j)
        || Together(Whole(Edit, Unclaimed(units, edited, edits)), i, j)
        || Together(GroupItems(Fix, GroupBy(Places(units, Fix), FixKey(units))), i, j)
        || Together(GroupItems(Update, GroupBy(Places(units, Update), LabelKey(units))), i, j)
        || Together(GroupItems(Drift, GroupBy(Places(units, Drift), DeviceKey(units))), i, j)
        || Together(GroupItems(Unknown, GroupBy(Places(units, Unknown), DeviceKey(units))), i, j))
  {
    var edited := Places(units, Edit);
    SevenTogether(
      Whole(First, Places(units, First)), EditItems(units, edited, edits), Whole(Edit, Unclaimed(units, edited, edits)),
      GroupItems(Fix, GroupBy(Places(units, Fix), FixKey(units))), GroupItems(Update, GroupBy(Places(units, Update), LabelKey(units))),
      GroupItems(Drift, GroupBy(Places(units, Drift), DeviceKey(units))), GroupItems(Unknown, GroupBy(Places(units, Unknown), DeviceKey(units))),
      i, j);
  }

  /** Two changes are in one item just when they have one cause. */
  lemma {:induction false} TogetherIsOneCause(units: seq<Unit>, edits: seq<string>, i: nat, j: nat)
    requires i < |units| && j < |units|
    ensures Together(Items(units, edits), i, j) <==> OneCause(units, edits, i, j)
  {
    TogetherParts(units, edits, i, j);
    TogetherWhole(First, Places(units, First), i, j);
    TogetherEdits(units, edits, i, j);
    TogetherMade(units, i, j);
    TogetherFound(units, Drift, i, j);
    TogetherFound(units, Unknown, i, j);
  }
}
