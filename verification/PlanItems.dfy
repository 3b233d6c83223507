/** The items an apply is reviewed by (src/applyPlan.ts, buildApplyPlan): every change on every device
    is in one of them. */
module PlanItems {
  import opened Wrappers

  datatype Why = First | Edit | Fix | Update | Drift | Unknown

  /** A config line that changes: the setting it comes from, or its item, and what it is called. */
  datatype Change = Change(setting: Option<string>, item: Option<string>, called: Option<string>)

  /** One change on one device: a config line's, or a package's or a file's. */
  datatype Unit = Unit(device: string, why: Why, fix: Option<string>, text: string, change: Option<Change>)

  /** An item, its changes by their places among all. */
  datatype Item = Item(source: Why, members: seq<nat>)

  // ----- What an edit claims -----

  predicate IsBelow(path: string, above: string) {
    above + "." <= path
  }

  predicate Near(p: Option<string>, path: string) {
    p.Some? && (p.value == path || IsBelow(p.value, path) || IsBelow(path, p.value))
  }

  /** Whether a line comes from an edit at a path: its setting, or else its item, on either side of it. */
  predicate FromEdit(change: Change, path: string) {
    if change.setting.Some? && change.setting.value != "" then Near(change.setting, path) else Near(change.item, path)
  }

  predicate Claims(path: string, unit: Unit) {
    unit.change.Some? && FromEdit(unit.change.value, path)
  }

  // ----- Groups -----

  /** Places grouped by a key, in the order the keys are first met. */
  function GroupBy(places: seq<nat>, key: nat -> string): seq<(string, seq<nat>)> {
    if places == [] then []
    else
      var less, last := GroupBy(places[..|places| - 1], key), places[|places| - 1];
      var g := Find(less, key(last));
      if g < |less| then less[g := (less[g].0, less[g].1 + [last])] else less + [(key(last), [last])]
  }

  function Find(groups: seq<(string, seq<nat>)>, key: string): (g: nat)
    ensures g <= |groups| && (g < |groups| ==> groups[g].0 == key) && forall h :: 0 <= h < g ==> groups[h].0 != key
  {
    if groups == [] || groups[0].0 == key then 0 else 1 + Find(groups[1..], key)
  }

  /** How many groups hold a place. */
  function GroupsWith(groups: seq<(string, seq<nat>)>, place: nat): nat {
    if groups == [] then 0 else (if place in groups[0].1 then 1 else 0) + GroupsWith(groups[1..], place)
  }

  lemma {:induction false} GroupsAdded(groups: seq<(string, seq<nat>)>, group: (string, seq<nat>), place: nat)
    ensures GroupsWith(groups + [group], place) == GroupsWith(groups, place) + if place in group.1 then 1 else 0
    decreases |groups|
  {
    if groups == [] {
      assert groups + [group] == [group];
    } else {
      assert (groups + [group])[1..] == groups[1..] + [group];
      GroupsAdded(groups[1..], group, place);
    }
  }

  lemma {:induction false} GroupExtended(groups: seq<(string, seq<nat>)>, g: nat, last: nat, place: nat)
    requires g < |groups| && last !in groups[g].1
    ensures GroupsWith(groups[g := (groups[g].0, groups[g].1 + [last])], place) == GroupsWith(groups, place) + if place == last then 1 else 0
    decreases g
  {
    var more := groups[g := (groups[g].0, groups[g].1 + [last])];
    if g == 0 {
      assert more[1..] == groups[1..];
    } else {
      assert more[1..] == groups[1..][g - 1 := (groups[g].0, groups[g].1 + [last])];
      GroupExtended(groups[1..], g - 1, last, place);
    }
  }

  predicate Distinct(places: seq<nat>) {
    forall i, j :: 0 <= i < j < |places| ==> places[i] != places[j]
  }

  lemma {:induction false} GroupMembers(places: seq<nat>, key: nat -> string, g: nat, place: nat)
    requires g < |GroupBy(places, key)| && place in GroupBy(places, key)[g].1
    ensures place in places && key(place) == GroupBy(places, key)[g].0
    decreases |places|
  {
    var less, last := places[..|places| - 1], places[|places| - 1];
    var before := GroupBy(less, key);
    if g < |before| && place in before[g].1 { GroupMembers(less, key, g, place); }
  }

  /** Grouping loses nothing and doubles nothing: each place is in just one group, its key's. */
  lemma {:induction false} GroupedOnce(places: seq<nat>, key: nat -> string, place: nat)
    requires Distinct(places)
    ensures GroupsWith(GroupBy(places, key), place) == if place in places then 1 else 0
    decreases |places|
  {
    if places != [] {
      var less, last := places[..|places| - 1], places[|places| - 1];
      var before := GroupBy(less, key);
      var g := Find(before, key(last));
      GroupedOnce(less, key, place);
      assert places == less + [last];
      if g < |before| {
        if last in before[g].1 { GroupMembers(less, key, g, last); }
        GroupExtended(before, g, last, place);
      } else {
        GroupsAdded(before, (key(last), [last]), place);
      }
    }
  }

  // ----- Items -----

  function Places(units: seq<Unit>, why: Why): (places: seq<nat>)
    ensures forall i: nat :: i in places <==> i < |units| && units[i].why == why
    ensures forall k :: 0 <= k < |places| ==> places[k] < |units|
    ensures Distinct(places)
  {
    PlacesTo(units, why, |units|)
  }

  function PlacesTo(units: seq<Unit>, why: Why, n: nat): (places: seq<nat>)
    requires n <= |units|
    ensures forall i: nat :: i in places <==> i < n && units[i].why == why
    ensures forall k :: 0 <= k < |places| ==> places[k] < n
    ensures Distinct(places)
  {
    if n == 0 then [] else PlacesTo(units, why, n - 1) + if units[n - 1].why == why then [n - 1] else []
  }

  function Claimed(units: seq<Unit>, edited: seq<nat>, path: string): (places: seq<nat>)
    requires forall i :: 0 <= i < |edited| ==> edited[i] < |units|
    ensures forall i: nat :: i in places <==> i in edited && Claims(path, units[i])
  {
    if edited == [] then []
    else (if Claims(path, units[edited[0]]) then [edited[0]] else []) + Claimed(units, edited[1..], path)
  }

  /** What no edit claims. */
  function Unclaimed(units: seq<Unit>, edited: seq<nat>, edits: seq<string>): (places: seq<nat>)
    requires forall i :: 0 <= i < |edited| ==> edited[i] < |units|
    ensures forall i: nat :: i in places <==> i in edited && forall e :: 0 <= e < |edits| ==> !Claims(edits[e], units[i])
  {
    if edited == [] then []
    else
      (if forall e :: 0 <= e < |edits| ==> !Claims(edits[e], units[edited[0]]) then [edited[0]] else [])
      + Unclaimed(units, edited[1..], edits)
  }

  function EditItems(units: seq<Unit>, edited: seq<nat>, edits: seq<string>): seq<Item>
    requires forall i :: 0 <= i < |edited| ==> edited[i] < |units|
  {
    if edits == [] then [] else [Item(Edit, Claimed(units, edited, edits[0]))] + EditItems(units, edited, edits[1..])
  }

  function GroupItems(source: Why, groups: seq<(string, seq<nat>)>): seq<Item> {
    if groups == [] then [] else [Item(source, groups[0].1)] + GroupItems(source, groups[1..])
  }

  /** One item, if it has any change. */
  function Whole(source: Why, places: seq<nat>): seq<Item> {
    if places == [] then [] else [Item(source, places)]
  }

  function UnitAt(units: seq<Unit>, i: nat): Unit {
    if i < |units| then units[i] else Unit("", Unknown, None, "", None)
  }

  function FixKey(units: seq<Unit>): nat -> string {
    (i: nat) => if UnitAt(units, i).fix.Some? then UnitAt(units, i).fix.value else "Fix"
  }

  function LabelKey(units: seq<Unit>): nat -> string {
    (i: nat) => var unit := UnitAt(units, i); if unit.change.Some? && unit.change.value.called.Some? then unit.change.value.called.value else unit.text
  }

  function DeviceKey(units: seq<Unit>): nat -> string {
    (i: nat) => UnitAt(units, i).device
  }

  function Items(units: seq<Unit>, edits: seq<string>): seq<Item> {
    var edited := Places(units, Edit);
    Whole(First, Places(units, First))
    + EditItems(units, edited, edits)
    + Whole(Edit, Unclaimed(units, edited, edits))
    + GroupItems(Fix, GroupBy(Places(units, Fix), FixKey(units)))
    + GroupItems(Update, GroupBy(Places(units, Update), LabelKey(units)))
    + GroupItems(Drift, GroupBy(Places(units, Drift), DeviceKey(units)))
    + GroupItems(Unknown, GroupBy(Places(units, Unknown), DeviceKey(units)))
  }

  // ----- Every change, once -----

  function ItemsWith(items: seq<Item>, place: nat): nat {
    if items == [] then 0 else (if place in items[0].members then 1 else 0) + ItemsWith(items[1..], place)
  }

  lemma {:induction false} WithJoined(a: seq<Item>, b: seq<Item>, place: nat)
    ensures ItemsWith(a + b, place) == ItemsWith(a, place) + ItemsWith(b, place)
    decreases |a|
  {
    if a == [] {
      assert a + b == b;
    } else {
      assert (a + b)[1..] == a[1..] + b;
      WithJoined(a[1..], b, place);
    }
  }

  lemma {:induction false} GroupItemsWith(source: Why, groups: seq<(string, seq<nat>)>, place: nat)
    ensures ItemsWith(GroupItems(source, groups), place) == GroupsWith(groups, place)
    decreases |groups|
  {
    if groups != [] { GroupItemsWith(source, groups[1..], place); }
  }

  /** How many edits claim a change. */
  function ClaimsOn(edits: seq<string>, unit: Unit): nat {
    if edits == [] then 0 else (if Claims(edits[0], unit) then 1 else 0) + ClaimsOn(edits[1..], unit)
  }

  lemma {:induction false} ClaimedOrNot(edits: seq<string>, unit: Unit)
    ensures ClaimsOn(edits, unit) == 0 <==> forall e :: 0 <= e < |edits| ==> !Claims(edits[e], unit)
    decreases |edits|
  {
    if edits != [] {
      ClaimedOrNot(edits[1..], unit);
      assert forall e :: 1 <= e < |edits| ==> edits[e] == edits[1..][e - 1];
      assert forall e :: 0 <= e < |edits| - 1 ==> edits[1..][e] == edits[e + 1];
    }
  }

  lemma {:induction false} EditItemsWith(units: seq<Unit>, edited: seq<nat>, edits: seq<string>, place: nat)
    requires (forall i :: 0 <= i < |edited| ==> edited[i] < |units|) && place < |units|
    ensures ItemsWith(EditItems(units, edited, edits), place) == if place in edited then ClaimsOn(edits, units[place]) else 0
    decreases |edits|
  {
    if edits != [] { EditItemsWith(units, edited, edits[1..], place); }
  }

  lemma {:induction false} GroupsCount(units: seq<Unit>, why: Why, key: nat -> string, place: nat)
    requires place < |units|
    ensures ItemsWith(GroupItems(why, GroupBy(Places(units, why), key)), place) == if units[place].why == why then 1 else 0
  {
    GroupItemsWith(why, GroupBy(Places(units, why), key), place);
    GroupedOnce(Places(units, why), key, place);
  }

  /** Every change on every device is reviewed: in exactly one item, or, one that edits claim, in one
      for each that does. */
  lemma {:induction false} EveryChangeReviewed(units: seq<Unit>, edits: seq<string>, place: nat)
    requires place < |units|
    ensures ItemsWith(Items(units, edits), place)
      == if units[place].why.Edit? && ClaimsOn(edits, units[place]) > 0 then ClaimsOn(edits, units[place]) else 1
  {
    var edited := Places(units, Edit);
    var first, claimed, rest := Whole(First, Places(units, First)), EditItems(units, edited, edits), Whole(Edit, Unclaimed(units, edited, edits));
    var fixes := GroupItems(Fix, GroupBy(Places(units, Fix), FixKey(units)));
    var updates := GroupItems(Update, GroupBy(Places(units, Update), LabelKey(units)));
    var drifted := GroupItems(Drift, GroupBy(Places(units, Drift), DeviceKey(units)));
    var others := GroupItems(Unknown, GroupBy(Places(units, Unknown), DeviceKey(units)));
    SevenJoined(first, claimed, rest, fixes, updates, drifted, others, place);
    WholeWith(First, Places(units, First), place);
    EditsCount(units, edits, place);
    GroupsCount(units, Fix, FixKey(units), place);
    GroupsCount(units, Update, LabelKey(units), place);
    GroupsCount(units, Drift, DeviceKey(units), place);
    GroupsCount(units, Unknown, DeviceKey(units), place);
  }

  lemma {:induction false} EditsCount(units: seq<Unit>, edits: seq<string>, place: nat)
    requires place < |units|
    ensures var edited := Places(units, Edit);
      ItemsWith(EditItems(units, edited, edits), place) + ItemsWith(Whole(Edit, Unclaimed(units, edited, edits)), place)
        == if !units[place].why.Edit? then 0 else if ClaimsOn(edits, units[place]) > 0 then ClaimsOn(edits, units[place]) else 1
  {
    var edited := Places(units, Edit);
    EditItemsWith(units, edited, edits, place);
    ClaimedOrNot(edits, units[place]);
    WholeWith(Edit, Unclaimed(units, edited, edits), place);
  }

  lemma {:induction false} WholeWith(source: Why, places: seq<nat>, place: nat)
    ensures ItemsWith(Whole(source, places), place) == if place in places then 1 else 0
  {
  }

  lemma {:induction false} SevenJoined(
      a: seq<Item>, b: seq<Item>, c: seq<Item>, d: seq<Item>, e: seq<Item>, f: seq<Item>, g: seq<Item>, place: nat)
    ensures ItemsWith(a + b + c + d + e + f + g, place)
      == ItemsWith(a, place) + ItemsWith(b, place) + ItemsWith(c, place) + ItemsWith(d, place)
        + ItemsWith(e, place) + ItemsWith(f, place) + ItemsWith(g, place)
  {
    WithJoined(a, b, place);
    WithJoined(a + b, c, place);
    WithJoined(a + b + c, d, place);
    WithJoined(a + b + c + d, e, place);
    WithJoined(a + b + c + d + e, f, place);
    WithJoined(a + b + c + d + e + f, g, place);
  }
}
