/** When lists merge item by item, and in what order (src/intent/merge.ts, identityOf and mergeLists). */
module MergeItems {
  import opened Wrappers
  import opened IntentMerge
  import opened MergeLaws

  // ----- What tells items apart -----

  /** The text an item has under a field; one with none, or an empty one, is not told by it. */
  function TextAt(item: Json, field: string): Option<string> {
    if item.Obj? && field in item.fields && item.fields[field].Str? && |item.fields[field].text| > 0
    then Some(item.fields[field].text) else None
  }

  predicate EachHas(items: seq<Json>, field: string) {
    forall i :: 0 <= i < |items| ==> TextAt(items[i], field).Some?
  }

  /** No two items with one text there. */
  predicate TextsApart(items: seq<Json>, field: string) {
    forall i, j :: 0 <= i < j < |items| ==> TextAt(items[i], field) != TextAt(items[j], field)
  }

  predicate IsPlain(item: Json) {
    item.Null? || item.Bool? || item.Num? || item.Str?
  }

  predicate EachPlain(items: seq<Json>) {
    forall i :: 0 <= i < |items| ==> IsPlain(items[i])
  }

  predicate ItemsApart(items: seq<Json>) {
    forall i, j :: 0 <= i < j < |items| ==> items[i] != items[j]
  }

  predicate AreApart(items: seq<Json>, id: Identity) {
    match id
    case ByField(field) => EachHas(items, field) && TextsApart(items, field)
    case ByValue => EachPlain(items) && ItemsApart(items)
  }

  /** The most telling field each item has: an id, then a MAC, an SSID, a name; else the item itself. */
  predicate IsMostTelling(items: seq<Json>, id: Identity) {
    var (i, m, s, n) := (EachHas(items, "id"), EachHas(items, "mac"), EachHas(items, "ssid"), EachHas(items, "name"));
    match id
    case ByField(field) =>
      if i then field == "id" else if m then field == "mac" else if s then field == "ssid" else n && field == "name"
    case ByValue => !i && !m && !s && !n
  }

  lemma {:induction false} HasIsFit(items: seq<Json>, field: string)
    ensures AllFit(items, ByField(field)) <==> EachHas(items, field)
  {
    forall i | 0 <= i < |items| ensures Fits(items[i], ByField(field)) <==> TextAt(items[i], field).Some? {
    }
  }

  lemma {:induction false} FieldIsMostTelling(items: seq<Json>, id: Identity)
    ensures IsMostTelling(items, id) <==> FieldFor(items, KEY_FIELDS) == (if id.ByField? then Some(id.field) else None)
  {
    HasIsFit(items, "id");
    HasIsFit(items, "mac");
    HasIsFit(items, "ssid");
    HasIsFit(items, "name");
    assert KEY_FIELDS[1..] == ["mac", "ssid", "name"] && KEY_FIELDS[1..][1..] == ["ssid", "name"] && KEY_FIELDS[1..][1..][1..] == ["name"];
    assert FieldFor(items, ["name"][1..]) == None;
    assert FieldFor(items, KEY_FIELDS[1..][1..]) == if EachHas(items, "ssid") then Some("ssid") else if EachHas(items, "name") then Some("name") else None;
  }

  lemma {:induction false} ToldIsApart(items: seq<Json>, id: Identity)
    ensures Told(items, id) <==> AreApart(items, id)
  {
    if id.ByField? { HasIsFit(items, id.field); }
    if AllFit(items, id) {
      forall i, j | 0 <= i < j < |items|
        ensures Keys(items, id)[i] == Keys(items, id)[j]
          <==> if id.ByField? then TextAt(items[i], id.field) == TextAt(items[j], id.field) else items[i] == items[j]
      {
        assert Fits(items[i], id) && Fits(items[j], id);
      }
    }
  }

  /** Items are told apart by the most telling key every one of them has, if no list tells one twice. */
  lemma {:induction false} IdentityIs(base: seq<Json>, mine: seq<Json>, theirs: seq<Json>, id: Identity)
    ensures IdentityOf(base, mine, theirs) == Some(id)
      <==> IsMostTelling(base + mine + theirs, id) && AreApart(base, id) && AreApart(mine, id) && AreApart(theirs, id)
  {
    var all := base + mine + theirs;
    FieldIsMostTelling(all, id);
    ToldIsApart(base, id);
    ToldIsApart(mine, id);
    ToldIsApart(theirs, id);
    if AllFit(base, id) && AllFit(mine, id) && AllFit(theirs, id) {
      assert AllFit(all, id);
    }
  }

  // ----- Order -----

  /** What two lists both hold stands in one order in both. */
  ghost predicate SameOrder(a: seq<Json>, b: seq<Json>) {
    forall i, j, p, q | 0 <= i < j < |a| && 0 <= p < |b| && 0 <= q < |b| && a[i] == b[p] && a[j] == b[q] :: p < q
  }

  lemma {:induction false} OrderHolds(items: seq<Json>, a: seq<Json>, b: seq<Json>, x: Json)
    ensures x in Order(items, a, b) <==> x in items && x in a && x in b
    decreases |items|
  {
    if items != [] { OrderHolds(items[1..], a, b, x); }
  }

  lemma {:induction false} OrderDistinct(items: seq<Json>, a: seq<Json>, b: seq<Json>)
    requires Distinct(items)
    ensures Distinct(Order(items, a, b))
    decreases |items|
  {
    if items != [] {
      OrderDistinct(items[1..], a, b);
      OrderHolds(items[1..], a, b, items[0]);
    }
  }

  /** Two keys kept stand as they stood. */
  lemma {:induction false} OrderKeeps(items: seq<Json>, a: seq<Json>, b: seq<Json>, i: nat, j: nat) returns (u: nat, v: nat)
    requires i < j < |items| && items[i] in a && items[i] in b && items[j] in a && items[j] in b
    ensures u < v < |Order(items, a, b)| && Order(items, a, b)[u] == items[i] && Order(items, a, b)[v] == items[j]
    decreases |items|
  {
    var rest := Order(items[1..], a, b);
    if i == 0 {
      OrderHolds(items[1..], a, b, items[j]);
      assert items[1..][j - 1] == items[j];
      var w :| 0 <= w < |rest| && rest[w] == items[j];
      u, v := 0, w + 1;
    } else {
      var x, y := OrderKeeps(items[1..], a, b, i - 1, j - 1);
      var n := |Order(items, a, b)| - |rest|;
      u, v := x + n, y + n;
    }
  }

  lemma {:induction false} SameOrderIfEqual(a: seq<Json>, b: seq<Json>)
    requires Distinct(a) && Distinct(b) && Order(a, a, b) == Order(b, a, b)
    ensures SameOrder(a, b)
  {
    forall i, j, p, q | 0 <= i < j < |a| && 0 <= p < |b| && 0 <= q < |b| && a[i] == b[p] && a[j] == b[q]
      ensures p < q
    {
      if q < p {
        var u, v := OrderKeeps(a, a, b, i, j);
        var x, y := OrderKeeps(b, a, b, q, p);
        OrderDistinct(a, a, b);
      }
    }
  }

  lemma {:induction false} OneFirst(x: seq<Json>, y: seq<Json>)
    requires x != [] && y != [] && x[0] in y && y[0] in x && SameOrder(x, y)
    ensures x[0] == y[0]
  {
    var p :| 0 <= p < |y| && y[p] == x[0];
    var i :| 0 <= i < |x| && x[i] == y[0];
  }

  lemma {:induction false} TailsOrder(x: seq<Json>, y: seq<Json>)
    requires x != [] && y != [] && SameOrder(x, y) && Distinct(x) && Distinct(y)
    ensures SameOrder(x[1..], y[1..]) && Distinct(x[1..]) && Distinct(y[1..])
  {
    var (a, b) := (x[1..], y[1..]);
    forall i, j, p, q | 0 <= i < j < |a| && 0 <= p < |b| && 0 <= q < |b| && a[i] == b[p] && a[j] == b[q] ensures p < q {
      assert x[i + 1] == y[p + 1] && x[j + 1] == y[q + 1];
    }
  }

  /** Two lists of the same keys, none twice and none the other way round, are one. */
  lemma {:induction false} OneOrder(x: seq<Json>, y: seq<Json>)
    requires Distinct(x) && Distinct(y) && SameOrder(x, y)
    requires forall key :: key in x <==> key in y
    ensures x == y
    decreases |x|
  {
    if x != [] {
      assert x[0] in y;
      assert y[0] in x;
      OneFirst(x, y);
      TailsOrder(x, y);
      forall key ensures key in x[1..] <==> key in y[1..] { InTail(x, key); InTail(y, key); }
      OneOrder(x[1..], y[1..]);
      assert x == [x[0]] + x[1..] && y == [y[0]] + y[1..];
    } else if y != [] {
      HoldsOne(y);
    }
  }

  lemma {:induction false} HoldsOne(y: seq<Json>)
    requires y != []
    ensures exists key :: key in y
  {
    assert y[0] in y;
  }

  lemma {:induction false} InTail(x: seq<Json>, key: Json)
    requires x != [] && Distinct(x)
    ensures key in x[1..] <==> key in x && key != x[0]
  {
    if key in x && key != x[0] {
      var i :| 0 <= i < |x| && x[i] == key;
      assert x[1..][i - 1] == key;
    }
  }

  /** What is kept stood in this order. */
  lemma {:induction false} OrderFrom(items: seq<Json>, a: seq<Json>, b: seq<Json>, u: nat, v: nat) returns (i: nat, j: nat)
    requires u < v < |Order(items, a, b)|
    ensures i < j < |items| && items[i] == Order(items, a, b)[u] && items[j] == Order(items, a, b)[v]
    decreases |items|
  {
    var rest := Order(items[1..], a, b);
    var n := |Order(items, a, b)| - |rest|;
    if u < n {
      i := 0;
      var y := Order(items, a, b)[v];
      OrderHolds(items[1..], a, b, y);
      assert rest[v - n] == y;
      j :| 0 < j < |items| && items[1..][j - 1] == y;
    } else {
      var x, y := OrderFrom(items[1..], a, b, u - n, v - n);
      i, j := x + 1, y + 1;
    }
  }

  lemma {:induction false} EqualIfSameOrder(a: seq<Json>, b: seq<Json>)
    requires Distinct(a) && Distinct(b) && SameOrder(a, b)
    ensures Order(a, a, b) == Order(b, a, b)
  {
    var x, y := Order(a, a, b), Order(b, a, b);
    OrderDistinct(a, a, b);
    OrderDistinct(b, a, b);
    forall key ensures key in x <==> key in y { OrderHolds(a, a, b, key); OrderHolds(b, a, b, key); }
    forall u, v, p, q | 0 <= u < v < |x| && 0 <= p < |y| && 0 <= q < |y| && x[u] == y[p] && x[v] == y[q]
      ensures p < q
    {
      if q < p {
        var i, j := OrderFrom(a, a, b, u, v);
        var k, l := OrderFrom(b, a, b, q, p);
      }
    }
    OneOrder(x, y);
  }

  // ----- Exactly when lists merge item by item -----

  /** No item is gone on one side and changed on the other. */
  ghost predicate NoneLost(b: seq<Json>, m: seq<Json>, t: seq<Json>, id: Identity)
    requires AllFit(b, id) && AllFit(m, id) && AllFit(t, id)
  {
    forall key | Get(b, key, id).Some? ::
      && (Get(m, key, id).None? ==> Get(t, key, id).None? || Get(t, key, id) == Get(b, key, id))
      && (Get(t, key, id).None? ==> Get(m, key, id).None? || Get(m, key, id) == Get(b, key, id))
  }

  lemma {:induction false} ClashIs(b: seq<Json>, m: seq<Json>, t: seq<Json>, id: Identity)
    requires AllFit(b, id) && AllFit(m, id) && AllFit(t, id)
    ensures Clash(b, m, t, id) <==> !NoneLost(b, m, t, id)
  {
    if !NoneLost(b, m, t, id) {
      var key :| Get(b, key, id).Some?
        && !(&& (Get(m, key, id).None? ==> Get(t, key, id).None? || Get(t, key, id) == Get(b, key, id))
             && (Get(t, key, id).None? ==> Get(m, key, id).None? || Get(m, key, id) == Get(b, key, id)));
      var i :| 0 <= i < |b| && Keys(b, id)[i] == key;
      assert Key(b[i], id) == key;
    }
    if Clash(b, m, t, id) {
      var i :| 0 <= i < |b| &&
        var key := Key(b[i], id);
        var (x, y, z) := (Get(b, key, id), Get(m, key, id), Get(t, key, id));
        (y.None? && z.Some? && z != x) || (z.None? && y.Some? && y != x);
      KeyAt(b, i, id);
    }
  }

  /** Lists merge item by item just when their items are told apart, none is gone on one side and
      changed on the other, and mine moved none. */
  lemma {:induction false} ByItemIsExact(b: seq<Json>, m: seq<Json>, t: seq<Json>)
    ensures ByItem(b, m, t) <==>
      var id := IdentityOf(b, m, t);
      id.Some? && NoneLost(b, m, t, id.value) && SameOrder(Keys(b, id.value), Keys(m, id.value))
  {
    var id := IdentityOf(b, m, t);
    if id.Some? {
      ClashIs(b, m, t, id.value);
      var x, y := Keys(b, id.value), Keys(m, id.value);
      if Order(x, x, y) == Order(y, x, y) { SameOrderIfEqual(x, y); }
      if SameOrder(x, y) { EqualIfSameOrder(x, y); }
    }
  }

  // ----- In what order -----

  /** Some of a list's items, as they stand in it. */
  predicate IsPart(part: seq<Json>, items: seq<Json>) {
    if part == [] then true
    else items != [] && ((part[0] == items[0] && IsPart(part[1..], items[1..])) || IsPart(part, items[1..]))
  }

  lemma {:induction false} PartOfMore(part: seq<Json>, first: Json, items: seq<Json>)
    requires IsPart(part, items)
    ensures IsPart(part, [first] + items) && IsPart([first] + part, [first] + items)
  {
    assert ([first] + items)[1..] == items && ([first] + part)[1..] == part;
  }

  lemma {:induction false} PartIn(part: seq<Json>, items: seq<Json>, v: nat) returns (j: nat)
    requires IsPart(part, items) && v < |part|
    ensures j < |items| && items[j] == part[v]
    decreases |items|
  {
    if part[0] == items[0] && IsPart(part[1..], items[1..]) {
      if v == 0 {
        j := 0;
      } else {
        var y := PartIn(part[1..], items[1..], v - 1);
        j := y + 1;
      }
    } else {
      var y := PartIn(part, items[1..], v);
      j := y + 1;
    }
  }

  lemma {:induction false} PartInOrder(part: seq<Json>, items: seq<Json>, u: nat, v: nat) returns (i: nat, j: nat)
    requires IsPart(part, items) && u < v < |part|
    ensures i < j < |items| && items[i] == part[u] && items[j] == part[v]
    decreases |items|
  {
    if part[0] == items[0] && IsPart(part[1..], items[1..]) {
      if u == 0 {
        var y := PartIn(part[1..], items[1..], v - 1);
        i, j := 0, y + 1;
      } else {
        var x, y := PartInOrder(part[1..], items[1..], u - 1, v - 1);
        i, j := x + 1, y + 1;
      }
    } else {
      var x, y := PartInOrder(part, items[1..], u, v);
      i, j := x + 1, y + 1;
    }
  }

  lemma {:induction false} KeptIsPart(t: seq<Json>, b: seq<Json>, m: seq<Json>, id: Identity)
    requires AllFit(b, id) && AllFit(m, id) && AllFit(t, id)
    ensures IsPart(Kept(t, b, m, id), t)
    decreases |t|
  {
    if t != [] {
      var first, rest := t[0], Kept(t[1..], b, m, id);
      KeptIsPart(t[1..], b, m, id);
      PartOfMore(rest, first, t[1..]);
      assert t == [first] + t[1..];
      assert Kept(t, b, m, id) == rest || Kept(t, b, m, id) == [first] + rest;
    }
  }

  lemma {:induction false} AddedIsPart(m: seq<Json>, b: seq<Json>, t: seq<Json>, id: Identity)
    requires AllFit(b, id) && AllFit(m, id) && AllFit(t, id)
    ensures IsPart(Added(m, b, t, id), m)
    decreases |m|
  {
    if m != [] {
      var first, rest := m[0], Added(m[1..], b, t, id);
      AddedIsPart(m[1..], b, t, id);
      PartOfMore(rest, first, m[1..]);
      assert m == [first] + m[1..];
      assert Added(m, b, t, id) == rest || Added(m, b, t, id) == [first] + rest;
    }
  }

  /** One item stands before another in a list. */
  ghost predicate Before(items: seq<Json>, x: Json, y: Json, id: Identity)
    requires AllFit(items, id)
  {
    exists p, q :: 0 <= p < q < |items| && Key(items[p], id) == x && Key(items[q], id) == y
  }

  lemma {:induction false} PartBefore(part: seq<Json>, items: seq<Json>, id: Identity, u: nat, v: nat)
    requires AllFit(items, id) && IsPart(part, items) && u < v < |part| && Fits(part[u], id) && Fits(part[v], id)
    ensures Before(items, Key(part[u], id), Key(part[v], id), id)
  {
    var p, q := PartInOrder(part, items, u, v);
  }

  lemma {:induction false} KeptHas(t: seq<Json>, b: seq<Json>, m: seq<Json>, id: Identity, k: nat)
    requires AllFit(b, id) && AllFit(m, id) && AllFit(t, id) && k < |Kept(t, b, m, id)|
    ensures Fits(Kept(t, b, m, id)[k], id) && Get(t, Key(Kept(t, b, m, id)[k], id), id).Some?
  {
    var p :| 0 <= p < |t| && t[p] == Kept(t, b, m, id)[k];
    KeyAt(t, p, id);
  }

  /** An item of the merged list is one of theirs that stay, under its key, or one only mine added. */
  lemma {:induction false} MergedAt(b: seq<Json>, m: seq<Json>, t: seq<Json>, id: Identity, i: nat)
    requires AllFit(b, id) && AllFit(m, id) && AllFit(t, id) && i < |MergedItems(b, m, t, id)|
    ensures |MergedItems(b, m, t, id)| == |Kept(t, b, m, id)| + |Added(m, b, t, id)|
    ensures AllFit(Kept(t, b, m, id), id) && AllFit(Added(m, b, t, id), id) && Fits(MergedItems(b, m, t, id)[i], id)
    ensures Key(MergedItems(b, m, t, id)[i], id)
      == if i < |Kept(t, b, m, id)| then Key(Kept(t, b, m, id)[i], id) else Key(Added(m, b, t, id)[i - |Kept(t, b, m, id)|], id)
  {
    PickedFit(t, b, m, id);
    PickedFit(m, b, t, id);
    if i < |Kept(t, b, m, id)| { ItemFits(b, m, Kept(t, b, m, id)[i], id); }
  }

  lemma {:induction false} KeptOrder(b: seq<Json>, m: seq<Json>, t: seq<Json>, id: Identity, i: nat, j: nat)
    requires AllFit(b, id) && AllFit(m, id) && AllFit(t, id)
    requires AllFit(Kept(t, b, m, id), id) && i < j < |Kept(t, b, m, id)|
    ensures Before(t, Key(Kept(t, b, m, id)[i], id), Key(Kept(t, b, m, id)[j], id), id)
  {
    KeptIsPart(t, b, m, id);
    PartBefore(Kept(t, b, m, id), t, id, i, j);
  }

  lemma {:induction false} AddedOrder(b: seq<Json>, m: seq<Json>, t: seq<Json>, id: Identity, i: nat, j: nat)
    requires AllFit(b, id) && AllFit(m, id) && AllFit(t, id)
    requires AllFit(Added(m, b, t, id), id) && i < j < |Added(m, b, t, id)|
    ensures Before(m, Key(Added(m, b, t, id)[i], id), Key(Added(m, b, t, id)[j], id), id)
  {
    AddedIsPart(m, b, t, id);
    PartBefore(Added(m, b, t, id), m, id, i, j);
  }

  lemma {:induction false} KeptThen(b: seq<Json>, m: seq<Json>, t: seq<Json>, id: Identity, i: nat, j: nat, x: Json, y: Json)
    requires AllFit(b, id) && AllFit(m, id) && AllFit(t, id) && AllFit(Kept(t, b, m, id), id)
    requires i < j < |Kept(t, b, m, id)| && x == Key(Kept(t, b, m, id)[i], id) && y == Key(Kept(t, b, m, id)[j], id)
    ensures Get(t, y, id).Some? && Before(t, x, y, id)
  {
    KeptOrder(b, m, t, id, i, j);
    KeptHas(t, b, m, id, j);
  }

  lemma {:induction false} AddedThen(b: seq<Json>, m: seq<Json>, t: seq<Json>, id: Identity, i: nat, j: nat, x: Json, y: Json)
    requires AllFit(b, id) && AllFit(m, id) && AllFit(t, id) && AllFit(Added(m, b, t, id), id)
    requires i < j < |Added(m, b, t, id)| && x == Key(Added(m, b, t, id)[i], id) && y == Key(Added(m, b, t, id)[j], id)
    ensures Get(t, y, id).None? && Before(m, x, y, id)
  {
    AddedOrder(b, m, t, id, i, j);
    AddedIsNew(m, b, t, id, j);
  }

  lemma {:induction false} KeptThenAdded(b: seq<Json>, m: seq<Json>, t: seq<Json>, id: Identity, i: nat, j: nat, x: Json, y: Json)
    requires AllFit(b, id) && AllFit(m, id) && AllFit(t, id) && AllFit(Kept(t, b, m, id), id) && AllFit(Added(m, b, t, id), id)
    requires i < |Kept(t, b, m, id)| && j < |Added(m, b, t, id)| && x == Key(Kept(t, b, m, id)[i], id) && y == Key(Added(m, b, t, id)[j], id)
    ensures Get(t, x, id).Some? && Get(t, y, id).None?
  {
    KeptHas(t, b, m, id, i);
    AddedIsNew(m, b, t, id, j);
  }

  /** A merged list stands in their order, and what only mine added comes after, in mine's. */
  lemma {:induction false} MergedOrder(b: seq<Json>, m: seq<Json>, t: seq<Json>, id: Identity, i: nat, j: nat, x: Json, y: Json)
    requires AllFit(b, id) && AllFit(m, id) && AllFit(t, id) && AllFit(MergedItems(b, m, t, id), id)
    requires i < j < |MergedItems(b, m, t, id)| && x == Key(MergedItems(b, m, t, id)[i], id) && y == Key(MergedItems(b, m, t, id)[j], id)
    ensures if Get(t, y, id).Some? then Before(t, x, y, id) else Get(t, x, id).Some? || Before(m, x, y, id)
  {
    var kept := |Kept(t, b, m, id)|;
    MergedAt(b, m, t, id, i);
    MergedAt(b, m, t, id, j);
    if j < kept {
      KeptThen(b, m, t, id, i, j, x, y);
    } else if i < kept {
      KeptThenAdded(b, m, t, id, i, j - kept, x, y);
    } else {
      AddedThen(b, m, t, id, i - kept, j - kept, x, y);
    }
  }
}
