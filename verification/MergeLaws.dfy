/** What a three-way merge promises (src/intent/merge.ts): a change made on one side alone is never
    lost unless a conflict is reported over it, a merged list holds exactly the items it should, and
    without lists a merge that finds no conflict favours neither side. */
module MergeLaws {
  import opened Wrappers
  import opened Text
  import opened IntentMerge

  // ----- Along a path of keys -----

  function At(value: Option<Json>, path: Path): Option<Json>
    decreases |path|
  {
    if path == [] then value
    else if value.None? || !value.value.Obj? then None
    else At(Field(value.value.fields, path[0]), path[1..])
  }

  /** No conflict is reported at a path or above it. */
  predicate Settled(merged: Merged, path: Path) {
    forall n :: 0 <= n <= |path| ==> path[..n] !in merged.conflicts
  }

  /** A value one side left as it was is the other side's, unless a conflict covers it. */
  lemma {:induction false} ChangesSurvive(base: Option<Json>, mine: Option<Json>, theirs: Option<Json>, path: Path)
    requires Settled(Merge(base, mine, theirs), path)
    ensures At(mine, path) == At(base, path) ==> At(Merge(base, mine, theirs).value, path) == At(theirs, path)
    ensures At(theirs, path) == At(base, path) ==> At(Merge(base, mine, theirs).value, path) == At(mine, path)
    decreases |path|
  {
    assert path[..0] == [];
    if mine != base && theirs != base && mine != theirs && path != [] && AllObjects(base, mine, theirs) {
      var key := path[0];
      var (b, m, t) := (base.value.fields, mine.value.fields, theirs.value.fields);
      if key in t.Keys + m.Keys {
        forall n | 0 <= n <= |path| - 1
          ensures path[1..][..n] !in Merge(Field(b, key), Field(m, key), Field(t, key)).conflicts
        {
          assert [key] + path[1..][..n] == path[..n + 1];
          PartConflicts(base, mine, theirs, key, path[1..][..n]);
        }
        ChangesSurvive(Field(b, key), Field(m, key), Field(t, key), path[1..]);
      }
    }
  }

  /** An object's conflicts are its parts', under their keys. */
  lemma {:induction false} PartConflicts(base: Option<Json>, mine: Option<Json>, theirs: Option<Json>, key: string, path: Path)
    requires mine != base && theirs != base && mine != theirs && AllObjects(base, mine, theirs)
    requires key in theirs.value.fields.Keys + mine.value.fields.Keys
    ensures path in Merge(Field(base.value.fields, key), Field(mine.value.fields, key), Field(theirs.value.fields, key)).conflicts
      ==> [key] + path in Merge(base, mine, theirs).conflicts
  {
  }

  // ----- Neither side favoured -----

  predicate ListFree(value: Json) {
    match value
    case Arr(_) => false
    case Obj(fields) => forall key :: key in fields ==> ListFree(fields[key])
    case _ => true
  }

  predicate NoLists(value: Option<Json>) {
    value.Some? ==> ListFree(value.value)
  }

  lemma {:induction false} MergeIsSymmetric(base: Option<Json>, mine: Option<Json>, theirs: Option<Json>)
    requires NoLists(base) && NoLists(mine) && NoLists(theirs)
    requires Merge(base, mine, theirs).conflicts == {}
    ensures Merge(base, theirs, mine) == Merge(base, mine, theirs)
    decreases theirs.Some?, if theirs.Some? then theirs.value else Null
  {
    if mine != base && theirs != base && mine != theirs && AllObjects(base, mine, theirs) {
      var (b, m, t) := (base.value.fields, mine.value.fields, theirs.value.fields);
      forall key | key in t.Keys + m.Keys
        ensures Merge(Field(b, key), Field(m, key), Field(t, key)).conflicts == {}
        ensures Merge(Field(b, key), Field(t, key), Field(m, key)) == Merge(Field(b, key), Field(m, key), Field(t, key))
      {
        NoPartConflicts(base, mine, theirs, key);
        MergeIsSymmetric(Field(b, key), Field(m, key), Field(t, key));
      }
      assert t.Keys + m.Keys == m.Keys + t.Keys;
      SameParts(base, mine, theirs);
    }
  }

  lemma {:induction false} NoPartConflicts(base: Option<Json>, mine: Option<Json>, theirs: Option<Json>, key: string)
    requires mine != base && theirs != base && mine != theirs && AllObjects(base, mine, theirs)
    requires key in theirs.value.fields.Keys + mine.value.fields.Keys
    requires Merge(base, mine, theirs).conflicts == {}
    ensures Merge(Field(base.value.fields, key), Field(mine.value.fields, key), Field(theirs.value.fields, key)).conflicts == {}
  {
    forall path
      ensures path !in Merge(Field(base.value.fields, key), Field(mine.value.fields, key), Field(theirs.value.fields, key)).conflicts
    {
      PartConflicts(base, mine, theirs, key, path);
    }
  }

  /** Objects whose every part merges alike, and without conflict, merge alike. */
  lemma {:induction false} SameParts(base: Option<Json>, mine: Option<Json>, theirs: Option<Json>)
    requires mine != base && theirs != base && mine != theirs && AllObjects(base, mine, theirs)
    requires forall key :: key in theirs.value.fields.Keys + mine.value.fields.Keys ==>
      var (b, m, t) := (Field(base.value.fields, key), Field(mine.value.fields, key), Field(theirs.value.fields, key));
      Merge(b, t, m) == Merge(b, m, t) && Merge(b, m, t).conflicts == {}
    ensures Merge(base, theirs, mine) == Merge(base, mine, theirs)
  {
    var one, two := Parts(base, mine, theirs), Parts(base, theirs, mine);
    assert one == two;
    assert Conflicts(one) == {};
  }

  // ----- Lists, item by item -----

  /** What a merged list holds of a key: both sides' items merged, or the one that either side added. */
  function Expected(b: seq<Json>, m: seq<Json>, t: seq<Json>, key: Json, id: Identity): Option<Json>
    requires AllFit(b, id) && AllFit(m, id) && AllFit(t, id)
  {
    var (was, mine, theirs) := (Get(b, key, id), Get(m, key, id), Get(t, key, id));
    if mine.Some? && theirs.Some? then Merge(was, mine, theirs).value
    else if was.Some? then None
    else if theirs.Some? then theirs
    else mine
  }

  predicate HasKey(item: Option<Json>, key: Json, id: Identity) {
    item.Some? ==> Fits(item.value, id) && Key(item.value, id) == key
  }

  /** An item merged is still the item it was. */
  lemma {:induction false} MergeKeepsKey(base: Option<Json>, mine: Option<Json>, theirs: Option<Json>, key: Json, id: Identity)
    requires mine.Some? && theirs.Some?
    requires HasKey(base, key, id) && HasKey(mine, key, id) && HasKey(theirs, key, id)
    ensures HasKey(Merge(base, mine, theirs).value, key, id)
  {
    if mine != base && theirs != base && mine != theirs && AllObjects(base, mine, theirs) {
      var (b, m, t) := (base.value.fields, mine.value.fields, theirs.value.fields);
      assert id.ByField?;
      assert Merge(Field(b, id.field), Field(m, id.field), Field(t, id.field)).value == Some(key);
    }
  }

  lemma {:induction false} PickedFit(t: seq<Json>, b: seq<Json>, m: seq<Json>, id: Identity)
    requires AllFit(b, id) && AllFit(m, id) && AllFit(t, id)
    ensures AllFit(Kept(t, b, m, id), id) && AllFit(Added(t, b, m, id), id)
    decreases |t|
  {
    if t != [] { PickedFit(t[1..], b, m, id); }
  }

  lemma {:induction false} KeptGets(t: seq<Json>, b: seq<Json>, m: seq<Json>, key: Json, id: Identity)
    requires AllFit(b, id) && AllFit(m, id) && AllFit(t, id) && AllFit(Kept(t, b, m, id), id)
    ensures Get(Kept(t, b, m, id), key, id) == if Get(m, key, id).Some? || Get(b, key, id).None? then Get(t, key, id) else None
    decreases |t|
  {
    if t != [] {
      var first, rest := t[0], Kept(t[1..], b, m, id);
      PickedFit(t[1..], b, m, id);
      KeptGets(t[1..], b, m, key, id);
      if Get(m, Key(first, id), id).Some? || Get(b, Key(first, id), id).None? {
        assert Kept(t, b, m, id) == [first] + rest && ([first] + rest)[1..] == rest;
      } else {
        assert Kept(t, b, m, id) == rest;
      }
    }
  }

  lemma {:induction false} AddedGets(m: seq<Json>, b: seq<Json>, t: seq<Json>, key: Json, id: Identity)
    requires AllFit(b, id) && AllFit(m, id) && AllFit(t, id) && AllFit(Added(m, b, t, id), id)
    ensures Get(Added(m, b, t, id), key, id) == if Get(t, key, id).None? && Get(b, key, id).None? then Get(m, key, id) else None
    decreases |m|
  {
    if m != [] {
      var first, rest := m[0], Added(m[1..], b, t, id);
      PickedFit(m[1..], b, t, id);
      AddedGets(m[1..], b, t, key, id);
      if Get(t, Key(first, id), id).None? && Get(b, Key(first, id), id).None? {
        assert Added(m, b, t, id) == [first] + rest && ([first] + rest)[1..] == rest;
      } else {
        assert Added(m, b, t, id) == rest;
      }
    }
  }

  function Items(b: seq<Json>, m: seq<Json>, kept: seq<Json>, id: Identity): seq<Json>
    requires AllFit(b, id) && AllFit(m, id) && AllFit(kept, id)
  {
    seq(|kept|, i requires 0 <= i < |kept| => MergeItem(b, m, kept[i], id).value.value)
  }

  lemma {:induction false} ItemFits(b: seq<Json>, m: seq<Json>, item: Json, id: Identity)
    requires AllFit(b, id) && AllFit(m, id) && Fits(item, id)
    ensures HasKey(MergeItem(b, m, item, id).value, Key(item, id), id)
  {
    var key := Key(item, id);
    if Get(m, key, id).Some? {
      GotFits(m, key, id);
      GotFits(b, key, id);
      MergeKeepsKey(Get(b, key, id), Get(m, key, id), Some(item), key, id);
    }
  }

  lemma {:induction false} GotFits(items: seq<Json>, key: Json, id: Identity)
    requires AllFit(items, id)
    ensures HasKey(Get(items, key, id), key, id)
  {
  }

  lemma {:induction false} ItemsGet(b: seq<Json>, m: seq<Json>, kept: seq<Json>, key: Json, id: Identity)
    requires AllFit(b, id) && AllFit(m, id) && AllFit(kept, id)
    ensures AllFit(Items(b, m, kept, id), id) && Keys(Items(b, m, kept, id), id) == Keys(kept, id)
    ensures Get(Items(b, m, kept, id), key, id)
      == if Get(kept, key, id).Some? then MergeItem(b, m, Get(kept, key, id).value, id).value else None
    decreases |kept|
  {
    forall i | 0 <= i < |kept| ensures HasKey(Some(Items(b, m, kept, id)[i]), Key(kept[i], id), id) { ItemFits(b, m, kept[i], id); }
    if kept != [] {
      ItemsGet(b, m, kept[1..], key, id);
      assert Items(b, m, kept, id)[1..] == Items(b, m, kept[1..], id);
    }
  }

  lemma {:induction false} JoinedGets(a: seq<Json>, b: seq<Json>, key: Json, id: Identity)
    requires AllFit(a, id) && AllFit(b, id)
    ensures AllFit(a + b, id)
    ensures Get(a + b, key, id) == if Get(a, key, id).Some? then Get(a, key, id) else Get(b, key, id)
    decreases |a|
  {
    if a == [] {
      assert a + b == b;
    } else {
      assert (a + b)[1..] == a[1..] + b;
      JoinedGets(a[1..], b, key, id);
    }
  }

  /** A list merged item by item. */
  function MergedItems(b: seq<Json>, m: seq<Json>, t: seq<Json>, id: Identity): seq<Json>
    requires AllFit(b, id) && AllFit(m, id) && AllFit(t, id)
  {
    PickedFit(t, b, m, id);
    Items(b, m, Kept(t, b, m, id), id) + Added(m, b, t, id)
  }

  lemma {:induction false} MergedItemsGet(b: seq<Json>, m: seq<Json>, t: seq<Json>, key: Json, id: Identity)
    requires AllFit(b, id) && AllFit(m, id) && AllFit(t, id)
    ensures AllFit(MergedItems(b, m, t, id), id)
    ensures Get(MergedItems(b, m, t, id), key, id) == Expected(b, m, t, key, id)
  {
    var items, added := Items(b, m, Kept(t, b, m, id), id), Added(m, b, t, id);
    PickedFit(m, b, t, id);
    AddedGets(m, b, t, key, id);
    KeptItemsGet(b, m, t, key, id);
    JoinedGets(items, added, key, id);
  }

  lemma {:induction false} KeptItemsGet(b: seq<Json>, m: seq<Json>, t: seq<Json>, key: Json, id: Identity)
    requires AllFit(b, id) && AllFit(m, id) && AllFit(t, id) && AllFit(Kept(t, b, m, id), id)
    ensures AllFit(Items(b, m, Kept(t, b, m, id), id), id)
    ensures Get(Items(b, m, Kept(t, b, m, id), id), key, id) == if Get(t, key, id).Some? then Expected(b, m, t, key, id) else None
  {
    KeptGets(t, b, m, key, id);
    ItemsGet(b, m, Kept(t, b, m, id), key, id);
    if Get(Kept(t, b, m, id), key, id).Some? {
      GotFits(t, key, id);
    }
  }

  // ----- No item twice -----

  lemma {:induction false} KeyAt(items: seq<Json>, i: nat, id: Identity)
    requires AllFit(items, id) && i < |items|
    ensures Get(items, Key(items[i], id), id).Some?
  {
    assert Keys(items, id)[i] == Key(items[i], id);
  }

  lemma {:induction false} AddedIsNew(m: seq<Json>, b: seq<Json>, t: seq<Json>, id: Identity, k: nat)
    requires AllFit(b, id) && AllFit(m, id) && AllFit(t, id) && k < |Added(m, b, t, id)|
    ensures Fits(Added(m, b, t, id)[k], id)
    ensures var key := Key(Added(m, b, t, id)[k], id); Get(b, key, id).None? && Get(t, key, id).None?
  {
    PickedFit(m, b, t, id);
    var item := Added(m, b, t, id)[k];
    KeyAt(Added(m, b, t, id), k, id);
    AddedGets(m, b, t, Key(item, id), id);
  }

  /** A list with a key first told stays told apart as long as the key is new. */
  lemma {:induction false} ToldWith(first: Json, rest: seq<Json>, id: Identity)
    requires Fits(first, id) && Told(rest, id) && Get(rest, Key(first, id), id).None?
    ensures Told([first] + rest, id)
  {
    var all := [first] + rest;
    forall i, j | 0 <= i < j < |all| ensures Keys(all, id)[i] != Keys(all, id)[j] {
      assert Keys(all, id)[j] == Keys(rest, id)[j - 1];
      if i > 0 { assert Keys(all, id)[i] == Keys(rest, id)[i - 1]; }
    }
  }

  lemma {:induction false} ToldRest(items: seq<Json>, id: Identity)
    requires Told(items, id) && items != []
    ensures Told(items[1..], id) && Get(items[1..], Key(items[0], id), id).None?
  {
    assert forall i :: 0 <= i < |items| - 1 ==> Keys(items[1..], id)[i] == Keys(items, id)[i + 1];
    assert Keys(items, id)[0] == Key(items[0], id);
  }

  lemma {:induction false} KeptTold(t: seq<Json>, b: seq<Json>, m: seq<Json>, id: Identity)
    requires AllFit(b, id) && AllFit(m, id) && Told(t, id)
    ensures Told(Kept(t, b, m, id), id)
    decreases |t|
  {
    if t != [] {
      var first, rest := t[0], Kept(t[1..], b, m, id);
      ToldRest(t, id);
      KeptTold(t[1..], b, m, id);
      KeptGets(t[1..], b, m, Key(first, id), id);
      ToldWith(first, rest, id);
      assert Kept(t, b, m, id) == rest || Kept(t, b, m, id) == [first] + rest;
    }
  }

  lemma {:induction false} AddedTold(m: seq<Json>, b: seq<Json>, t: seq<Json>, id: Identity)
    requires AllFit(b, id) && AllFit(t, id) && Told(m, id)
    ensures Told(Added(m, b, t, id), id)
    decreases |m|
  {
    if m != [] {
      var first, rest := m[0], Added(m[1..], b, t, id);
      ToldRest(m, id);
      AddedTold(m[1..], b, t, id);
      AddedGets(m[1..], b, t, Key(first, id), id);
      ToldWith(first, rest, id);
      assert Added(m, b, t, id) == rest || Added(m, b, t, id) == [first] + rest;
    }
  }

  lemma {:induction false} ToldJoined(a: seq<Json>, b: seq<Json>, id: Identity)
    requires Told(a, id) && Told(b, id)
    requires forall key :: Get(a, key, id).None? || Get(b, key, id).None?
    ensures Told(a + b, id)
    decreases |a|
  {
    if a == [] {
      assert a + b == b;
    } else {
      ToldRest(a, id);
      assert a == [a[0]] + a[1..] && a + b == [a[0]] + (a[1..] + b);
      forall key ensures Get(a[1..], key, id).None? || Get(b, key, id).None? { JoinedGets([a[0]], a[1..], key, id); }
      ToldJoined(a[1..], b, id);
      JoinedGets(a[1..], b, Key(a[0], id), id);
      KeyAt(a, 0, id);
      ToldWith(a[0], a[1..] + b, id);
    }
  }

  lemma {:induction false} MergedItemsTold(b: seq<Json>, m: seq<Json>, t: seq<Json>, id: Identity)
    requires Told(b, id) && Told(m, id) && Told(t, id)
    ensures Told(MergedItems(b, m, t, id), id)
  {
    var kept, added := Kept(t, b, m, id), Added(m, b, t, id);
    KeptTold(t, b, m, id);
    AddedTold(m, b, t, id);
    ItemsGet(b, m, kept, Null, id);
    forall key ensures Get(Items(b, m, kept, id), key, id).None? || Get(added, key, id).None? {
      KeptItemsGet(b, m, t, key, id);
      AddedGets(m, b, t, key, id);
    }
    ToldJoined(Items(b, m, kept, id), added, id);
  }

  /** Lists merged item by item: no item twice, and for every key exactly the item there should be:
      both sides' versions merged over the base's; the one either side added; and none where either
      side removed what the other left alone. */
  lemma {:induction false} ListMergesByItem(b: seq<Json>, m: seq<Json>, t: seq<Json>) returns (items: seq<Json>)
    requires m != b && t != b && m != t && ByItem(b, m, t)
    ensures Merge(Some(Arr(b)), Some(Arr(m)), Some(Arr(t))).value == Some(Arr(items))
    ensures var id := IdentityOf(b, m, t).value;
      Told(items, id) && forall key :: Get(items, key, id) == Expected(b, m, t, key, id)
  {
    var id := IdentityOf(b, m, t).value;
    items := MergedItems(b, m, t, id);
    MergedItemsTold(b, m, t, id);
    forall key ensures Get(items, key, id) == Expected(b, m, t, key, id) { MergedItemsGet(b, m, t, key, id); }
    ListMerged(b, m, t, id);
  }

  lemma {:induction false} ListMerged(b: seq<Json>, m: seq<Json>, t: seq<Json>, id: Identity)
    requires m != b && t != b && m != t && ByItem(b, m, t) && Some(id) == IdentityOf(b, m, t)
    ensures Merge(Some(Arr(b)), Some(Arr(m)), Some(Arr(t))).value == Some(Arr(MergedItems(b, m, t, id)))
  {
    PickedFit(t, b, m, id);
    PartsAreItems(b, m, Kept(t, b, m, id), id);
  }

  lemma {:induction false} PartsAreItems(b: seq<Json>, m: seq<Json>, kept: seq<Json>, id: Identity)
    requires AllFit(b, id) && AllFit(m, id) && AllFit(kept, id)
    ensures var parts := seq(|kept|, i requires 0 <= i < |kept| => MergeItem(b, m, kept[i], id));
      seq(|parts|, i requires 0 <= i < |parts| => parts[i].value.value) == Items(b, m, kept, id)
  {
  }

  /** Where a removal met a change, items cannot be told apart, or mine moved them, the whole list is
      mine, and that is reported. */
  lemma {:induction false} ListKeptWhole(b: seq<Json>, m: seq<Json>, t: seq<Json>)
    requires m != b && t != b && m != t
    ensures !ByItem(b, m, t) <==> Merge(Some(Arr(b)), Some(Arr(m)), Some(Arr(t))) == Merged(Some(Arr(m)), {[]})
  {
    if ByItem(b, m, t) {
      assert [] !in Merge(Some(Arr(b)), Some(Arr(m)), Some(Arr(t))).conflicts;
    }
  }
}
