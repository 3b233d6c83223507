/** What a conflict is, and what stands at it (src/intent/merge.ts): where both sides changed one
    setting differently and there is nothing to merge within, mine stands, and nowhere else. */
module MergeConflicts {
  import opened Wrappers
  import opened Text
  import opened IntentMerge
  import opened MergeLaws

  /** The three values at one place. */
  datatype Sides = Sides(base: Option<Json>, mine: Option<Json>, theirs: Option<Json>)

  predicate BothChanged(s: Sides) {
    s.mine != s.base && s.theirs != s.base && s.mine != s.theirs
  }

  predicate ListsByItem(s: Sides) {
    AllLists(s.base, s.mine, s.theirs) && ByItem(s.base.value.items, s.mine.value.items, s.theirs.value.items)
  }

  /** Both changed it, each in its own way, and it is no three objects, nor lists told by item. */
  predicate IsConflict(s: Sides) {
    BothChanged(s) && !AllObjects(s.base, s.mine, s.theirs) && !ListsByItem(s)
  }

  /** The list merged by item, and how its items are told. */
  function ListOf(s: Sides): seq<Json>
    requires ListsByItem(s)
  {
    var (b, m, t) := (s.base.value.items, s.mine.value.items, s.theirs.value.items);
    MergedItems(b, m, t, IdentityOf(b, m, t).value)
  }

  predicate IsPlace(items: seq<Json>, step: string) {
    exists i :: 0 <= i < |items| && Decimal(i) == step
  }

  function PlaceOf(items: seq<Json>, step: string): (i: nat)
    requires IsPlace(items, step)
    ensures i < |items| && Decimal(i) == step
  {
    PlaceOnce(items);
    var i :| 0 <= i < |items| && Decimal(i) == step;
    i
  }

  lemma {:induction false} PlaceOnce(items: seq<Json>)
    ensures forall i, j :: 0 <= i < |items| && 0 <= j < |items| && Decimal(i) == Decimal(j) ==> i == j
  {
    forall i, j | 0 <= i < |items| && 0 <= j < |items| && Decimal(i) == Decimal(j) ensures i == j {
      NumberOfDecimal(i);
      NumberOfDecimal(j);
    }
  }

  /** The three values under a field. */
  function Under(s: Sides, field: string): Sides
    requires AllObjects(s.base, s.mine, s.theirs)
  {
    Sides(Field(s.base.value.fields, field), Field(s.mine.value.fields, field), Field(s.theirs.value.fields, field))
  }

  /** The three items of the key that the merged list has at a place. */
  function ItemAt(s: Sides, i: nat): Sides
    requires ListsByItem(s) && i < |ListOf(s)|
  {
    var (b, m, t) := (s.base.value.items, s.mine.value.items, s.theirs.value.items);
    var id := IdentityOf(b, m, t).value;
    MergedItemsTold(b, m, t, id);
    var key := Key(ListOf(s)[i], id);
    Sides(Get(b, key, id), Get(m, key, id), Get(t, key, id))
  }

  /** Whether a path leads on from here: both changed it, and it is merged within. */
  predicate GoesOn(s: Sides, step: string) {
    && BothChanged(s)
    && ((AllObjects(s.base, s.mine, s.theirs) && (step in s.mine.value.fields || step in s.theirs.value.fields))
        || (ListsByItem(s) && IsPlace(ListOf(s), step)))
  }

  function Next(s: Sides, step: string): Sides
    requires GoesOn(s, step)
  {
    if AllObjects(s.base, s.mine, s.theirs) then Under(s, step) else ItemAt(s, PlaceOf(ListOf(s), step))
  }

  /** The three values at a path of the merged value, by field, and by what each item is. */
  function AtPath(s: Sides, path: Path): Option<Sides>
    decreases |path|
  {
    if path == [] then Some(s)
    else if GoesOn(s, path[0]) then AtPath(Next(s, path[0]), path[1..])
    else None
  }

  /** A value by fields and places. */
  function ValueAt(value: Option<Json>, path: Path): Option<Json>
    decreases |path|
  {
    if path == [] then value
    else if value.None? then None
    else if value.value.Obj? then ValueAt(Field(value.value.fields, path[0]), path[1..])
    else if value.value.Arr? && IsPlace(value.value.items, path[0]) then
      ValueAt(Some(value.value.items[PlaceOf(value.value.items, path[0])]), path[1..])
    else None
  }

  function MergeOf(s: Sides): Merged {
    Merge(s.base, s.mine, s.theirs)
  }

  // ----- One step of a path -----

  lemma {:induction false} ObjectStep(s: Sides, step: string, path: Path)
    requires BothChanged(s) && AllObjects(s.base, s.mine, s.theirs)
    ensures MergeOf(s).value.Some? && MergeOf(s).value.value.Obj?
    ensures [step] + path in MergeOf(s).conflicts <==> GoesOn(s, step) && path in MergeOf(Under(s, step)).conflicts
    ensures GoesOn(s, step) ==> Field(MergeOf(s).value.value.fields, step) == MergeOf(Under(s, step)).value
    ensures [] !in MergeOf(s).conflicts
  {
    var parts := Parts(s.base, s.mine, s.theirs);
    if [step] + path in Conflicts(parts) {
      var key, rest :| key in parts && rest in parts[key].conflicts && [key] + rest == [step] + path;
      assert ([key] + rest)[0] == ([step] + path)[0] && ([key] + rest)[1..] == ([step] + path)[1..];
    }
  }

  /** A place in the merged list: an item both have, merged; or one that only one side has. */
  lemma {:induction false} ItemMerged(s: Sides, i: nat)
    requires ListsByItem(s) && i < |ListOf(s)|
    ensures var item := ItemAt(s, i);
      && Some(ListOf(s)[i]) == (if item.mine.Some? && item.theirs.Some? then MergeOf(item).value else if item.mine.Some? then item.mine else item.theirs)
      && (item.mine.None? || item.theirs.None? ==> item.base.None?)
  {
    var (b, m, t) := (s.base.value.items, s.mine.value.items, s.theirs.value.items);
    var id := IdentityOf(b, m, t).value;
    MergedItemsTold(b, m, t, id);
    var key := Key(ListOf(s)[i], id);
    GotAt(ListOf(s), i, id);
    MergedItemsGet(b, m, t, key, id);
  }

  lemma {:induction false} GotAt(items: seq<Json>, i: nat, id: Identity)
    requires Told(items, id) && i < |items|
    ensures Get(items, Key(items[i], id), id) == Some(items[i])
  {
    KeyAt(items, i, id);
    var got := Get(items, Key(items[i], id), id).value;
    var j :| 0 <= j < |items| && items[j] == got;
    assert Keys(items, id)[j] == Keys(items, id)[i];
  }

  lemma {:induction false} ListConflicts(s: Sides, parts: seq<Merged>)
    requires BothChanged(s) && ListsByItem(s)
    requires var (b, m, t) := (s.base.value.items, s.mine.value.items, s.theirs.value.items);
      var id := IdentityOf(b, m, t).value;
      parts == seq(|Kept(t, b, m, id)|, i requires 0 <= i < |Kept(t, b, m, id)| => MergeItem(b, m, Kept(t, b, m, id)[i], id))
    ensures MergeOf(s).conflicts == ConflictsAt(parts)
  {
  }

  lemma {:induction false} PlacesOnce(parts: seq<Merged>, i: nat, path: Path)
    ensures [Decimal(i)] + path in ConflictsAt(parts) <==> i < |parts| && path in parts[i].conflicts
  {
    if [Decimal(i)] + path in ConflictsAt(parts) {
      var j, rest :| 0 <= j < |parts| && rest in parts[j].conflicts && [Decimal(j)] + rest == [Decimal(i)] + path;
      assert ([Decimal(j)] + rest)[0] == ([Decimal(i)] + path)[0] && ([Decimal(j)] + rest)[1..] == ([Decimal(i)] + path)[1..];
      NumberOfDecimal(i);
      NumberOfDecimal(j);
    }
  }

  lemma {:induction false} PlaceNamed(parts: seq<Merged>, step: string, path: Path)
    requires [step] + path in ConflictsAt(parts)
    ensures exists i :: 0 <= i < |parts| && Decimal(i) == step
  {
    var j, rest :| 0 <= j < |parts| && rest in parts[j].conflicts && [Decimal(j)] + rest == [step] + path;
    assert ([Decimal(j)] + rest)[0] == ([step] + path)[0];
  }

  /** The item at a place among theirs that stay: its own three sides. */
  lemma {:induction false} KeptAt(s: Sides, i: nat, kept: seq<Json>, id: Identity)
    requires ListsByItem(s) && Some(id) == IdentityOf(s.base.value.items, s.mine.value.items, s.theirs.value.items)
    requires kept == Kept(s.theirs.value.items, s.base.value.items, s.mine.value.items, id) && i < |kept|
    ensures i < |ListOf(s)|
    ensures MergeItem(s.base.value.items, s.mine.value.items, kept[i], id).conflicts == MergeOf(ItemAt(s, i)).conflicts
  {
    var (b, m, t) := (s.base.value.items, s.mine.value.items, s.theirs.value.items);
    MergedItemsTold(b, m, t, id);
    PickedFit(t, b, m, id);
    ItemFits(b, m, kept[i], id);
    assert ListOf(s)[i] == MergeItem(b, m, kept[i], id).value.value;
    assert Key(ListOf(s)[i], id) == Key(kept[i], id);
    InTold(t, kept[i], id);
  }

  lemma {:induction false} NothingToMerge(s: Sides)
    requires s.base.None? && s.theirs.None?
    ensures MergeOf(s).conflicts == {}
  {
  }

  /** One past those only mine has: there is nothing to merge it with. */
  lemma {:induction false} AddedAt(s: Sides, i: nat, kept: seq<Json>, id: Identity)
    requires ListsByItem(s) && Some(id) == IdentityOf(s.base.value.items, s.mine.value.items, s.theirs.value.items)
    requires kept == Kept(s.theirs.value.items, s.base.value.items, s.mine.value.items, id) && |kept| <= i < |ListOf(s)|
    ensures MergeOf(ItemAt(s, i)).conflicts == {}
  {
    var (b, m, t) := (s.base.value.items, s.mine.value.items, s.theirs.value.items);
    MergedItemsTold(b, m, t, id);
    AddedIsNew(m, b, t, id, i - |kept|);
    var key := Key(ListOf(s)[i], id);
    assert ListOf(s)[i] == Added(m, b, t, id)[i - |kept|];
    assert ItemAt(s, i) == Sides(Get(b, key, id), Get(m, key, id), Get(t, key, id));
    NothingToMerge(ItemAt(s, i));
  }

  lemma {:induction false} InTold(items: seq<Json>, item: Json, id: Identity)
    requires Told(items, id) && item in items
    ensures Get(items, Key(item, id), id) == Some(item)
  {
    var i :| 0 <= i < |items| && items[i] == item;
    GotAt(items, i, id);
  }

  lemma {:induction false} ListStep(s: Sides, step: string, path: Path)
    requires BothChanged(s) && ListsByItem(s)
    ensures MergeOf(s).value == Some(Arr(ListOf(s))) && [] !in MergeOf(s).conflicts
    ensures [step] + path in MergeOf(s).conflicts <==> GoesOn(s, step) && path in MergeOf(Next(s, step)).conflicts
  {
    var (b, m, t) := (s.base.value.items, s.mine.value.items, s.theirs.value.items);
    var id := IdentityOf(b, m, t).value;
    var kept := Kept(t, b, m, id);
    var parts := seq(|kept|, i requires 0 <= i < |kept| => MergeItem(b, m, kept[i], id));
    ListMerged(b, m, t, id);
    ListConflicts(s, parts);
    PickedFit(t, b, m, id);
    if [step] + path in MergeOf(s).conflicts { PlaceNamed(parts, step, path); }
    if IsPlace(ListOf(s), step) {
      var i := PlaceOf(ListOf(s), step);
      PlacesOnce(parts, i, path);
      if i < |kept| { KeptAt(s, i, kept, id); } else { AddedAt(s, i, kept, id); }
    } else if i :| 0 <= i < |parts| && Decimal(i) == step {
      assert IsPlace(ListOf(s), step);
    }
  }

  // ----- Exactly where, and what stands there -----

  /** A path is reported just when both sides changed what is there, each in its own way, and it is
      nothing to merge within. */
  lemma {:induction false} ConflictIsExact(s: Sides, path: Path)
    ensures path in MergeOf(s).conflicts <==> AtPath(s, path).Some? && IsConflict(AtPath(s, path).value)
    decreases |path|
  {
    if path == [] {
      if BothChanged(s) && AllObjects(s.base, s.mine, s.theirs) { ObjectStep(s, "", []); }
      if BothChanged(s) && ListsByItem(s) { ListStep(s, "", []); }
    } else {
      assert path == [path[0]] + path[1..];
      if BothChanged(s) && AllObjects(s.base, s.mine, s.theirs) { ObjectStep(s, path[0], path[1..]); }
      if BothChanged(s) && ListsByItem(s) { ListStep(s, path[0], path[1..]); }
      if GoesOn(s, path[0]) { ConflictIsExact(Next(s, path[0]), path[1..]); }
    }
  }

  /** At every path that leads on, the merged value is the three values there, merged; an item only one
      side has is that side's. */
  lemma {:induction false} MergedWithin(s: Sides, path: Path)
    requires AtPath(s, path).Some?
    ensures ValueAt(MergeOf(s).value, path) == MergeOf(AtPath(s, path).value).value
    decreases |path|
  {
    if path != [] {
      if AllObjects(s.base, s.mine, s.theirs) {
        ObjectStep(s, path[0], []);
      } else {
        ListStep(s, path[0], []);
        ItemMerged(s, PlaceOf(ListOf(s), path[0]));
      }
      MergedWithin(Next(s, path[0]), path[1..]);
    }
  }

  /** At a conflict mine stands, and base, mine and theirs are three different values. */
  lemma {:induction false} MineStands(s: Sides, path: Path)
    requires path in MergeOf(s).conflicts
    ensures AtPath(s, path).Some?
    ensures var there := AtPath(s, path).value;
      && ValueAt(MergeOf(s).value, path) == there.mine
      && there.mine != there.base && there.theirs != there.base && there.mine != there.theirs
  {
    ConflictIsExact(s, path);
    MergedWithin(s, path);
  }

  /** Where one side alone changed a value, or both alike, that stands. */
  lemma {:induction false} OneChangeStands(s: Sides, path: Path)
    requires AtPath(s, path).Some?
    ensures var there := AtPath(s, path).value;
      && (there.mine == there.base ==> ValueAt(MergeOf(s).value, path) == there.theirs)
      && (there.theirs == there.base || there.mine == there.theirs ==> ValueAt(MergeOf(s).value, path) == there.mine)
  {
    MergedWithin(s, path);
  }
}
