/** The three-way merge of intents (src/intent/merge.ts): edits over a base, replayed onto a newer
    base saved elsewhere. */
module IntentMerge {
  import opened Wrappers
  import opened Text

  /** JSON, objects told apart by their keys and values, not the keys' order. */
  datatype Json = Null | Bool(on: bool) | Num(digits: string) | Str(text: string) | Arr(items: seq<Json>) | Obj(fields: map<string, Json>)

  type Path = seq<string>

  /** A value merged, if there is one, and the paths where both sides changed and mine was kept. */
  datatype Merged = Merged(value: Option<Json>, conflicts: set<Path>)

  // ----- Which item an item is -----

  const KEY_FIELDS := ["id", "mac", "ssid", "name"]

  /** How items are told apart: by a field, or a plain value by itself. */
  datatype Identity = ByField(field: string) | ByValue

  predicate Fits(item: Json, id: Identity) {
    match id
    case ByField(field) => item.Obj? && field in item.fields && item.fields[field].Str? && item.fields[field].text != ""
    case ByValue => !item.Obj? && !item.Arr?
  }

  function Key(item: Json, id: Identity): Json
    requires Fits(item, id)
  {
    match id
    case ByField(field) => item.fields[field]
    case ByValue => item
  }

  predicate AllFit(items: seq<Json>, id: Identity) {
    forall i :: 0 <= i < |items| ==> Fits(items[i], id)
  }

  function Keys(items: seq<Json>, id: Identity): seq<Json>
    requires AllFit(items, id)
  {
    seq(|items|, i requires 0 <= i < |items| => Key(items[i], id))
  }

  predicate Distinct(keys: seq<Json>) {
    forall i, j :: 0 <= i < j < |keys| ==> keys[i] != keys[j]
  }

  function FieldFor(items: seq<Json>, fields: seq<string>): Option<string> {
    if fields == [] then None
    else if AllFit(items, ByField(fields[0])) then Some(fields[0])
    else FieldFor(items, fields[1..])
  }

  /** A key every item has, told only once in each list. */
  function IdentityOf(base: seq<Json>, mine: seq<Json>, theirs: seq<Json>): (r: Option<Identity>)
    ensures r.Some? ==> Told(base, r.value) && Told(mine, r.value) && Told(theirs, r.value)
  {
    var all := base + mine + theirs;
    var field := FieldFor(all, KEY_FIELDS);
    var id := if field.Some? then ByField(field.value) else ByValue;
    FieldFits(all, KEY_FIELDS);
    if AllFit(all, id) then
      assert forall i :: 0 <= i < |base| ==> base[i] == all[i];
      assert forall i :: 0 <= i < |mine| ==> mine[i] == all[|base| + i];
      assert forall i :: 0 <= i < |theirs| ==> theirs[i] == all[|base| + |mine| + i];
      if Distinct(Keys(base, id)) && Distinct(Keys(mine, id)) && Distinct(Keys(theirs, id)) then Some(id) else None
    else None
  }

  lemma {:induction false} FieldFits(items: seq<Json>, fields: seq<string>)
    ensures FieldFor(items, fields).Some? ==> AllFit(items, ByField(FieldFor(items, fields).value))
    decreases |fields|
  {
    if fields != [] { FieldFits(items, fields[1..]); }
  }

  /** A list each item of which is told apart from the others. */
  predicate Told(items: seq<Json>, id: Identity) {
    AllFit(items, id) && Distinct(Keys(items, id))
  }

  /** The item of a key, if it is there. */
  function Get(items: seq<Json>, key: Json, id: Identity): (r: Option<Json>)
    requires AllFit(items, id)
    ensures r.Some? <==> key in Keys(items, id)
    ensures r.Some? ==> r.value in items && Key(r.value, id) == key
  {
    if items == [] then None
    else if Key(items[0], id) == key then
      assert Keys(items, id)[0] == key;
      Some(items[0])
    else
      assert Keys(items, id) == [Key(items[0], id)] + Keys(items[1..], id);
      Get(items[1..], key, id)
  }

  // ----- Merging -----

  function PathsUnder(key: string, paths: set<Path>): set<Path> {
    set path | path in paths :: [key] + path
  }

  /** One side's removal of an item the other changed. */
  predicate Clash(base: seq<Json>, mine: seq<Json>, theirs: seq<Json>, id: Identity)
    requires AllFit(base, id) && AllFit(mine, id) && AllFit(theirs, id)
  {
    exists i :: 0 <= i < |base| &&
      var key := Key(base[i], id);
      var (b, m, t) := (Get(base, key, id), Get(mine, key, id), Get(theirs, key, id));
      (m.None? && t.Some? && t != b) || (t.None? && m.Some? && m != b)
  }

  /** The keys of a list that are in both of two others, in its order. */
  function Order(items: seq<Json>, a: seq<Json>, b: seq<Json>): seq<Json> {
    if items == [] then []
    else (if items[0] in a && items[0] in b then [items[0]] else []) + Order(items[1..], a, b)
  }

  /** Their items that stay: those mine has, and those the base did not. */
  function Kept(theirs: seq<Json>, base: seq<Json>, mine: seq<Json>, id: Identity): (kept: seq<Json>)
    requires AllFit(theirs, id) && AllFit(base, id) && AllFit(mine, id)
    ensures forall i :: 0 <= i < |kept| ==> kept[i] in theirs
  {
    if theirs == [] then []
    else
      var key := Key(theirs[0], id);
      (if Get(mine, key, id).Some? || Get(base, key, id).None? then [theirs[0]] else []) + Kept(theirs[1..], base, mine, id)
  }

  /** Items only mine added. */
  function Added(mine: seq<Json>, base: seq<Json>, theirs: seq<Json>, id: Identity): seq<Json>
    requires AllFit(theirs, id) && AllFit(base, id) && AllFit(mine, id)
  {
    if mine == [] then []
    else
      var key := Key(mine[0], id);
      (if Get(theirs, key, id).None? && Get(base, key, id).None? then [mine[0]] else []) + Added(mine[1..], base, theirs, id)
  }

  /** Whether the lists merge item by item: told apart, nothing removed that was changed, none moved. */
  predicate ByItem(base: seq<Json>, mine: seq<Json>, theirs: seq<Json>) {
    var id := IdentityOf(base, mine, theirs);
    id.Some? && !Clash(base, mine, theirs, id.value)
    && Order(Keys(base, id.value), Keys(base, id.value), Keys(mine, id.value))
      == Order(Keys(mine, id.value), Keys(base, id.value), Keys(mine, id.value))
  }

  function Field(fields: map<string, Json>, key: string): Option<Json> {
    if key in fields then Some(fields[key]) else None
  }

  predicate AllObjects(base: Option<Json>, mine: Option<Json>, theirs: Option<Json>) {
    base.Some? && mine.Some? && theirs.Some? && base.value.Obj? && mine.value.Obj? && theirs.value.Obj?
  }

  predicate AllLists(base: Option<Json>, mine: Option<Json>, theirs: Option<Json>) {
    base.Some? && mine.Some? && theirs.Some? && base.value.Arr? && mine.value.Arr? && theirs.value.Arr?
  }

  function Values(parts: map<string, Merged>): map<string, Json> {
    map key | key in parts && parts[key].value.Some? :: parts[key].value.value
  }

  function Conflicts(parts: map<string, Merged>): set<Path> {
    set key, path | key in parts && path in parts[key].conflicts :: [key] + path
  }

  function ConflictsAt(parts: seq<Merged>): set<Path> {
    set i, path | 0 <= i < |parts| && path in parts[i].conflicts :: [Decimal(i)] + path
  }

  function Merge(base: Option<Json>, mine: Option<Json>, theirs: Option<Json>): (r: Merged)
    ensures mine.Some? && theirs.Some? ==> r.value.Some?
    decreases theirs.Some?, if theirs.Some? then theirs.value else Null, 1
  {
    if mine == base then Merged(theirs, {})
    else if theirs == base || mine == theirs then Merged(mine, {})
    else if AllObjects(base, mine, theirs) then
      var parts := Parts(base, mine, theirs);
      Merged(Some(Obj(Values(parts))), Conflicts(parts))
    else if AllLists(base, mine, theirs) && ByItem(base.value.items, mine.value.items, theirs.value.items) then
      var (b, m, t) := (base.value.items, mine.value.items, theirs.value.items);
      var id := IdentityOf(b, m, t).value;
      var kept := Kept(t, b, m, id);
      var parts := seq(|kept|, i requires 0 <= i < |kept| => MergeItem(b, m, kept[i], id));
      Merged(
        Some(Arr(seq(|parts|, i requires 0 <= i < |parts| => parts[i].value.value) + Added(m, b, t, id))),
        ConflictsAt(parts))
    else Merged(mine, {[]})
  }

  /** Each field of either side, merged. */
  function Parts(base: Option<Json>, mine: Option<Json>, theirs: Option<Json>): map<string, Merged>
    requires AllObjects(base, mine, theirs)
    decreases theirs.Some?, theirs.value, 0
  {
    var (b, m, t) := (base.value.fields, mine.value.fields, theirs.value.fields);
    map key | key in t.Keys + m.Keys :: Merge(Field(b, key), Field(m, key), Field(t, key))
  }

  function MergeItem(b: seq<Json>, m: seq<Json>, item: Json, id: Identity): (r: Merged)
    requires AllFit(b, id) && AllFit(m, id) && Fits(item, id)
    ensures r.value.Some?
    decreases true, item, 2
  {
    var mine := Get(m, Key(item, id), id);
    if mine.Some? then Merge(Get(b, Key(item, id), id), mine, Some(item)) else Merged(Some(item), {})
  }
}
