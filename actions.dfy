/** The roadmap store's state and its actions as values: each action gives
    the state that `set(...)` leaves behind. The class `Store.RoadmapStore`
    applies them to its fields. */
module Actions {
  import opened Roadmap
  import opened Seqs
  import Text

  /** The store's four fields. `categorySettings` is a JavaScript object, whose
      key order matters, so it is held as its keys in insertion order plus the
      map from key to settings. */
  datatype State = State(
    items: seq<Item>,
    positions: map<string, Position>,
    keys: seq<string>,
    settings: map<string, CategorySettings>,
    categoryOrder: seq<string>)

  /** The key sequence lists every key of the settings map exactly once. */
  predicate SettingsWellFormed(s: State) {
    && Distinct(s.keys)
    && (forall k :: k in s.keys ==> k in s.settings)
    && (forall k :: k in s.settings ==> k in s.keys)
  }

  /** `items.map(i => i.id)`. */
  function Ids(items: seq<Item>): (r: seq<string>)
    ensures |r| == |items| && forall i :: 0 <= i < |items| ==> r[i] == items[i].id
  {
    Map(items, (it: Item) => it.id)
  }

  /** No two items share an id. */
  predicate UniqueIds(items: seq<Item>) {
    Distinct(Ids(items))
  }

  /** `Object.keys(categorySettings)[0]`, which is `undefined` when empty. */
  function FirstKey(keys: seq<string>): CategoryRef {
    if keys == [] then Unassigned else Ref(keys[0])
  }

  // ---------------------------------------------------------------- items

  function NewItem(id: string, category: CategoryRef): Item {
    Item(id, "New Item", "", Q1, category, "planned", "medium", 0)
  }

  /** `addEmptyItem`, with the fresh id supplied by the caller. */
  function AddEmptyItem(s: State, id: string): State {
    s.(items := s.items + [NewItem(id, FirstKey(s.keys))],
       positions := s.positions[id := Position(0, 0)])
  }

  function OverlayIfId(id: string, u: ItemUpdate): Item -> Item {
    (it: Item) => if it.id == id then Overlay(it, u) else it
  }

  /** `updateItem`: overlay `u` onto every item with this id. */
  function UpdateItem(s: State, id: string, u: ItemUpdate): State {
    s.(items := Map(s.items, OverlayIfId(id, u)))
  }

  /** `updatePosition`. */
  function UpdatePosition(s: State, id: string, p: Position): State {
    s.(positions := s.positions[id := p])
  }

  function QuarterOnly(q: Quarter): ItemUpdate {
    NoChange.(quarter := Some(q))
  }

  /** `moveItem`: `{ ...item, quarter: toQuarter }` on the matching items. */
  function MoveItem(s: State, id: string, q: Quarter): State {
    s.(items := Map(s.items, OverlayIfId(id, QuarterOnly(q))))
  }

  function HasOtherId(id: string): Item -> bool {
    (it: Item) => it.id != id
  }

  function HasId(id: string): Item -> bool {
    (it: Item) => it.id == id
  }

  /** `deleteItem`: drop the items with this id and its position. */
  function DeleteItem(s: State, id: string): State {
    s.(items := Filter(s.items, HasOtherId(id)), positions := s.positions - {id})
  }

  /** `item => item.category === c`. */
  function InCategory(c: string): Item -> bool {
    (it: Item) => it.category == Ref(c)
  }

  predicate InBucket(it: Item, c: CategoryRef, q: Quarter) {
    it.category == c && it.quarter == q
  }

  function IsInBucket(c: CategoryRef, q: Quarter): Item -> bool {
    (it: Item) => InBucket(it, c, q)
  }

  function IsOutsideBucket(c: CategoryRef, q: Quarter): Item -> bool {
    (it: Item) => !InBucket(it, c, q)
  }

  /** The items of one (category, quarter) cell, in `items` order: there is no
      separate per-cell order. */
  function Bucket(items: seq<Item>, c: CategoryRef, q: Quarter): seq<Item> {
    Filter(items, IsInBucket(c, q))
  }

  function OutsideBucket(items: seq<Item>, c: CategoryRef, q: Quarter): seq<Item> {
    Filter(items, IsOutsideBucket(c, q))
  }

  /** `new Map(items.map(item => [item.id, item])).get(id)`: a later entry
      overwrites an earlier one, so this is the last item with the id. */
  function LastWithId(items: seq<Item>, id: string): (r: Option<Item>)
    ensures r.Some? ==> r.value in items && r.value.id == id
    ensures r.None? ==> forall it :: it in items ==> it.id != id
  {
    if items == [] then None
    else if items[|items| - 1].id == id then Some(items[|items| - 1])
    else
      var r := LastWithId(items[..|items| - 1], id);
      assert forall it :: it in items ==> it in items[..|items| - 1] || it == items[|items| - 1];
      r
  }

  /** The item found is the last one with the id: no later item has it. */
  lemma {:induction false} LastWithIdIsLast(items: seq<Item>, id: string)
    requires LastWithId(items, id).Some?
    ensures exists i ::
      && 0 <= i < |items| && items[i] == LastWithId(items, id).value
      && forall j :: i < j < |items| ==> items[j].id != id
  {
    var n := |items| - 1;
    if items[n].id == id {
      assert items[n] == LastWithId(items, id).value;
    } else {
      var init := items[..n];
      assert LastWithId(items, id) == LastWithId(init, id);
      LastWithIdIsLast(init, id);
      var i :| 0 <= i < |init| && init[i] == LastWithId(init, id).value
        && forall j :: i < j < |init| ==> init[j].id != id;
      forall j | i < j < |items| ensures items[j].id != id {
        if j < n { assert items[j] == init[j]; }
      }
      assert items[i] == init[i];
    }
  }

  function Known(items: seq<Item>): string -> bool {
    (id: string) => LastWithId(items, id).Some?
  }

  /** `itemMap.get(id)`, as a sequence of zero or one items. */
  function LookupOne(items: seq<Item>, id: string): (r: seq<Item>)
    ensures |r| <= 1
  {
    var found := LastWithId(items, id);
    if found.Some? then [found.value] else []
  }

  /** The items looked up from `ids`, in `ids` order, unknown ids dropped. */
  function LookupAll(items: seq<Item>, ids: seq<string>): (r: seq<Item>)
    ensures |r| == |Filter(ids, Known(items))|
    ensures forall x :: x in r ==> x in items && x.id in ids
  {
    if ids == [] then []
    else LookupOne(items, ids[0]) + LookupAll(items, ids[1..])
  }

  /** `reorderItems(c, q, orderedIds)`: the items outside the cell keep their
      order and come first; the cell becomes the items looked up from
      `orderedIds`. */
  function ReorderItems(s: State, c: CategoryRef, q: Quarter, orderedIds: seq<string>): State {
    s.(items := OutsideBucket(s.items, c, q) + LookupAll(s.items, orderedIds))
  }

  // ----------------------------------------------------------- categories

  /** What `{ ...undefined, ...u }` starts from: a record with no fields, whose
      missing fields are held as empty strings. */
  const NoSettings := CategorySettings("", "", "")

  /** `updateCategorySettings`: overlay `u` onto the category's record. An
      unknown category gets a new key, appended in insertion order, but no
      `categoryOrder` entry. */
  function UpdateCategorySettings(s: State, c: string, u: SettingsUpdate): State {
    if c in s.settings then s.(settings := s.settings[c := OverlaySettings(s.settings[c], u)])
    else s.(settings := s.settings[c := OverlaySettings(NoSettings, u)], keys := s.keys + [c])
  }

  const Palette: seq<string> := ["bg-indigo-400", "bg-purple-400", "bg-cyan-400", "bg-teal-400",
                                 "bg-amber-400", "bg-orange-400", "bg-pink-400", "bg-lime-400"]
  const FallbackColor := "bg-slate-400"

  function UsedColors(settings: map<string, CategorySettings>): set<string> {
    set k | k in settings :: settings[k].color
  }

  /** The index `colors.find` stops at. */
  function FirstFreeIndex(palette: seq<string>, used: set<string>): nat {
    if palette == [] || palette[0] !in used then 0
    else 1 + FirstFreeIndex(palette[1..], used)
  }

  /** Every colour before the index `colors.find` stops at is in use, and the
      one there (if any) is not. */
  lemma {:induction false} FirstFreeIndexFinds(palette: seq<string>, used: set<string>)
    ensures var i := FirstFreeIndex(palette, used);
      && i <= |palette|
      && (forall j :: 0 <= j < i ==> palette[j] in used)
      && (i < |palette| ==> palette[i] !in used)
  {
    if palette != [] && palette[0] in used {
      FirstFreeIndexFinds(palette[1..], used);
    }
  }

  /** `colors.find(c => !usedColors.includes(c)) || 'bg-slate-400'`. */
  function ColorFor(used: set<string>): string {
    var i := FirstFreeIndex(Palette, used);
    if i < |Palette| then Palette[i] else FallbackColor
  }

  /** `category.charAt(0) + category.slice(1).toLowerCase().replace(/_/g, ' ')`. */
  function DisplayName(c: string): (r: string)
    ensures |r| == |c|
    ensures |c| > 0 ==> r[0] == c[0]
    ensures forall i :: 0 < i < |c| ==> r[i] == (if c[i] == '_' then ' ' else Text.LowerChar(c[i]))
  {
    if c == [] then [] else [c[0]] + Text.ReplaceChar(Text.ToLower(c[1..]), '_', ' ')
  }

  function NewSettings(c: string, settings: map<string, CategorySettings>): CategorySettings {
    CategorySettings(DisplayName(c), ColorFor(UsedColors(settings)), "text-black")
  }

  /** `addCategory`: nothing happens when the category already has settings. */
  function AddCategory(s: State, c: string): State {
    if c in s.settings then s
    else s.(settings := s.settings[c := NewSettings(c, s.settings)],
            keys := s.keys + [c],
            categoryOrder := s.categoryOrder + [c])
  }

  function IsNot(c: string): string -> bool {
    (k: string) => k != c
  }

  function RetagIf(from: CategoryRef, to: CategoryRef): Item -> Item {
    (it: Item) => if it.category == from then it.(category := to) else it
  }

  /** `deleteCategory`: drop the settings entry and every order entry, and move
      the category's items to the first remaining settings key. */
  function DeleteCategory(s: State, c: string): State {
    var keys := Filter(s.keys, IsNot(c));
    s.(settings := s.settings - {c},
       keys := keys,
       categoryOrder := Filter(s.categoryOrder, IsNot(c)),
       items := Map(s.items, RetagIf(Ref(c), FirstKey(keys))))
  }

  /** `reorderCategories`: the order is taken as given. */
  function ReorderCategories(s: State, o: seq<string>): State {
    s.(categoryOrder := o)
  }
}
