/** The store object. Each method overwrites the fields the corresponding
    action's `set(...)` names, and leaves the state its pure counterpart in
    `Actions` computes. */
module Store {
  import opened Roadmap
  import opened Seqs
  import opened Actions
  import StoreLaws

  class RoadmapStore {
    var items: seq<Item>
    var positions: map<string, Position>
    var keys: seq<string>
    var settings: map<string, CategorySettings>
    var categoryOrder: seq<string>

    /** The five fields as one value. */
    function Snapshot(): State
      reads this
    {
      State(items, positions, keys, settings, categoryOrder)
    }

    /** The settings keys list every settings entry exactly once. */
    predicate Valid()
      reads this
    {
      SettingsWellFormed(Snapshot())
    }

    /** The store before `initialize` has loaded anything. */
    constructor ()
      ensures Snapshot() == State([], map[], [], map[], [])
      ensures Valid()
    {
      items := [];
      positions := map[];
      keys := [];
      settings := map[];
      categoryOrder := [];
    }

    /** `addEmptyItem`, with the id `crypto.randomUUID` would produce passed in. */
    method AddEmptyItem(id: string) returns (newId: string)
      modifies this
      ensures newId == id
      ensures Snapshot() == Actions.AddEmptyItem(old(Snapshot()), id)
      ensures Valid() == old(Valid())
      ensures old(UniqueIds(items)) && id !in old(Ids(items)) ==> UniqueIds(items)
    {
      if UniqueIds(items) && id !in Ids(items) {
        StoreLaws.AddEmptyItemKeepsIdsUnique(Snapshot(), id);
      }
      items := items + [NewItem(id, FirstKey(keys))];
      positions := positions[id := Position(0, 0)];
      newId := id;
    }

    /** `updateItem`: overlays the update on every item with that id. */
    method UpdateItem(id: string, u: ItemUpdate)
      modifies this
      ensures Snapshot() == Actions.UpdateItem(old(Snapshot()), id, u)
      ensures Valid() == old(Valid())
      ensures u.id.None? ==> Ids(items) == old(Ids(items))
    {
      if u.id.None? {
        StoreLaws.UpdateItemKeepsIds(Snapshot(), id, u);
      }
      items := Map(items, OverlayIfId(id, u));
    }

    /** `updatePosition`: records the canvas position of an item. */
    method UpdatePosition(id: string, p: Position)
      modifies this
      ensures Snapshot() == Actions.UpdatePosition(old(Snapshot()), id, p)
      ensures positions[id] == p && items == old(items)
    {
      positions := positions[id := p];
    }

    /** `moveItem`: sets the quarter of every item with that id. */
    method MoveItem(id: string, q: Quarter)
      modifies this
      ensures Snapshot() == Actions.MoveItem(old(Snapshot()), id, q)
      ensures Valid() == old(Valid())
      ensures Ids(items) == old(Ids(items))
    {
      items := Map(items, OverlayIfId(id, QuarterOnly(q)));
    }

    /** `deleteItem`: drops the items with that id and their position. */
    method DeleteItem(id: string)
      modifies this
      ensures Snapshot() == Actions.DeleteItem(old(Snapshot()), id)
      ensures Valid() == old(Valid())
      ensures id !in Ids(items) && id !in positions
      ensures old(UniqueIds(items)) ==> UniqueIds(items)
    {
      if UniqueIds(items) {
        StoreLaws.DeleteItemKeepsIdsUnique(Snapshot(), id);
      }
      StoreLaws.DeleteItemRemovesId(Snapshot(), id);
      items := Filter(items, HasOtherId(id));
      positions := positions - {id};
    }

    /** `reorderItems`: the items outside the (category, quarter) cell, then
        the listed ids' items in the listed order. */
    method ReorderItems(c: CategoryRef, q: Quarter, orderedIds: seq<string>)
      modifies this
      ensures Snapshot() == Actions.ReorderItems(old(Snapshot()), c, q, orderedIds)
      ensures Valid() == old(Valid())
      ensures old(UniqueIds(items)) && multiset(orderedIds) == multiset(Ids(Bucket(old(items), c, q))) ==>
        && multiset(items) == multiset(old(items))
        && Bucket(items, c, q) == LookupAll(old(items), orderedIds)
    {
      if UniqueIds(items) && multiset(orderedIds) == multiset(Ids(Bucket(items, c, q))) {
        StoreLaws.ReorderItemsPermutes(Snapshot(), c, q, orderedIds);
      }
      items := OutsideBucket(items, c, q) + LookupAll(items, orderedIds);
    }

    /** `updateCategorySettings`: overlays the update on the category's
        settings, registering the category when it has none. */
    method UpdateCategorySettings(c: string, u: SettingsUpdate)
      modifies this
      ensures Snapshot() == Actions.UpdateCategorySettings(old(Snapshot()), c, u)
      ensures old(Valid()) ==> Valid()
      ensures c in settings
    {
      if Valid() {
        StoreLaws.UpdateCategorySettingsOnlyThat(Snapshot(), c, u);
      }
      if c in settings {
        settings := settings[c := OverlaySettings(settings[c], u)];
      } else {
        settings := settings[c := OverlaySettings(NoSettings, u)];
        keys := keys + [c];
      }
    }

    /** `addCategory`: registers a new category with a free palette colour and
        its display name, at the end of the lane order; a known one is left alone. */
    method AddCategory(c: string)
      modifies this
      ensures Snapshot() == Actions.AddCategory(old(Snapshot()), c)
      ensures old(Valid()) ==> Valid()
      ensures c in settings
    {
      if Valid() {
        StoreLaws.AddCategoryKeepsWellFormed(Snapshot(), c);
      }
      if c in settings {
        return;
      }
      var added := NewSettings(c, settings);
      settings := settings[c := added];
      keys := keys + [c];
      categoryOrder := categoryOrder + [c];
    }

    /** `deleteCategory`: forgets the category and moves its items to the
        first remaining settings key, or to unassigned when none is left. */
    method DeleteCategory(c: string)
      modifies this
      ensures Snapshot() == Actions.DeleteCategory(old(Snapshot()), c)
      ensures old(Valid()) ==> Valid()
      ensures c !in settings && c !in categoryOrder
    {
      if Valid() {
        StoreLaws.DeleteCategoryRemoves(Snapshot(), c);
      }
      FilterMember(categoryOrder, IsNot(c), c);
      var remaining := Filter(keys, IsNot(c));
      items := Map(items, RetagIf(Ref(c), FirstKey(remaining)));
      settings := settings - {c};
      keys := remaining;
      categoryOrder := Filter(categoryOrder, IsNot(c));
    }

    /** `reorderCategories`: replaces the lane order. */
    method ReorderCategories(o: seq<string>)
      modifies this
      ensures Snapshot() == Actions.ReorderCategories(old(Snapshot()), o)
      ensures Valid() == old(Valid())
      ensures categoryOrder == o
    {
      categoryOrder := o;
    }
  }
}
