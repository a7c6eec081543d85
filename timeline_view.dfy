/** The timeline's drag handlers: the board remembers the card or lane being
    dragged, and a finished drag issues store calls in program order. */
module TimelineView {
  import opened Roadmap
  import opened Seqs
  import opened Actions
  import opened Commands
  import opened Zones
  import opened Timeline
  import Store

  class TimelineBoard {
    const store: Store.RoadmapStore
    /** The `activeId` state: the id being dragged, if any. */
    var activeId: Option<string>

    constructor (s: Store.RoadmapStore)
      ensures store == s && activeId == None
    {
      store := s;
      activeId := None;
    }

    /** `handleDragStart`. */
    method HandleDragStart(id: string)
      modifies this
      ensures activeId == Some(id)
    {
      activeId := Some(id);
    }

    /** `handleDragEnd`: clears the drag and leaves the store as the calls
        `DragEnd` lists, run in order, would. `confirmed` stands for the
        answer `window.confirm` gives. */
    method HandleDragEnd(active: Subject, over: Option<Target>, confirmed: bool)
      modifies this, store
      ensures activeId == None
      ensures store.Snapshot() == Run(old(store.Snapshot()), DragEnd(old(store.Snapshot()), active, over, confirmed, AsWritten))
      ensures old(store.Valid()) ==> store.Valid()
    {
      ghost var s0 := store.Snapshot();
      var dragged := FirstWithId(store.items, active.id);
      activeId := None;

      if IsDeleteZone(over) {
        assert DragEnd(s0, active, over, confirmed, AsWritten) == DeleteZoneDrop(s0, active, dragged, confirmed);
        DropOnDeleteZone(active, dragged, confirmed);
        return;
      }

      if over.None? {
        return;
      }
      var target := over.value;

      if active.kind == CategorySubject {
        assert DragEnd(s0, active, over, confirmed, AsWritten) == CategoryDrop(s0.categoryOrder, active.id, target.id);
        DropOnLane(active.id, target.id);
        return;
      }

      if dragged.None? {
        return;
      }
      var draggedItem := dragged.value;

      if target.kind == ItemTarget {
        assert DragEnd(s0, active, over, confirmed, AsWritten) == CardDrop(s0.items, draggedItem, target.id);
        DropOnCard(draggedItem, target.id);
        return;
      }

      assert DragEnd(s0, active, over, confirmed, AsWritten) == ZoneDrop(s0, draggedItem, target.id, AsWritten);
      DropOnZone(draggedItem, target.id);
    }

    /** A drop on either delete zone. */
    method DropOnDeleteZone(active: Subject, dragged: Option<Item>, confirmed: bool)
      modifies store
      ensures store.Snapshot() == Run(old(store.Snapshot()), DeleteZoneDrop(old(store.Snapshot()), active, dragged, confirmed))
      ensures old(store.Valid()) ==> store.Valid()
    {
      ghost var s0 := store.Snapshot();
      if active.kind == ItemSubject {
        if dragged.Some? && confirmed {
          store.DeleteItem(dragged.value.id);
          RunOne(s0, DeleteItemCmd(dragged.value.id));
        }
      } else if |store.categoryOrder| <= 1 {
      } else if confirmed {
        store.DeleteCategory(active.id);
        RunOne(s0, DeleteCategoryCmd(active.id));
      }
    }

    /** A lane header dropped on another lane header. */
    method DropOnLane(activeId: string, overId: string)
      modifies store
      ensures store.Snapshot() == Run(old(store.Snapshot()), CategoryDrop(old(store.categoryOrder), activeId, overId))
      ensures store.Valid() == old(store.Valid())
    {
      ghost var s0 := store.Snapshot();
      var oldIndex := IndexOf(store.categoryOrder, activeId);
      var newIndex := IndexOf(store.categoryOrder, overId);
      if oldIndex != newIndex && oldIndex != -1 && newIndex != -1 {
        var newOrder := ArrayMove(store.categoryOrder, oldIndex, newIndex);
        store.ReorderCategories(newOrder);
        RunOne(s0, ReorderCategoriesCmd(newOrder));
      }
    }

    /** A card dropped on another card. */
    method DropOnCard(draggedItem: Item, overId: string)
      modifies store
      ensures store.Snapshot() == Run(old(store.Snapshot()), CardDrop(old(store.items), draggedItem, overId))
      ensures old(store.Valid()) ==> store.Valid()
    {
      ghost var s0 := store.Snapshot();
      var found := FirstWithId(store.items, overId);
      if found.None? {
        return;
      }
      var overItem := found.value;
      if SameCell(draggedItem, overItem) {
        var zoneItems := Bucket(store.items, overItem.category, overItem.quarter);
        var oldIndex := IndexOf(Ids(zoneItems), draggedItem.id);
        var newIndex := IndexOf(Ids(zoneItems), overId);
        if oldIndex != -1 && newIndex != -1 {
          var ids := Ids(ArrayMove(zoneItems, oldIndex, newIndex));
          store.ReorderItems(overItem.category, overItem.quarter, ids);
          RunReorder(s0, overItem.category, overItem.quarter, ids);
        }
      } else {
        var first: seq<Command> := [];
        if draggedItem.category != overItem.category {
          store.UpdateItem(draggedItem.id, CategoryOnly(overItem.category));
          first := [UpdateItemCmd(draggedItem.id, CategoryOnly(overItem.category))];
          RunUpdate(s0, draggedItem.id, CategoryOnly(overItem.category));
        }
        assert store.Snapshot() == Run(s0, first);
        ghost var s1 := store.Snapshot();
        var second: seq<Command> := [];
        if draggedItem.quarter != overItem.quarter {
          store.MoveItem(draggedItem.id, overItem.quarter);
          second := [MoveItemCmd(draggedItem.id, overItem.quarter)];
          RunMove(s1, draggedItem.id, overItem.quarter);
        }
        assert store.Snapshot() == Run(s1, second);
        RunConcat(s0, first, second);
        assert first + second == TakeOverCell(draggedItem, overItem);
      }
    }

    /** A card dropped on a (category, quarter) zone. */
    method DropOnZone(draggedItem: Item, overId: string)
      modifies store
      ensures store.Snapshot() == Run(old(store.Snapshot()), ZoneDrop(old(store.Snapshot()), draggedItem, overId, AsWritten))
      ensures old(store.Valid()) ==> store.Valid()
    {
      ghost var s0 := store.Snapshot();
      var cell := DecodeZoneAsWritten(overId, store.keys);
      assert DecodeZoneBy(overId, s0.keys, AsWritten) == cell;
      if cell.None? {
        return;
      }
      var c := Ref(cell.value.category);
      var q := cell.value.quarter;
      var targetItems := Bucket(store.items, c, q);
      if draggedItem.quarter != q || draggedItem.category != c {
        assert ZoneDrop(s0, draggedItem, overId, AsWritten) == AppendToCell(s0.items, draggedItem, c, q);
        store.MoveItem(draggedItem.id, q);
        RunMove(s0, draggedItem.id, q);
        ghost var s1 := store.Snapshot();
        var retag: seq<Command> := [];
        if draggedItem.category != c {
          store.UpdateItem(draggedItem.id, CategoryOnly(c));
          retag := [UpdateItemCmd(draggedItem.id, CategoryOnly(c))];
          RunUpdate(s1, draggedItem.id, CategoryOnly(c));
        }
        assert store.Snapshot() == Run(s1, retag);
        RunConcat(s0, [MoveItemCmd(draggedItem.id, q)], retag);
        assert [MoveItemCmd(draggedItem.id, q)] + retag == MoveIntoCell(draggedItem, c, q);
        ghost var s2 := store.Snapshot();
        var ids := Ids(targetItems) + [draggedItem.id];
        store.ReorderItems(c, q, ids);
        RunReorder(s2, c, q, ids);
        RunConcat(s0, MoveIntoCell(draggedItem, c, q), [ReorderItemsCmd(c, q, ids)]);
      }
    }
  }
}
