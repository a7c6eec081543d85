/** What a finished drag on the timeline does to the store, case by case. */
module DragLaws {
  import opened Roadmap
  import opened Seqs
  import opened Actions
  import opened Commands
  import opened Zones
  import opened Timeline
  import StoreLaws

  /** A drop on a delete zone issues at most one call, a deletion, and only
      when confirmed: an item if it exists, a category unless it is the last
      one. Nothing is moved or reordered. */
  lemma DeleteZoneOnlyDeletes(s: State, active: Subject, over: Option<Target>, confirmed: bool, rule: ZoneRule)
    requires IsDeleteZone(over)
    ensures var cmds := DragEnd(s, active, over, confirmed, rule);
      && |cmds| <= 1
      && (forall k :: 0 <= k < |cmds| ==> cmds[k].DeleteItemCmd? || cmds[k].DeleteCategoryCmd?)
      && (cmds != [] ==> confirmed)
      && ((cmds == [DeleteItemCmd(active.id)]) <==>
            (active.kind == ItemSubject && active.id in Ids(s.items) && confirmed))
      && ((cmds == [DeleteCategoryCmd(active.id)]) <==>
            (active.kind == CategorySubject && |s.categoryOrder| > 1 && confirmed))
  {
  }

  /** A drag that ends over nothing changes nothing. */
  lemma NoTargetNoMutation(s: State, active: Subject, confirmed: bool, rule: ZoneRule)
    ensures DragEnd(s, active, None, confirmed, rule) == []
  {
  }

  /** A dragged card that is not in `items` changes nothing, wherever it lands. */
  lemma MissingItemNoMutation(s: State, active: Subject, over: Option<Target>, confirmed: bool, rule: ZoneRule)
    requires active.kind == ItemSubject && active.id !in Ids(s.items)
    ensures DragEnd(s, active, over, confirmed, rule) == []
  {
  }

  /** A lane header dropped on a lane header: the new order is a permutation
      of the old one with the dragged category at the target's index and the
      others in their old relative order; it is unchanged when either is not
      in the order or they are the same. Nothing else changes. */
  lemma CategoryDropPermutes(s: State, active: Subject, t: Target, confirmed: bool, rule: ZoneRule)
    requires active.kind == CategorySubject && !IsDeleteZone(Some(t))
    ensures var r := Run(s, DragEnd(s, active, Some(t), confirmed, rule));
      var order := s.categoryOrder;
      && r == s.(categoryOrder := r.categoryOrder)
      && multiset(r.categoryOrder) == multiset(order)
      && (active.id !in order || t.id !in order || active.id == t.id ==> r.categoryOrder == order)
      && (active.id in order && t.id in order ==>
            && r.categoryOrder[IndexOf(order, t.id)] == active.id
            && RemoveAt(r.categoryOrder, IndexOf(order, t.id)) == RemoveAt(order, IndexOf(order, active.id)))
  {
    var order := s.categoryOrder;
    assert DragEnd(s, active, Some(t), confirmed, rule) == CategoryDrop(order, active.id, t.id);
    CategoryDropRuns(s, active.id, t.id);
  }

  /** `CategoryDropPermutes`, stated on the two ids. */
  lemma CategoryDropRuns(s: State, a: string, b: string)
    ensures var order := s.categoryOrder;
      var r := Run(s, CategoryDrop(order, a, b));
      && r == s.(categoryOrder := r.categoryOrder)
      && multiset(r.categoryOrder) == multiset(order)
      && (a !in order || b !in order || a == b ==> r.categoryOrder == order)
      && (a in order && b in order ==>
            && r.categoryOrder[IndexOf(order, b)] == a
            && RemoveAt(r.categoryOrder, IndexOf(order, b)) == RemoveAt(order, IndexOf(order, a)))
  {
    var order := s.categoryOrder;
    var i := IndexOf(order, a);
    var j := IndexOf(order, b);
    if i != j && i != -1 && j != -1 {
      RunReorderCategories(s, ArrayMove(order, i, j));
    }
  }

  /** With unique ids, items at different indices have different ids. */
  lemma OnlyOneWithId(items: seq<Item>, k: nat, i: nat)
    requires UniqueIds(items) && k < |items| && i < |items| && i != k
    ensures items[i].id != items[k].id
  {
    assert Ids(items)[i] == items[i].id && Ids(items)[k] == items[k].id;
  }

  /** With unique ids, overlaying an update onto an item's id replaces just
      that item. */
  lemma OverlayOne(items: seq<Item>, k: nat, u: ItemUpdate)
    requires UniqueIds(items) && k < |items|
    ensures Map(items, OverlayIfId(items[k].id, u)) == items[k := Overlay(items[k], u)]
  {
    var f := OverlayIfId(items[k].id, u);
    forall i | 0 <= i < |items| && i != k ensures f(items[i]) == items[i] {
      OnlyOneWithId(items, k, i);
    }
    MapChangesOne(items, k, f);
  }

  /** A card dropped on a card of the same cell: the cell's items are
      rearranged by `arrayMove` from the dragged card's index to the target's;
      the items outside the cell keep their order, and no item is gained or
      lost. */
  lemma SameCellReorders(s: State, active: Subject, t: Target, confirmed: bool, rule: ZoneRule)
    requires UniqueIds(s.items)
    requires active.kind == ItemSubject && t.kind == ItemTarget && !IsDeleteZone(Some(t))
    requires active.id in Ids(s.items) && t.id in Ids(s.items)
    requires SameCell(FirstWithId(s.items, active.id).value, FirstWithId(s.items, t.id).value)
    ensures var overItem := FirstWithId(s.items, t.id).value;
      var c := overItem.category;
      var q := overItem.quarter;
      var zone := Bucket(s.items, c, q);
      var r := Run(s, DragEnd(s, active, Some(t), confirmed, rule));
      && active.id in Ids(zone) && t.id in Ids(zone)
      && Bucket(r.items, c, q) == ArrayMove(zone, IndexOf(Ids(zone), active.id), IndexOf(Ids(zone), t.id))
      && OutsideBucket(r.items, c, q) == OutsideBucket(s.items, c, q)
      && multiset(r.items) == multiset(s.items)
      && r == s.(items := r.items)
  {
    var dragged := FirstWithId(s.items, active.id).value;
    assert DragEnd(s, active, Some(t), confirmed, rule) == CardDrop(s.items, dragged, t.id);
    SameCellRuns(s, dragged, t.id);
  }

  /** `SameCellReorders`, stated on the dragged item and the target id. */
  lemma SameCellRuns(s: State, dragged: Item, overId: string)
    requires UniqueIds(s.items) && dragged in s.items
    requires overId in Ids(s.items)
    requires SameCell(dragged, FirstWithId(s.items, overId).value)
    ensures var overItem := FirstWithId(s.items, overId).value;
      var c := overItem.category;
      var q := overItem.quarter;
      var zone := Bucket(s.items, c, q);
      var r := Run(s, CardDrop(s.items, dragged, overId));
      && dragged.id in Ids(zone) && overId in Ids(zone)
      && Bucket(r.items, c, q) == ArrayMove(zone, IndexOf(Ids(zone), dragged.id), IndexOf(Ids(zone), overId))
      && OutsideBucket(r.items, c, q) == OutsideBucket(s.items, c, q)
      && multiset(r.items) == multiset(s.items)
      && r == s.(items := r.items)
  {
    var overItem := FirstWithId(s.items, overId).value;
    var c := overItem.category;
    var q := overItem.quarter;
    var zone := Bucket(s.items, c, q);
    FilterMember(s.items, IsInBucket(c, q), dragged);
    FilterMember(s.items, IsInBucket(c, q), overItem);
    var i :| 0 <= i < |zone| && zone[i] == dragged;
    var j :| 0 <= j < |zone| && zone[j] == overItem;
    assert Ids(zone)[i] == dragged.id && Ids(zone)[j] == overId;
    var moved := ArrayMove(zone, IndexOf(Ids(zone), dragged.id), IndexOf(Ids(zone), overId));
    var cmd := ReorderItemsCmd(c, q, Ids(moved));
    assert CardDrop(s.items, dragged, overId) == [cmd];
    Commands.RunReorder(s, c, q, Ids(moved));
    StoreLaws.ReorderWithOwnItems(s, c, q, moved);
  }

  /** A card dropped on a card of another cell takes over that card's
      category and quarter and nothing else: no item moves in `items`, no
      reordering is issued. */
  lemma CrossCellRetags(s: State, active: Subject, t: Target, confirmed: bool, rule: ZoneRule)
    requires UniqueIds(s.items)
    requires active.kind == ItemSubject && t.kind == ItemTarget && !IsDeleteZone(Some(t))
    requires active.id in Ids(s.items) && t.id in Ids(s.items)
    requires !SameCell(FirstWithId(s.items, active.id).value, FirstWithId(s.items, t.id).value)
    ensures var overItem := FirstWithId(s.items, t.id).value;
      var r := Run(s, DragEnd(s, active, Some(t), confirmed, rule));
      && |r.items| == |s.items|
      && (forall i :: 0 <= i < |s.items| ==>
            r.items[i] == (if s.items[i].id == active.id
                           then s.items[i].(category := overItem.category, quarter := overItem.quarter)
                           else s.items[i]))
      && r == s.(items := r.items)
  {
    var k := IndexOf(Ids(s.items), active.id);
    var dragged := FirstWithId(s.items, active.id).value;
    assert DragEnd(s, active, Some(t), confirmed, rule) == TakeOverCell(dragged, FirstWithId(s.items, t.id).value);
    CrossCellRuns(s, k, FirstWithId(s.items, t.id).value);
    forall i | 0 <= i < |s.items| && i != k ensures s.items[i].id != active.id {
      OnlyOneWithId(s.items, k, i);
    }
  }

  /** The calls for a card dropped on a card in another cell give the
      dragged card the target's category and quarter and change nothing else. */
  lemma CrossCellRuns(s: State, k: nat, overItem: Item)
    requires UniqueIds(s.items) && k < |s.items|
    ensures Run(s, TakeOverCell(s.items[k], overItem))
            == s.(items := s.items[k := s.items[k].(category := overItem.category, quarter := overItem.quarter)])
  {
    var dragged := s.items[k];
    var c, q := overItem.category, overItem.quarter;
    var retag := UpdateItemCmd(dragged.id, CategoryOnly(c));
    var move := MoveItemCmd(dragged.id, q);
    if dragged.category != c && dragged.quarter != q {
      assert TakeOverCell(dragged, overItem) == [retag, move];
      RetagThenMoveRuns(s, k, c, q);
    } else if dragged.category != c {
      assert TakeOverCell(dragged, overItem) == [retag];
      UpdateOneRuns(s, k, CategoryOnly(c));
    } else if dragged.quarter != q {
      assert TakeOverCell(dragged, overItem) == [move];
      MoveOneRuns(s, k, q);
    } else {
      assert TakeOverCell(dragged, overItem) == [];
      assert s.items[k := dragged] == s.items;
    }
  }

  /** Re-tagging then moving a card changes that card only. */
  lemma RetagThenMoveRuns(s: State, k: nat, c: CategoryRef, q: Quarter)
    requires UniqueIds(s.items) && k < |s.items|
    ensures var id := s.items[k].id;
      Run(s, [UpdateItemCmd(id, CategoryOnly(c)), MoveItemCmd(id, q)])
      == s.(items := s.items[k := s.items[k].(category := c, quarter := q)])
  {
    var dragged := s.items[k];
    var retag := UpdateItemCmd(dragged.id, CategoryOnly(c));
    var move := MoveItemCmd(dragged.id, q);
    assert [retag, move] == [retag] + [move];
    RunConcat(s, [retag], [move]);
    UpdateOneRuns(s, k, CategoryOnly(c));
    var s1 := s.(items := s.items[k := dragged.(category := c)]);
    assert Run(s, [retag]) == s1;
    KeepsIds(s.items, k, s1.items[k]);
    MoveOneRuns(s1, k, q);
    UpdateTwice(s.items, k, dragged.(category := c), dragged.(category := c, quarter := q));
  }

  /** A card dropped on a zone of its own cell changes nothing. */
  lemma ZoneDropOwnCellIsNoOp(s: State, active: Subject, t: Target, confirmed: bool, rule: ZoneRule)
    requires active.kind == ItemSubject && t.kind == OtherTarget && !IsDeleteZone(Some(t))
    requires active.id in Ids(s.items)
    requires DecodeZoneBy(t.id, s.keys, rule).Some?
    requires var cell := DecodeZoneBy(t.id, s.keys, rule).value;
      InBucket(FirstWithId(s.items, active.id).value, Ref(cell.category), cell.quarter)
    ensures DragEnd(s, active, Some(t), confirmed, rule) == []
  {
  }

  /** A card dropped on a zone of another cell, with the calls applied in
      program order: the card now has that cell's category and quarter and
      comes after all of the cell's earlier items; the other items outside
      the cell keep their order, and apart from the card no item changes. */
  lemma ZoneDropAppends(s: State, active: Subject, t: Target, confirmed: bool, rule: ZoneRule)
    requires UniqueIds(s.items)
    requires active.kind == ItemSubject && t.kind == OtherTarget && !IsDeleteZone(Some(t))
    requires active.id in Ids(s.items)
    requires DecodeZoneBy(t.id, s.keys, rule).Some?
    requires var cell := DecodeZoneBy(t.id, s.keys, rule).value;
      !InBucket(FirstWithId(s.items, active.id).value, Ref(cell.category), cell.quarter)
    ensures var cell := DecodeZoneBy(t.id, s.keys, rule).value;
      var c := Ref(cell.category);
      var q := cell.quarter;
      var dragged := FirstWithId(s.items, active.id).value;
      var moved := dragged.(category := c, quarter := q);
      var r := Run(s, DragEnd(s, active, Some(t), confirmed, rule));
      && Bucket(r.items, c, q) == Bucket(s.items, c, q) + [moved]
      && OutsideBucket(r.items, c, q) == OutsideBucket(Filter(s.items, HasOtherId(active.id)), c, q)
      && multiset(r.items) == multiset(s.items) - multiset{dragged} + multiset{moved}
      && r == s.(items := r.items)
  {
    var cell := DecodeZoneBy(t.id, s.keys, rule).value;
    var k := IndexOf(Ids(s.items), active.id);
    assert DragEnd(s, active, Some(t), confirmed, rule) == AppendToCell(s.items, s.items[k], Ref(cell.category), cell.quarter);
    AppendToCellRuns(s, k, Ref(cell.category), cell.quarter);
    forall i | 0 <= i < |s.items| && i != k ensures HasOtherId(active.id)(s.items[i]) {
      OnlyOneWithId(s.items, k, i);
    }
    FilterDropsIndex(s.items, k, HasOtherId(active.id));
  }

  /** Moving and re-tagging replace the one card. */
  lemma MoveIntoCellRuns(s: State, k: nat, c: CategoryRef, q: Quarter)
    requires UniqueIds(s.items) && k < |s.items|
    ensures Run(s, MoveIntoCell(s.items[k], c, q)) == s.(items := s.items[k := s.items[k].(category := c, quarter := q)])
  {
    var dragged := s.items[k];
    var move := MoveItemCmd(dragged.id, q);
    var retag := UpdateItemCmd(dragged.id, CategoryOnly(c));
    if dragged.category != c {
      assert MoveIntoCell(dragged, c, q) == [move, retag];
      var s0 := s.(items := s.items[k := dragged.(quarter := q)]);
      assert [move, retag] == [move] + [retag];
      RunConcat(s, [move], [retag]);
      MoveOneRuns(s, k, q);
      KeepsIds(s.items, k, s0.items[k]);
      UpdateOneRuns(s0, k, CategoryOnly(c));
      UpdateTwice(s.items, k, dragged.(quarter := q), dragged.(category := c, quarter := q));
    } else {
      assert MoveIntoCell(dragged, c, q) == [move];
      MoveOneRuns(s, k, q);
    }
  }

  /** Updating the card at index `k` by its id changes that card only. */
  lemma UpdateOneRuns(s: State, k: nat, u: ItemUpdate)
    requires UniqueIds(s.items) && k < |s.items|
    ensures Run(s, [UpdateItemCmd(s.items[k].id, u)]) == s.(items := s.items[k := Overlay(s.items[k], u)])
  {
    OverlayOne(s.items, k, u);
    Commands.RunUpdate(s, s.items[k].id, u);
  }

  /** Moving the card at index `k` by its id changes that card only. */
  lemma MoveOneRuns(s: State, k: nat, q: Quarter)
    requires UniqueIds(s.items) && k < |s.items|
    ensures Run(s, [MoveItemCmd(s.items[k].id, q)]) == s.(items := s.items[k := s.items[k].(quarter := q)])
  {
    OverlayOne(s.items, k, QuarterOnly(q));
    Commands.RunMove(s, s.items[k].id, q);
  }

  /** Replacing a card by one with the same id keeps the ids. */
  lemma KeepsIds(items: seq<Item>, k: nat, x: Item)
    requires k < |items| && x.id == items[k].id
    ensures Ids(items[k := x]) == Ids(items)
  {
  }

  /** The calls of a zone drop leave what reordering the re-tagged items by
      the cell's earlier ids and the card's id leaves. */
  lemma AppendToCellIsReorder(s: State, k: nat, c: CategoryRef, q: Quarter)
    requires UniqueIds(s.items) && k < |s.items|
    ensures var moved := s.items[k].(category := c, quarter := q);
      Run(s, AppendToCell(s.items, s.items[k], c, q))
      == ReorderItems(s.(items := s.items[k := moved]), c, q, Ids(Bucket(s.items, c, q) + [moved]))
  {
    var dragged := s.items[k];
    var moved := dragged.(category := c, quarter := q);
    var prior := Bucket(s.items, c, q);
    var reorder := ReorderItemsCmd(c, q, Ids(prior) + [dragged.id]);
    var s1 := s.(items := s.items[k := moved]);
    assert AppendToCell(s.items, dragged, c, q) == MoveIntoCell(dragged, c, q) + [reorder];
    RunConcat(s, MoveIntoCell(dragged, c, q), [reorder]);
    MoveIntoCellRuns(s, k, c, q);
    IdsSnoc(prior, moved);
    Commands.RunReorder(s1, c, q, Ids(prior) + [dragged.id]);
  }

  /** The ids of a sequence with one more item end with that item's id. */
  lemma IdsSnoc(items: seq<Item>, x: Item)
    ensures Ids(items + [x]) == Ids(items) + [x.id]
  {
  }

  /** `ZoneDropAppends`, stated on the index of the dragged card. */
  lemma AppendToCellRuns(s: State, k: nat, c: CategoryRef, q: Quarter)
    requires UniqueIds(s.items) && k < |s.items|
    requires !InBucket(s.items[k], c, q)
    ensures var moved := s.items[k].(category := c, quarter := q);
      var r := Run(s, AppendToCell(s.items, s.items[k], c, q));
      && Bucket(r.items, c, q) == Bucket(s.items, c, q) + [moved]
      && OutsideBucket(r.items, c, q) == OutsideBucket(s.items[..k] + s.items[k + 1..], c, q)
      && multiset(r.items) == multiset(s.items) - multiset{s.items[k]} + multiset{moved}
      && r == s.(items := r.items)
  {
    var moved := s.items[k].(category := c, quarter := q);
    AppendToCellIsReorder(s, k, c, q);
    var s1 := s.(items := s.items[k := moved]);
    KeepsIds(s.items, k, moved);
    var xs := Bucket(s.items, c, q) + [moved];
    BucketGains(s.items, k, moved, c, q);
    StoreLaws.ReorderWithOwnItems(s1, c, q, xs);
    OutsideUnchanged(s.items, k, moved, c, q);
    var r := ReorderItems(s1, c, q, Ids(xs));
    assert Run(s, AppendToCell(s.items, s.items[k], c, q)) == r;
    assert r == s.(items := r.items);
  }

  /** Putting a card from outside the cell into it adds it to the cell's
      items. */
  lemma BucketGains(items: seq<Item>, k: nat, moved: Item, c: CategoryRef, q: Quarter)
    requires k < |items| && !InBucket(items[k], c, q) && InBucket(moved, c, q)
    ensures multiset(Bucket(items[k := moved], c, q)) == multiset(Bucket(items, c, q) + [moved])
  {
    FilterUpdateMultiset(items, k, moved, IsInBucket(c, q));
    assert !IsInBucket(c, q)(items[k]) && IsInBucket(c, q)(moved);
  }

  /** Taking a card out of the cell's complement and into the cell leaves
      the complement as it was minus the card. */
  lemma OutsideUnchanged(items: seq<Item>, k: nat, moved: Item, c: CategoryRef, q: Quarter)
    requires k < |items| && !InBucket(items[k], c, q) && InBucket(moved, c, q)
    ensures OutsideBucket(items[k := moved], c, q) == OutsideBucket(items[..k] + items[k + 1..], c, q)
    ensures multiset(items[k := moved]) == multiset(items) - multiset{items[k]} + multiset{moved}
  {
    assert !IsOutsideBucket(c, q)(moved);
    FilterUpdateRejected(items, k, moved, IsOutsideBucket(c, q));
    UpdateMultiset(items, k, moved);
  }

  /** Read the way zone ids are built, a zone of the dragged card's own cell
      decodes to that cell whatever the category id holds, so the drop
      changes nothing. */
  lemma OwnZoneIsNoOp(s: State, active: Subject, c: string, confirmed: bool)
    requires active.kind == ItemSubject && active.id in Ids(s.items) && c in s.keys
    requires FirstWithId(s.items, active.id).value.category == Ref(c)
    ensures var dragged := FirstWithId(s.items, active.id).value;
      var zone := Target(ZoneId(c, dragged.quarter), OtherTarget);
      DragEnd(s, active, Some(zone), confirmed, Corrected) == []
  {
    var q := FirstWithId(s.items, active.id).value.quarter;
    ZoneIsNotDeleteZone(c, q, OtherTarget);
    ZoneRoundTrip(c, q, s.keys);
  }

  /** As written, a card in the Q1 cell of a category "A-Q2", dropped on
      that cell's own zone while a category "A" exists, leaves its cell for
      the Q2 cell of "A"; read the way the ids are built, the same drop
      changes nothing. */
  lemma OwnZoneMisroutes()
    ensures var card := Item("x", "", "", Q1, Ref("A-Q2"), "planned", "medium", 0);
      var s := State([card], map[], ["A", "A-Q2"], map[], ["A", "A-Q2"]);
      var active := Subject("x", ItemSubject);
      var zone := Target(ZoneId("A-Q2", Q1), OtherTarget);
      && Run(s, DragEnd(s, active, Some(zone), true, AsWritten)).items == [card.(category := Ref("A"), quarter := Q2)]
      && DragEnd(s, active, Some(zone), true, Corrected) == []
  {
    var card := Item("x", "", "", Q1, Ref("A-Q2"), "planned", "medium", 0);
    var s := State([card], map[], ["A", "A-Q2"], map[], ["A", "A-Q2"]);
    var active := Subject("x", ItemSubject);
    var zone := Target(ZoneId("A-Q2", Q1), OtherTarget);
    assert FirstWithId(s.items, "x") == Some(card) by {
      assert Ids(s.items) == ["x"];
    }
    AsWrittenMisroutes();
    ZoneIsNotDeleteZone("A-Q2", Q1, OtherTarget);
    ZoneDropCalls(s, card, zone, AsWritten);
    SoloAppend(s, card, Ref("A"), Q2);
    OwnZoneIsNoOp(s, active, "A-Q2", true);
  }

  /** A card dropped on a zone that decodes to another cell: the calls that
      move it into that cell and list it last. */
  lemma ZoneDropCalls(s: State, card: Item, t: Target, rule: ZoneRule)
    requires FirstWithId(s.items, card.id) == Some(card)
    requires t.kind == OtherTarget && !IsDeleteZone(Some(t))
    requires DecodeZoneBy(t.id, s.keys, rule).Some?
    requires var cell := DecodeZoneBy(t.id, s.keys, rule).value;
      !InBucket(card, Ref(cell.category), cell.quarter)
    ensures var cell := DecodeZoneBy(t.id, s.keys, rule).value;
      DragEnd(s, Subject(card.id, ItemSubject), Some(t), true, rule) == AppendToCell(s.items, card, Ref(cell.category), cell.quarter)
  {
  }

  /** The calls of a zone drop, with the card alone on the board: the card,
      now in the cell. */
  lemma SoloAppend(s: State, card: Item, c: CategoryRef, q: Quarter)
    requires s.items == [card] && !InBucket(card, c, q)
    ensures Run(s, AppendToCell(s.items, card, c, q)).items == [card.(category := c, quarter := q)]
  {
    var moved := card.(category := c, quarter := q);
    AppendToCellRuns(s, 0, c, q);
    var r := Run(s, AppendToCell(s.items, card, c, q));
    assert multiset(r.items) == multiset{moved};
    assert |r.items| == 1 && r.items[0] in multiset(r.items);
  }

  /** `reorderItems` sets the store at once, while `moveItem` and
      `updateItem` set it only after their database writes: the reorder of a
      zone drop lands first, while the card still sits in its old cell, and
      the card is listed twice. A card alone in A's Q1 cell dropped on A's Q2
      zone ends up as two items with its id; in program order it is one. */
  lemma ReorderFirstDuplicates()
    ensures var card := Item("x", "", "", Q1, Ref("A"), "planned", "medium", 0);
      var s := State([card], map[], ["A"], map[], ["A"]);
      var cmds := DragEnd(s, Subject("x", ItemSubject), Some(Target(ZoneId("A", Q2), OtherTarget)), true, AsWritten);
      && cmds == [MoveItemCmd("x", Q2), ReorderItemsCmd(Ref("A"), Q2, ["x"])]
      && Run(s, cmds).items == [card.(quarter := Q2)]
      && Run(s, [cmds[1], cmds[0]]).items == [card.(quarter := Q2), card.(quarter := Q2)]
  {
    var card := Item("x", "", "", Q1, Ref("A"), "planned", "medium", 0);
    var s := State([card], map[], ["A"], map[], ["A"]);
    SoloZoneDrop(s, card, "A", Q2);
    MoveThenReorder(s, card, Q2);
    ReorderThenMove(s, card, Q2);
  }

  /** A card alone on the board dropped, as written, on another quarter's
      zone of its own hyphen-free category: a move, then a reorder listing
      just the card. */
  lemma SoloZoneDrop(s: State, card: Item, c: string, q: Quarter)
    requires s.items == [card] && card.category == Ref(c) && card.quarter != q
    requires '-' !in c && c in s.keys
    ensures DragEnd(s, Subject(card.id, ItemSubject), Some(Target(ZoneId(c, q), OtherTarget)), true, AsWritten)
            == [MoveItemCmd(card.id, q), ReorderItemsCmd(Ref(c), q, [card.id])]
  {
    var active := Subject(card.id, ItemSubject);
    var zone := Target(ZoneId(c, q), OtherTarget);
    ZoneIsNotDeleteZone(c, q, OtherTarget);
    AsWrittenRoundTrip(c, q, s.keys);
    assert FirstWithId(s.items, card.id) == Some(card) by {
      assert Ids(s.items) == [card.id];
    }
    assert DragEnd(s, active, Some(zone), true, AsWritten) == ZoneDrop(s, card, zone.id, AsWritten);
    assert Bucket(s.items, Ref(c), q) == [];
    assert ZoneDrop(s, card, zone.id, AsWritten) == AppendToCell(s.items, card, Ref(c), q);
    assert MoveIntoCell(card, Ref(c), q) == [MoveItemCmd(card.id, q)];
    assert Ids(Bucket(s.items, Ref(c), q)) + [card.id] == [card.id];
  }

  /** One card moved to another quarter of its category, then listed in
      that cell: the card, once. */
  lemma MoveThenReorder(s: State, card: Item, q: Quarter)
    requires s.items == [card] && card.quarter != q
    ensures Run(s, [MoveItemCmd(card.id, q), ReorderItemsCmd(card.category, q, [card.id])]).items == [card.(quarter := q)]
  {
    var move := MoveItemCmd(card.id, q);
    var reorder := ReorderItemsCmd(card.category, q, [card.id]);
    assert [move, reorder] == [move] + [reorder];
    RunConcat(s, [move], [reorder]);
    UpdateOneRuns(s, 0, QuarterOnly(q));
    MoveOneRuns(s, 0, q);
    var s1 := s.(items := [card.(quarter := q)]);
    assert Run(s, [move]) == s1;
    RunReorder(s1, card.category, q, [card.id]);
    assert OutsideBucket(s1.items, card.category, q) == [];
  }

  /** One card listed in another quarter's cell of its category before it
      is moved there: the card, twice. */
  lemma ReorderThenMove(s: State, card: Item, q: Quarter)
    requires s.items == [card] && card.quarter != q
    ensures Run(s, [ReorderItemsCmd(card.category, q, [card.id]), MoveItemCmd(card.id, q)]).items
            == [card.(quarter := q), card.(quarter := q)]
  {
    var move := MoveItemCmd(card.id, q);
    var reorder := ReorderItemsCmd(card.category, q, [card.id]);
    assert [reorder, move] == [reorder] + [move];
    RunConcat(s, [reorder], [move]);
    RunReorder(s, card.category, q, [card.id]);
    assert OutsideBucket(s.items, card.category, q) == [card];
    assert LookupAll(s.items, [card.id]) == [card];
    var s2 := s.(items := [card, card]);
    assert Run(s, [reorder]) == s2;
    RunMove(s2, card.id, q);
    assert Map(s2.items, OverlayIfId(card.id, QuarterOnly(q))) == [card.(quarter := q), card.(quarter := q)];
  }
}
