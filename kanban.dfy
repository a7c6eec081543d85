/** The kanban board: four quarter columns over the item list, and a drop
    rule that moves a card to the column it lands on. */
module Kanban {
  import opened Roadmap
  import opened Seqs
  import opened Actions
  import opened Commands
  import Store

  /** The store calls a drop issues. Columns register their quarter name as
      their droppable id, so a drop acts exactly when the target id is one
      of Q1..Q4; any other target (a card, say) and no target do nothing. */
  function KanbanDrop(itemId: string, over: Option<string>): (r: seq<Command>)
    ensures forall q :: over == Some(QuarterName(q)) ==> r == [MoveItemCmd(itemId, q)]
    ensures (over.None? || forall q :: QuarterName(q) != over.value) ==> r == []
  {
    if over.None? then []
    else match ParseQuarter(over.value)
      case Some(q) => [MoveItemCmd(itemId, q)]
      case None => []
  }

  /** A drop on a column moves the card there and changes nothing else: the
      other fields of the card, the other cards, and the rest of the store. */
  lemma DropOnColumnMoves(s: State, id: string, q: Quarter)
    ensures var r := Run(s, KanbanDrop(id, Some(QuarterName(q))));
      && |r.items| == |s.items|
      && (forall i :: 0 <= i < |s.items| && s.items[i].id == id ==> r.items[i] == s.items[i].(quarter := q))
      && (forall i :: 0 <= i < |s.items| && s.items[i].id != id ==> r.items[i] == s.items[i])
      && r == s.(items := r.items)
  {
    assert ParseQuarter(QuarterName(q)) == Some(q);
    RunMove(s, id, q);
  }

  /** A target whose id is not a quarter name leaves the store as it was. */
  lemma DropElsewhereIsNoOp(s: State, id: string, over: Option<string>)
    requires over.None? || forall q :: QuarterName(q) != over.value
    ensures Run(s, KanbanDrop(id, over)) == s
  {
  }

  function InQuarter(q: Quarter): Item -> bool {
    (it: Item) => it.quarter == q
  }

  /** One column's cards: `items.filter(item => item.quarter === quarter)`. */
  function Column(items: seq<Item>, q: Quarter): seq<Item> {
    Filter(items, InQuarter(q))
  }

  /** The four columns, in Q1..Q4 order. */
  function Columns(items: seq<Item>): (r: seq<seq<Item>>)
    ensures |r| == 4 && forall i :: 0 <= i < 4 ==> r[i] == Column(items, Quarters[i])
  {
    [Column(items, Q1), Column(items, Q2), Column(items, Q3), Column(items, Q4)]
  }

  /** A card is in a column exactly when it is an item of that quarter. */
  lemma ColumnMember(items: seq<Item>, q: Quarter, x: Item)
    ensures x in Column(items, q) <==> x in items && x.quarter == q
  {
    FilterMember(items, InQuarter(q), x);
  }

  /** The columns partition the items: together they hold each item as many
      times as `items` does. */
  lemma {:induction false} ColumnsPartition(items: seq<Item>)
    ensures multiset(Column(items, Q1)) + multiset(Column(items, Q2))
            + multiset(Column(items, Q3)) + multiset(Column(items, Q4)) == multiset(items)
  {
    if items != [] {
      var x, rest := items[0], items[1..];
      ColumnsPartition(rest);
      HeadTail(items);
      assert multiset(items) == multiset{x} + multiset(rest);
      ColumnCons(items, Q1);
      ColumnCons(items, Q2);
      ColumnCons(items, Q3);
      ColumnCons(items, Q4);
    }
  }

  /** Splitting the first item off: it joins its own quarter's column. */
  lemma ColumnCons(items: seq<Item>, q: Quarter)
    requires items != []
    ensures multiset(Column(items, q))
            == (if items[0].quarter == q then multiset{items[0]} else multiset{}) + multiset(Column(items[1..], q))
  {
    FilterCons(items, InQuarter(q));
  }

  /** Columns keep array order: the columns of any prefix of `items` are
      prefixes of the full columns, so a card listed earlier is shown
      higher. */
  lemma ColumnKeepsOrder(items: seq<Item>, n: nat, q: Quarter)
    requires n <= |items|
    ensures Column(items[..n], q) <= Column(items, q)
  {
    assert items == items[..n] + items[n..];
    FilterConcat(items[..n], items[n..], InQuarter(q));
  }

  /** The board's drag state and its handlers. */
  class KanbanBoard {
    const store: Store.RoadmapStore
    /** The `activeId` state: the card being dragged, if any. */
    var activeId: Option<string>

    constructor (s: Store.RoadmapStore)
      ensures store == s && activeId == None
    {
      store := s;
      activeId := None;
    }

    /** `handleDragStart`. */
    method HandleDragStart(id: string)
      modifies this
      ensures activeId == Some(id)
    {
      activeId := Some(id);
    }

    /** `handleDragEnd`: clears the drag, then moves the card if it landed on
        a column. */
    method HandleDragEnd(itemId: string, over: Option<string>)
      modifies this, store
      ensures activeId == None
      ensures store.Snapshot() == Run(old(store.Snapshot()), KanbanDrop(itemId, over))
      ensures store.Valid() == old(store.Valid())
    {
      activeId := None;
      if over.None? {
        return;
      }
      var toQuarter := ParseQuarter(over.value);
      if toQuarter.Some? {
        ghost var s0 := store.Snapshot();
        store.MoveItem(itemId, toQuarter.value);
        RunMove(s0, itemId, toQuarter.value);
      }
    }

    /** `handleDragCancel`: clears the drag and leaves the store alone. */
    method HandleDragCancel()
      modifies this
      ensures activeId == None
      ensures store.Snapshot() == old(store.Snapshot())
    {
      activeId := None;
    }
  }
}
