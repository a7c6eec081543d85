/** The store actions a view handler calls, as values, and the state they
    leave behind when applied one after another. */
module Commands {
  import opened Roadmap
  import opened Actions

  datatype Command =
    | UpdateItemCmd(id: string, update: ItemUpdate)
    | MoveItemCmd(id: string, quarter: Quarter)
    | DeleteItemCmd(id: string)
    | ReorderItemsCmd(bucketCategory: CategoryRef, quarter: Quarter, orderedIds: seq<string>)
    | UpdateCategorySettingsCmd(category: string, settingsUpdate: SettingsUpdate)
    | AddCategoryCmd(category: string)
    | DeleteCategoryCmd(category: string)
    | ReorderCategoriesCmd(order: seq<string>)

  function Apply(s: State, cmd: Command): State {
    match cmd
    case UpdateItemCmd(id, u) => UpdateItem(s, id, u)
    case MoveItemCmd(id, q) => MoveItem(s, id, q)
    case DeleteItemCmd(id) => DeleteItem(s, id)
    case ReorderItemsCmd(c, q, ids) => ReorderItems(s, c, q, ids)
    case UpdateCategorySettingsCmd(c, u) => UpdateCategorySettings(s, c, u)
    case AddCategoryCmd(c) => AddCategory(s, c)
    case DeleteCategoryCmd(c) => DeleteCategory(s, c)
    case ReorderCategoriesCmd(o) => ReorderCategories(s, o)
  }

  /** The commands applied in program order. */
  function Run(s: State, cmds: seq<Command>): State
    decreases |cmds|
  {
    if cmds == [] then s else Run(Apply(s, cmds[0]), cmds[1..])
  }

  /** Running two batches is running their concatenation. */
  lemma {:induction false} RunConcat(s: State, a: seq<Command>, b: seq<Command>)
    ensures Run(s, a + b) == Run(Run(s, a), b)
    decreases |a|
  {
    if a == [] {
      assert a + b == b;
    } else {
      assert (a + b)[0] == a[0];
      assert (a + b)[1..] == a[1..] + b;
      RunConcat(Apply(s, a[0]), a[1..], b);
    }
  }

  /** Running one call is applying it. */
  lemma RunOne(s: State, cmd: Command)
    ensures Run(s, [cmd]) == Apply(s, cmd)
  {
    assert [cmd][1..] == [];
  }

  /** Running one `reorderItems` call. */
  lemma RunReorder(s: State, c: CategoryRef, q: Quarter, ids: seq<string>)
    ensures Run(s, [ReorderItemsCmd(c, q, ids)]) == ReorderItems(s, c, q, ids)
  {
    RunOne(s, ReorderItemsCmd(c, q, ids));
  }

  /** Running one `updateItem` call. */
  lemma RunUpdate(s: State, id: string, u: ItemUpdate)
    ensures Run(s, [UpdateItemCmd(id, u)]) == UpdateItem(s, id, u)
  {
    RunOne(s, UpdateItemCmd(id, u));
  }

  /** Running one `reorderCategories` call replaces the order and nothing else. */
  lemma RunReorderCategories(s: State, o: seq<string>)
    ensures Run(s, [ReorderCategoriesCmd(o)]) == s.(categoryOrder := o)
  {
    RunOne(s, ReorderCategoriesCmd(o));
  }

  /** Running one `moveItem` call. */
  lemma RunMove(s: State, id: string, q: Quarter)
    ensures Run(s, [MoveItemCmd(id, q)]) == MoveItem(s, id, q)
  {
    RunOne(s, MoveItemCmd(id, q));
  }
}
