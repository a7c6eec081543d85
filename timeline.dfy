/** The pure parts of the timeline view: the quarter labels, the lanes it
    draws, the id a new category gets, the inline editors' blur rule, and the
    store calls a finished drag issues. */
module Timeline {
  import opened Roadmap
  import opened Seqs
  import opened Text
  import opened Actions
  import opened Commands
  import opened Zones

  // ------------------------------------------------------- quarter labels

  const Months: seq<string> :=
    ["Jan", "Feb", "Mar", "Apr", "May", "Jun", "Jul", "Aug", "Sep", "Oct", "Nov", "Dec"]

  function QuarterIndex(q: Quarter): (i: nat)
    ensures i < 4 && Quarters[i] == q
  {
    match q
    case Q1 => 0
    case Q2 => 1
    case Q3 => 2
    case Q4 => 3
  }

  /** `format(q)`: the quarter's first and last month. */
  function Format(q: Quarter): (r: string)
    ensures r == Months[3 * QuarterIndex(q)] + " - " + Months[3 * QuarterIndex(q) + 2]
  {
    match q
    case Q1 => "Jan - Mar"
    case Q2 => "Apr - Jun"
    case Q3 => "Jul - Sep"
    case Q4 => "Oct - Dec"
  }

  // ---------------------------------------------------------------- lanes

  datatype Lane = Lane(category: string, settings: CategorySettings, items: seq<Item>)

  function HasSettings(settings: map<string, CategorySettings>): string -> bool {
    (c: string) => c in settings
  }

  /** `itemsByCategory`: one lane per `categoryOrder` entry that has settings,
      in that order, holding that category's items in `items` order. */
  function Lanes(order: seq<string>, settings: map<string, CategorySettings>, items: seq<Item>): seq<Lane> {
    if order == [] then []
    else
      var rest := Lanes(order[1..], settings, items);
      if order[0] in settings then [Lane(order[0], settings[order[0]], Filter(items, InCategory(order[0])))] + rest
      else rest
  }

  /** The lanes are the listed categories with settings, each with its
      settings and its items. */
  lemma {:induction false} LanesFollowOrder(order: seq<string>, settings: map<string, CategorySettings>, items: seq<Item>)
    ensures var r := Lanes(order, settings, items);
      && |r| == |Filter(order, HasSettings(settings))|
      && forall i :: 0 <= i < |r| ==>
        && r[i].category == Filter(order, HasSettings(settings))[i]
        && r[i].category in settings && r[i].settings == settings[r[i].category]
        && r[i].items == Filter(items, InCategory(r[i].category))
  {
    if order != [] {
      LanesFollowOrder(order[1..], settings, items);
      var rest := Lanes(order[1..], settings, items);
      var listed := Filter(order[1..], HasSettings(settings));
      if order[0] in settings {
        var r := Lanes(order, settings, items);
        var all := Filter(order, HasSettings(settings));
        assert HasSettings(settings)(order[0]);
        assert all == [order[0]] + listed;
        forall i | 1 <= i < |r|
          ensures r[i] == rest[i - 1] && all[i] == listed[i - 1]
        {
        }
      } else {
        assert !HasSettings(settings)(order[0]);
        assert Filter(order, HasSettings(settings)) == listed;
      }
    }
  }

  function ItemsByCategory(s: State): seq<Lane> {
    Lanes(s.categoryOrder, s.settings, s.items)
  }

  /** An item is drawn in some lane exactly when its category is listed in
      `categoryOrder` and has settings. */
  lemma ItemShownIff(s: State, x: Item)
    requires x in s.items
    ensures (exists i :: 0 <= i < |ItemsByCategory(s)| && x in ItemsByCategory(s)[i].items)
        <==> (exists c :: x.category == Ref(c) && c in s.categoryOrder && c in s.settings)
  {
    var lanes := ItemsByCategory(s);
    var listed := Filter(s.categoryOrder, HasSettings(s.settings));
    LanesFollowOrder(s.categoryOrder, s.settings, s.items);
    if exists i :: 0 <= i < |lanes| && x in lanes[i].items {
      var i :| 0 <= i < |lanes| && x in lanes[i].items;
      assert lanes[i].category in listed;
      FilterMember(s.categoryOrder, HasSettings(s.settings), lanes[i].category);
      FilterMember(s.items, InCategory(lanes[i].category), x);
    }
    if exists c :: x.category == Ref(c) && c in s.categoryOrder && c in s.settings {
      var c :| x.category == Ref(c) && c in s.categoryOrder && c in s.settings;
      FilterMember(s.categoryOrder, HasSettings(s.settings), c);
      var i :| 0 <= i < |listed| && listed[i] == c;
      FilterMember(s.items, InCategory(c), x);
      assert x in lanes[i].items;
    }
  }

  // ---------------------------------------------------------- new category

  /** `AddCategoryButton.handleAdd`: a blank input adds nothing; otherwise the
      id is the input (untrimmed) upper-cased, each run of white space made one
      '_'. */
  function CategoryIdFromInput(input: string): Option<string> {
    if Trim(input) == [] then None else Some(ReplaceSpaceRuns(ToUpper(input), '_'))
  }

  function AddCategoryCommands(input: string): seq<Command> {
    match CategoryIdFromInput(input)
    case None => []
    case Some(c) => [AddCategoryCmd(c)]
  }

  predicate NoLowerCase(s: string) {
    forall i :: 0 <= i < |s| ==> !('a' <= s[i] <= 'z')
  }

  /** Upper-casing leaves no lower-case letter, and replacing white space
      with '_' adds none. */
  lemma NormalisedHasNoLowerCase(input: string)
    ensures NoLowerCase(ReplaceSpaceRuns(ToUpper(input), '_'))
  {
    var up := ToUpper(input);
    var c := ReplaceSpaceRuns(up, '_');
    ReplaceSpaceRunsChars(up, '_');
    assert forall ch :: ch in up ==> !('a' <= ch <= 'z');
    forall i | 0 <= i < |c| ensures !('a' <= c[i] <= 'z') {
      assert c[i] in c;
    }
  }

  /** An id without white space or lower-case letters normalises to itself. */
  lemma NormalisedIsFixed(c: string)
    requires c != [] && NoSpace(c) && NoLowerCase(c)
    ensures CategoryIdFromInput(c) == Some(c)
  {
    assert IsTrimmed(c);
    TrimOfTrimmed(c);
    assert ToUpper(c) == c;
    ReplaceSpaceRunsNoSpace(c, '_');
  }

  /** Blank input is refused; any other input gives a non-empty id without
      white space or lower-case letters, which normalises to itself. */
  lemma CategoryIdShape(input: string)
    ensures CategoryIdFromInput(input).None? <==> IsBlank(input)
    ensures AddCategoryCommands(input) == [] <==> IsBlank(input)
    ensures CategoryIdFromInput(input).Some? ==>
      var c := CategoryIdFromInput(input).value;
      c != [] && NoSpace(c) && NoLowerCase(c) && CategoryIdFromInput(c) == Some(c)
  {
    TrimEmptyIffBlank(input);
    if !IsBlank(input) {
      var c := ReplaceSpaceRuns(ToUpper(input), '_');
      assert input != [];
      ReplaceSpaceRunsLeavesNoSpace(ToUpper(input), '_');
      NormalisedHasNoLowerCase(input);
      NormalisedIsFixed(c);
    }
  }

  // ------------------------------------------------------ inline editors

  /** The value an inline editor shows after blur: the draft, as typed, when
      it is not blank, else the saved value again. */
  function BlurValue(draft: string, saved: string): (r: string)
    ensures !IsBlank(draft) ==> r == draft
    ensures IsBlank(draft) ==> r == saved
    ensures Trim(r) != [] || r == saved
  {
    TrimEmptyIffBlank(draft);
    if Trim(draft) != [] then draft else saved
  }

  /** The card title editor's `handleBlur`. */
  function TitleBlur(id: string, draft: string): seq<Command> {
    if Trim(draft) != [] then [UpdateItemCmd(id, NoChange.(title := Some(draft)))] else []
  }

  /** The lane name editor's `handleBlur`. */
  function NameBlur(c: string, draft: string): seq<Command> {
    if Trim(draft) != [] then [UpdateCategorySettingsCmd(c, SettingsUpdate(Some(draft), None, None))] else []
  }

  /** After a title blur the store holds the title the card shows. */
  lemma TitleBlurStoresShown(s: State, i: nat, draft: string)
    requires i < |s.items|
    ensures var r := Run(s, TitleBlur(s.items[i].id, draft));
      && |r.items| == |s.items|
      && r.items[i] == s.items[i].(title := BlurValue(draft, s.items[i].title))
      && (forall j :: 0 <= j < |s.items| && s.items[j].id != s.items[i].id ==> r.items[j] == s.items[j])
      && r == s.(items := r.items)
  {
    if Trim(draft) != [] {
      RetitleRuns(s, i, draft);
    }
  }

  /** Running the retitle command on a card changes that card's title and
      no other card. */
  lemma RetitleRuns(s: State, i: nat, title: string)
    requires i < |s.items|
    ensures var r := Run(s, [UpdateItemCmd(s.items[i].id, NoChange.(title := Some(title)))]);
      && |r.items| == |s.items|
      && r.items[i] == s.items[i].(title := title)
      && (forall j :: 0 <= j < |s.items| && s.items[j].id != s.items[i].id ==> r.items[j] == s.items[j])
      && r == s.(items := r.items)
  {
    var id := s.items[i].id;
    var u := NoChange.(title := Some(title));
    RunUpdate(s, id, u);
    var r := UpdateItem(s, id, u);
    assert r.items[i] == Overlay(s.items[i], u);
  }

  /** After a name blur the store holds the name the lane shows. */
  lemma NameBlurStoresShown(s: State, c: string, draft: string)
    requires c in s.settings
    ensures var r := Run(s, NameBlur(c, draft));
      && (forall k :: k in r.settings <==> k in s.settings)
      && r.settings[c] == s.settings[c].(name := BlurValue(draft, s.settings[c].name))
      && r == s.(settings := s.settings[c := s.settings[c].(name := BlurValue(draft, s.settings[c].name))])
  {
    if Trim(draft) != [] {
      RenameRuns(s, c, draft);
    }
  }

  /** Running the rename command on a known category changes that record's
      name only. */
  lemma RenameRuns(s: State, c: string, name: string)
    requires c in s.settings
    ensures var r := Run(s, [UpdateCategorySettingsCmd(c, SettingsUpdate(Some(name), None, None))]);
      && (forall k :: k in r.settings <==> k in s.settings)
      && r.settings[c] == s.settings[c].(name := name)
      && r == s.(settings := s.settings[c := s.settings[c].(name := name)])
  {
    var cmd := UpdateCategorySettingsCmd(c, SettingsUpdate(Some(name), None, None));
    RunOne(s, cmd);
  }

  // ------------------------------------------------------------- dragging

  datatype SubjectKind = ItemSubject | CategorySubject

  /** `active`: the dragged card or lane header, by id and `data.type`. */
  datatype Subject = Subject(id: string, kind: SubjectKind)

  datatype TargetKind = ItemTarget | OtherTarget

  /** `over`: the droppable under the pointer, by id and whether its
      `data.type` is 'item'. */
  datatype Target = Target(id: string, kind: TargetKind)

  const DeleteZoneLeft := "delete-zone-left"
  const DeleteZoneRight := "delete-zone-right"

  predicate IsDeleteZone(over: Option<Target>) {
    over.Some? && (over.value.id == DeleteZoneLeft || over.value.id == DeleteZoneRight)
  }

  /** No cell's zone id is a delete zone's: a zone id ends in a quarter's
      digit. */
  lemma ZoneIsNotDeleteZone(c: string, q: Quarter, kind: TargetKind)
    ensures !IsDeleteZone(Some(Target(ZoneId(c, q), kind)))
  {
    var z := ZoneId(c, q);
    assert z[|z| - 1] == QuarterName(q)[1];
    assert q == Quarters[0] || q == Quarters[1] || q == Quarters[2] || q == Quarters[3];
    assert DeleteZoneLeft[|DeleteZoneLeft| - 1] == 't' && DeleteZoneRight[|DeleteZoneRight| - 1] == 't';
  }

  /** `items.find(item => item.id === id)`: the first item with the id. */
  function FirstWithId(items: seq<Item>, id: string): (r: Option<Item>)
    ensures r.None? <==> id !in Ids(items)
    ensures r.Some? ==> r.value == items[IndexOf(Ids(items), id)] && r.value.id == id
  {
    var i := IndexOf(Ids(items), id);
    if i == -1 then None else Some(items[i])
  }

  function CategoryOnly(c: CategoryRef): ItemUpdate {
    NoChange.(category := Some(c))
  }

  /** A drop on either delete zone: a confirmed item is deleted; a category
      is deleted if confirmed and it is not the last one. */
  function DeleteZoneDrop(s: State, active: Subject, dragged: Option<Item>, confirmed: bool): seq<Command> {
    if active.kind == ItemSubject then
      if dragged.Some? && confirmed then [DeleteItemCmd(dragged.value.id)] else []
    else if |s.categoryOrder| <= 1 then []
    else if confirmed then [DeleteCategoryCmd(active.id)]
    else []
  }

  /** A lane header dropped on another: `arrayMove` over `categoryOrder`. */
  function CategoryDrop(order: seq<string>, activeId: string, overId: string): seq<Command> {
    var oldIndex := IndexOf(order, activeId);
    var newIndex := IndexOf(order, overId);
    if oldIndex != newIndex && oldIndex != -1 && newIndex != -1 then
      [ReorderCategoriesCmd(ArrayMove(order, oldIndex, newIndex))]
    else []
  }

  predicate SameCell(a: Item, b: Item) {
    a.category == b.category && a.quarter == b.quarter
  }

  /** A card dropped on a card: reorder within the cell, or take over the
      other card's category and quarter. */
  function CardDrop(items: seq<Item>, dragged: Item, overId: string): seq<Command> {
    match FirstWithId(items, overId)
    case None => []
    case Some(overItem) =>
      if SameCell(dragged, overItem) then
        var zone := Bucket(items, overItem.category, overItem.quarter);
        var oldIndex := IndexOf(Ids(zone), dragged.id);
        var newIndex := IndexOf(Ids(zone), overId);
        if oldIndex != -1 && newIndex != -1 then
          [ReorderItemsCmd(overItem.category, overItem.quarter, Ids(ArrayMove(zone, oldIndex, newIndex)))]
        else []
      else TakeOverCell(dragged, overItem)
  }

  /** The calls that give `dragged` the category and quarter of `overItem`,
      each only if it differs. */
  function TakeOverCell(dragged: Item, overItem: Item): seq<Command> {
    (if dragged.category != overItem.category then [UpdateItemCmd(dragged.id, CategoryOnly(overItem.category))] else [])
    + (if dragged.quarter != overItem.quarter then [MoveItemCmd(dragged.id, overItem.quarter)] else [])
  }

  /** A card dropped on a zone of another cell: move, re-tag, and append it
      after the cell's current items. */
  function ZoneDrop(s: State, dragged: Item, overId: string, rule: ZoneRule): seq<Command> {
    match DecodeZoneBy(overId, s.keys, rule)
    case None => []
    case Some(Cell(c, q)) =>
      if dragged.quarter != q || dragged.category != Ref(c) then AppendToCell(s.items, dragged, Ref(c), q)
      else []
  }

  /** Move the card into the cell, re-tag it if needed, then list it after
      the cell's items as they were before the drop. */
  function AppendToCell(items: seq<Item>, dragged: Item, c: CategoryRef, q: Quarter): seq<Command> {
    MoveIntoCell(dragged, c, q) + [ReorderItemsCmd(c, q, Ids(Bucket(items, c, q)) + [dragged.id])]
  }

  function MoveIntoCell(dragged: Item, c: CategoryRef, q: Quarter): seq<Command> {
    [MoveItemCmd(dragged.id, q)] + (if dragged.category != c then [UpdateItemCmd(dragged.id, CategoryOnly(c))] else [])
  }

  /** `handleDragEnd`: the store calls, in program order, for a drag of
      `active` ending over `over`; `confirmed` is the answer `window.confirm`
      would give, and `rule` the reading of a zone id. */
  function DragEnd(s: State, active: Subject, over: Option<Target>, confirmed: bool, rule: ZoneRule): seq<Command> {
    var dragged := FirstWithId(s.items, active.id);
    if IsDeleteZone(over) then DeleteZoneDrop(s, active, dragged, confirmed)
    else if over.None? then []
    else if active.kind == CategorySubject then CategoryDrop(s.categoryOrder, active.id, over.value.id)
    else if dragged.None? then []
    else if over.value.kind == ItemTarget then CardDrop(s.items, dragged.value, over.value.id)
    else ZoneDrop(s, dragged.value, over.value.id, rule)
  }
}
