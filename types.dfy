/** The roadmap's value types: quarters, items, the partial updates the store
    overlays onto them, card positions and per-category display settings. */
module Roadmap {

  datatype Option<+T> = None | Some(value: T)

  /** The four columns of the board, in display order. */
  datatype Quarter = Q1 | Q2 | Q3 | Q4

  const Quarters: seq<Quarter> := [Q1, Q2, Q3, Q4]

  /** The text a quarter is written as: its droppable id, its zone-id suffix
      and its heading in the report prompt. */
  function QuarterName(q: Quarter): (r: string)
    ensures |r| == 2 && r[0] == 'Q'
    ensures forall i :: 0 <= i < |Quarters| && Quarters[i] == q ==> r[1] == "1234"[i]
  {
    match q
    case Q1 => "Q1"
    case Q2 => "Q2"
    case Q3 => "Q3"
    case Q4 => "Q4"
  }

  /** `QUARTERS.includes(s)`: the quarter whose name is `s`, if any. */
  function ParseQuarter(s: string): (r: Option<Quarter>)
    ensures r.Some? ==> QuarterName(r.value) == s
    ensures r.None? ==> forall q: Quarter :: QuarterName(q) != s
  {
    if s == "Q1" then Some(Q1)
    else if s == "Q2" then Some(Q2)
    else if s == "Q3" then Some(Q3)
    else if s == "Q4" then Some(Q4)
    else None
  }

  /** An item's category. `Unassigned` is JavaScript's `undefined`, which the
      store writes when it takes the first key of an empty settings record. */
  datatype CategoryRef = Unassigned | Ref(id: string)

  /** A roadmap item with the fields the store writes when it creates one.
      An absent description is the empty string: every reader of the field
      treats the two alike. */
  datatype Item = Item(
    id: string,
    title: string,
    description: string,
    quarter: Quarter,
    category: CategoryRef,
    status: string,
    priority: string,
    progress: int)

  /** `Partial<RoadmapItem>`: the fields present in an update. */
  datatype ItemUpdate = ItemUpdate(
    id: Option<string>,
    title: Option<string>,
    description: Option<string>,
    quarter: Option<Quarter>,
    category: Option<CategoryRef>,
    status: Option<string>,
    priority: Option<string>,
    progress: Option<int>)

  const NoChange := ItemUpdate(None, None, None, None, None, None, None, None)

  /** The field of an update when it is present, else the current value. */
  function Pick<T>(u: Option<T>, current: T): T {
    if u.Some? then u.value else current
  }

  /** `{ ...item, ...u }`: every field present in `u` replaces the item's. */
  function Overlay(item: Item, u: ItemUpdate): (r: Item)
    ensures u == NoChange ==> r == item
    ensures r.id == (if u.id.Some? then u.id.value else item.id)
    ensures r.title == (if u.title.Some? then u.title.value else item.title)
    ensures r.description == (if u.description.Some? then u.description.value else item.description)
    ensures r.quarter == (if u.quarter.Some? then u.quarter.value else item.quarter)
    ensures r.category == (if u.category.Some? then u.category.value else item.category)
    ensures r.status == (if u.status.Some? then u.status.value else item.status)
    ensures r.priority == (if u.priority.Some? then u.priority.value else item.priority)
    ensures r.progress == (if u.progress.Some? then u.progress.value else item.progress)
  {
    Item(Pick(u.id, item.id), Pick(u.title, item.title),
         Pick(u.description, item.description), Pick(u.quarter, item.quarter),
         Pick(u.category, item.category), Pick(u.status, item.status),
         Pick(u.priority, item.priority), Pick(u.progress, item.progress))
  }

  datatype Position = Position(x: int, y: int)

  datatype CategorySettings = CategorySettings(name: string, color: string, textColor: string)

  /** `Partial<CategorySettings>`. */
  datatype SettingsUpdate = SettingsUpdate(name: Option<string>, color: Option<string>, textColor: Option<string>)

  /** `{ ...settings, ...u }`: every field present in `u` replaces the old one. */
  function OverlaySettings(s: CategorySettings, u: SettingsUpdate): (r: CategorySettings)
    ensures u.name.Some? ==> r.name == u.name.value
    ensures u.name.None? ==> r.name == s.name
    ensures u.color.Some? ==> r.color == u.color.value
    ensures u.color.None? ==> r.color == s.color
    ensures u.textColor.Some? ==> r.textColor == u.textColor.value
    ensures u.textColor.None? ==> r.textColor == s.textColor
  {
    CategorySettings(Pick(u.name, s.name), Pick(u.color, s.color), Pick(u.textColor, s.textColor))
  }
}
