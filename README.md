# Roadmap: store, drag handling, report prompt and list fields

A model of the core of a product-roadmap web app. Items carry a title, a
description and a quarter (Q1..Q4). They are grouped into categories shown as
lanes.

The model covers five parts:

- **The roadmap store.** It holds four fields: `items`, `positions`,
  `categorySettings` and `categoryOrder`. Every action overwrites some of them.
  - `Actions` gives each action as a function from state to state.
  - `Store.RoadmapStore` is a class with those fields. Each of its methods is
    proved to leave exactly the state the matching function computes.
  - `categorySettings` is a JavaScript object whose key order matters:
    `Object.keys(...)[0]` picks the category of a new item and the fallback
    when a category is deleted. It is held as its keys in insertion order
    plus a map.
- **The timeline board's drag handling.**
  - `Timeline.DragEnd` lists the store calls a finished drag issues, in
    program order.
  - `Commands.Run` applies such a list.
  - `TimelineView.TimelineBoard` is the handler object. Its `HandleDragEnd`
    is proved to leave the store as running that list would.
  - Also modelled: the lanes the board draws, the ids of its drop zones, the
    id a new category gets, the quarter labels and the inline editors' blur
    rule.
- **The kanban board.** Four quarter columns over the item list. A drop
  moves the card to the column it lands on.
- **The report prompt.** The roadmap is projected to one entry per
  `categorySettings` key. That projection is then written out by three nested
  `+=` loops, modelled as methods proved against the text function
  `Prompt.PromptText`.
- **The item form's list fields.** Assignees, dependencies and tags are shown
  joined with ", ". What is typed into them is split at commas, trimmed, and
  the empty pieces are dropped.

`arrayMove` is `@dnd-kit/sortable`'s, which is not part of this model. It is
defined here by its documented behaviour: take the element at `from` out and
insert it at `to`.

## Model

| member | source | states |
|---|---|---|
| Roadmap.QuarterName | src/types/roadmap.ts:1 | a quarter is written as "Q" followed by its column number 1..4, so different quarters have different names |
| Roadmap.ParseQuarter | src/components/KanbanView/KanbanView.tsx:51 | `QUARTERS.includes(s)`: finds the quarter named `s`, and finds none exactly when no quarter has that name |
| Roadmap.Overlay | src/store/roadmapStore.ts:624 | `{ ...item, ...updates }`: each field present in the update replaces the item's, every absent one is kept; an empty update changes nothing |
| Roadmap.OverlaySettings | src/store/roadmapStore.ts:679-682 | each settings field present in the update replaces the old one, each absent one is kept |
| Actions.LastWithId | src/store/roadmapStore.ts:661 | the id-to-item map gives an item of `items` with that id, and gives nothing only when no item has it |
| Actions.LastWithIdIsLast | src/store/roadmapStore.ts:661 | a later entry of the map overwrites an earlier one: the item found has no later item with the same id |
| Actions.LookupAll | src/store/roadmapStore.ts:665-667 | the ids are looked up in order and unknown ids dropped: one item per known id, each an item of `items` whose id was listed |
| Actions.AddEmptyItem | src/store/roadmapStore.ts:593-618 | the state `addEmptyItem` leaves |
| Actions.UpdateItem | src/store/roadmapStore.ts:620-627 | the state `updateItem` leaves |
| Actions.UpdatePosition | src/store/roadmapStore.ts:629-637 | the state `updatePosition` leaves |
| Actions.MoveItem | src/store/roadmapStore.ts:639-646 | the state `moveItem` leaves |
| Actions.DeleteItem | src/store/roadmapStore.ts:648-657 | the state `deleteItem` leaves |
| Actions.ReorderItems | src/store/roadmapStore.ts:659-672 | the state `reorderItems` leaves |
| Actions.UpdateCategorySettings | src/store/roadmapStore.ts:674-685 | the state `updateCategorySettings` leaves |
| Actions.ColorFor | src/store/roadmapStore.ts:704-705 | the first palette colour not in use, else "bg-slate-400" |
| Actions.AddCategory | src/store/roadmapStore.ts:687-722 | the state `addCategory` leaves |
| Actions.DeleteCategory | src/store/roadmapStore.ts:724-739 | the state `deleteCategory` leaves |
| Actions.ReorderCategories | src/store/roadmapStore.ts:741-746 | the state `reorderCategories` leaves |
| Actions.FirstFreeIndexFinds | src/store/roadmapStore.ts:705 | `colors.find` stops at the first unused colour: every colour before it is used, and the one it stops at is not |
| Actions.DisplayName | src/store/roadmapStore.ts:708 | the name keeps the first character, lower-cases the rest and turns each '_' into ' ' |
| Store.RoadmapStore.constructor | src/store/roadmapStore.ts:563-568 | the store starts with no items, positions, settings or order |
| Store.RoadmapStore.AddEmptyItem | src/store/roadmapStore.ts:593-618 | returns the supplied id and leaves the `addEmptyItem` state; keeps the settings well formed and, with a fresh id, item ids unique |
| Store.RoadmapStore.UpdateItem | src/store/roadmapStore.ts:620-627 | leaves the `updateItem` state; an update that does not set `id` keeps the id sequence |
| Store.RoadmapStore.UpdatePosition | src/store/roadmapStore.ts:629-637 | records the position under the id and leaves the items alone |
| Store.RoadmapStore.MoveItem | src/store/roadmapStore.ts:639-646 | leaves the `moveItem` state; the id sequence is unchanged |
| Store.RoadmapStore.DeleteItem | src/store/roadmapStore.ts:648-657 | leaves the `deleteItem` state: no item and no position with the id remain; unique ids stay unique |
| Store.RoadmapStore.ReorderItems | src/store/roadmapStore.ts:659-672 | leaves the `reorderItems` state; given a permutation of the cell's ids, the items are permuted and the cell lists them in the given order |
| Store.RoadmapStore.UpdateCategorySettings | src/store/roadmapStore.ts:674-685 | leaves the `updateCategorySettings` state; the category then has settings, and well-formed settings stay well formed |
| Store.RoadmapStore.AddCategory | src/store/roadmapStore.ts:687-722 | leaves the `addCategory` state; the category then has settings, and well-formed settings stay well formed |
| Store.RoadmapStore.DeleteCategory | src/store/roadmapStore.ts:724-739 | leaves the `deleteCategory` state: the category has no settings and no order entry left |
| Store.RoadmapStore.ReorderCategories | src/store/roadmapStore.ts:741-746 | the order becomes the given sequence, whatever it holds |
| StoreLaws.AddEmptyItemAppends | src/store/roadmapStore.ts:593-618 | exactly one item is appended: the given id, "New Item", empty description, Q1, the first settings key (or none), progress 0; its position is (0, 0); nothing else changes |
| StoreLaws.AddEmptyItemKeepsIdsUnique | src/store/roadmapStore.ts:594-610 | with a fresh id, item ids stay unique |
| StoreLaws.UpdateItemOverlaysMatching | src/store/roadmapStore.ts:620-627 | the update is overlaid on exactly the items with the id; length, order, other items and the other fields are unchanged |
| StoreLaws.UpdateItemAbsentIdIsNoOp | src/store/roadmapStore.ts:622-626 | an update for an id no item has changes nothing |
| StoreLaws.MoveItemSetsOnlyQuarter | src/store/roadmapStore.ts:639-646 | the matching items get the quarter and nothing else changes |
| StoreLaws.UpdateItemKeepsIds | src/store/roadmapStore.ts:622-626 | an update without `id` keeps every item's id |
| StoreLaws.DeleteItemRemovesId | src/store/roadmapStore.ts:648-657 | exactly the items with the id are dropped, counting duplicates; the positions lose exactly that id; keys, settings and order are unchanged |
| StoreLaws.DeleteItemDropsOne | src/store/roadmapStore.ts:652 | with unique ids, deleting the item at index k leaves the items before and after it, in order |
| StoreLaws.DeleteItemKeepsIdsUnique | src/store/roadmapStore.ts:652 | deleting keeps ids unique |
| StoreLaws.FilterIdsUnique | src/store/roadmapStore.ts:652 | any filter of items with unique ids has unique ids |
| StoreLaws.LastWithIdFindsUnique | src/store/roadmapStore.ts:661-666 | with unique ids, looking up an item's id finds that item |
| StoreLaws.LookupAllConcat | src/store/roadmapStore.ts:665-667 | looking up two id lists one after the other is looking up their concatenation |
| StoreLaws.LookupAllAt | src/store/roadmapStore.ts:665-667 | the lookup of an id list is, up to order, the lookup of one id plus the lookup of the others |
| StoreLaws.LookupAllPermutation | src/store/roadmapStore.ts:665-667 | permuted ids look up permuted items |
| StoreLaws.LookupOwnIds | src/store/roadmapStore.ts:661-667 | with unique ids, looking up the ids of some items gives back those items in that order |
| StoreLaws.LookupBucketPermutes | src/store/roadmapStore.ts:661-667 | looking up a permutation of a cell's ids gives a permutation of the cell's items, all in the cell |
| StoreLaws.ReorderItemsPermutes | src/store/roadmapStore.ts:659-672 | for a permutation of the cell's ids: no item is gained or lost; the cell holds the looked-up items in the given order; the items outside keep their order |
| StoreLaws.ReorderSplit | src/store/roadmapStore.ts:662-669 | the result of `reorderItems` splits back into the items outside the cell and those in it |
| StoreLaws.ReorderWithOwnItems | src/store/roadmapStore.ts:659-672 | reordering by the ids of a rearrangement of the cell's items puts exactly that rearrangement in the cell, after the other items |
| StoreLaws.ReorderItemsDropsUnlisted | src/store/roadmapStore.ts:662-669 | a cell item whose id is not listed disappears; the length counts the outside items plus the known listed ids |
| StoreLaws.AddCategoryKnownIsNoOp | src/store/roadmapStore.ts:689 | adding a category that has settings changes nothing |
| StoreLaws.AddCategoryAppends | src/store/roadmapStore.ts:687-722 | a new category is appended once to the keys and the order; its colour is the first unused palette colour, or "bg-slate-400" exactly when all are used; it gets its display name and "text-black"; items and positions are untouched |
| StoreLaws.AddCategoryKeepsWellFormed | src/store/roadmapStore.ts:715-721 | adding a category keeps the key sequence and the settings map in step |
| StoreLaws.UpdateCategorySettingsOnlyThat | src/store/roadmapStore.ts:674-685 | only that category's record changes; an unknown category is created and its key appended; well-formedness is kept |
| StoreLaws.DeleteCategoryRemoves | src/store/roadmapStore.ts:724-739 | the settings lose exactly the category; the keys and the order lose every entry of it and keep the others in their old order; exactly its items move to the first remaining key, in place; positions are unchanged |
| StoreLaws.DeleteCategoryFallback | src/store/roadmapStore.ts:734 | the fallback is the first key in insertion order other than the deleted one, not the first lane |
| StoreLaws.DeleteCategoryShrinksByOne | src/store/roadmapStore.ts:727-728 | deleting a present category removes exactly one key and one record |
| StoreLaws.ReorderCategoriesIdempotent | src/store/roadmapStore.ts:741-746 | the order is taken verbatim, so reordering twice with the same order is reordering once, and nothing else changes |
| Seqs.IndexOf | src/components/TimelineView.tsx:807-808 | `indexOf`: -1 exactly when absent, else the first index holding the value |
| Seqs.ArrayMove | src/components/TimelineView.tsx:812 | `arrayMove`: same length and multiset; the moved element sits at `to`, and removing it there gives the sequence with `from` removed |
| Seqs.ArrayMoveSameIndex | src/components/TimelineView.tsx:812 | moving an element to its own index changes nothing |
| Text.Trim | src/components/TimelineView.tsx:197 | `trim` leaves no white space at either end and adds no character |
| Text.TrimIsSlice | src/components/TimelineView.tsx:197 | `trim` gives the slice of the text left once the white space at both ends is cut off |
| Text.TrimOfTrimmed | src/components/AddItemForm/FormFields.tsx:128 | trimming a trimmed string changes nothing |
| Text.TrimSkipsLeadingSpace | src/components/AddItemForm/FormFields.tsx:128 | leading white space does not change the trim |
| Text.TrimEmptyIffBlank | src/components/TimelineView.tsx:602 | `trim()` is falsy exactly for all-white-space text |
| Text.Split | src/components/AddItemForm/FormFields.tsx:128 | `split(',')` gives at least one piece and no piece holds a comma |
| Text.SplitWithoutSep | src/components/AddItemForm/FormFields.tsx:128 | text without the separator is one piece |
| Text.SplitAtSep | src/components/AddItemForm/FormFields.tsx:128 | a separator splits the pieces into those before and those after |
| Text.JoinSplit | src/components/AddItemForm/FormFields.tsx:127-128 | joining the pieces with the separator gives the text back |
| Text.ToUpper | src/components/TimelineView.tsx:603 | `toUpperCase` maps each character and keeps the length |
| Text.ToLower | src/store/roadmapStore.ts:708 | `toLowerCase` maps each character and keeps the length |
| Text.ReplaceChar | src/store/roadmapStore.ts:708 | `replace(/_/g, ' ')` replaces every '_' and nothing else |
| Text.ReplaceSpaceRuns | src/components/TimelineView.tsx:603 | `replace(/\s+/g, '_')` never lengthens the text and gives empty text only for empty text |
| Text.ReplaceSpaceRunsRun | src/components/TimelineView.tsx:603 | each maximal run of white space becomes exactly one '_', and the text around it is kept |
| Text.ReplaceSpaceRunsLeavesNoSpace | src/components/TimelineView.tsx:603 | after the replacement no white space is left |
| Text.ReplaceSpaceRunsChars | src/components/TimelineView.tsx:603 | every character of the result is '_' or one of the input's |
| Text.ReplaceSpaceRunsNoSpace | src/components/TimelineView.tsx:603 | text without white space is left alone |
| Text.ToUpperIdempotent | src/components/TimelineView.tsx:603 | upper-casing twice is upper-casing once |
| Timeline.Format | src/components/TimelineView.tsx:1013-1021 | a quarter's label is its first and last month, in calendar order |
| Timeline.Lanes | src/components/TimelineView.tsx:751-769 | the lanes `itemsByCategory` builds |
| Timeline.CategoryIdFromInput | src/components/TimelineView.tsx:601-609 | the id `handleAdd` derives from the typed name, or none for blank input |
| Timeline.TitleBlur | src/components/TimelineView.tsx:196-204 | the store call of the title editor's blur |
| Timeline.NameBlur | src/components/TimelineView.tsx:459-467 | the store call of the lane name editor's blur |
| Timeline.DeleteZoneDrop | src/components/TimelineView.tsx:781-800 | the calls of a drop on a delete zone |
| Timeline.CategoryDrop | src/components/TimelineView.tsx:806-816 | the call of a lane header dropped on another |
| Timeline.CardDrop | src/components/TimelineView.tsx:821-848 | the calls of a card dropped on a card |
| Timeline.ZoneDrop | src/components/TimelineView.tsx:850-863 | the calls of a card dropped on a zone, under either reading of the zone id |
| Timeline.DragEnd | src/components/TimelineView.tsx:775-865 | the calls `handleDragEnd` issues, in program order |
| Timeline.LanesFollowOrder | src/components/TimelineView.tsx:751-769 | one lane per `categoryOrder` entry with settings, in that order, with its settings and its items in `items` order |
| Timeline.ItemShownIff | src/components/TimelineView.tsx:759-763 | an item is drawn in some lane exactly when its category is listed in `categoryOrder` and has settings |
| Timeline.NormalisedHasNoLowerCase | src/components/TimelineView.tsx:603 | a new category id has no lower-case letter |
| Timeline.NormalisedIsFixed | src/components/TimelineView.tsx:601-609 | an id without white space or lower case is taken as typed |
| Timeline.CategoryIdShape | src/components/TimelineView.tsx:601-609 | blank input adds nothing; other input adds one non-empty id without white space or lower case, which maps to itself |
| Timeline.BlurValue | src/components/TimelineView.tsx:196-204 | a draft with a non-white-space character stays as typed; an all-white-space draft gives way to the saved value |
| Timeline.TitleBlurStoresShown | src/components/TimelineView.tsx:196-204 | after a title blur, the store's title is the one the card shows; other cards and the rest of the store are unchanged |
| Timeline.RetitleRuns | src/components/TimelineView.tsx:198 | the retitle call changes that card's title and nothing else in the store |
| Timeline.NameBlurStoresShown | src/components/TimelineView.tsx:459-467 | after a name blur, the store's name is the one the lane shows; every other field of the store is unchanged |
| Timeline.RenameRuns | src/components/TimelineView.tsx:461 | the rename call changes that record's name and nothing else in the store |
| Timeline.FirstWithId | src/components/TimelineView.tsx:777 | `items.find` by id: nothing exactly when no item has the id, else the first item with it |
| TimelineView.TimelineBoard.constructor | src/components/TimelineView.tsx:724 | nothing is being dragged at first |
| TimelineView.TimelineBoard.HandleDragStart | src/components/TimelineView.tsx:771-773 | the dragged id is remembered |
| TimelineView.TimelineBoard.HandleDragEnd | src/components/TimelineView.tsx:775-865 | the drag is cleared, and the store is left as running `DragEnd`'s calls in order leaves it, zone ids read with `split('-')` as written; well-formed settings stay well formed |
| TimelineView.TimelineBoard.DropOnDeleteZone | src/components/TimelineView.tsx:781-800 | the store is left as running the delete-zone calls leaves it |
| TimelineView.TimelineBoard.DropOnLane | src/components/TimelineView.tsx:806-816 | the store is left as running the lane-reorder calls leaves it |
| TimelineView.TimelineBoard.DropOnCard | src/components/TimelineView.tsx:821-848 | the store is left as running the card-drop calls leaves it |
| TimelineView.TimelineBoard.DropOnZone | src/components/TimelineView.tsx:850-863 | the store is left as running the zone-drop calls leaves it, the zone id read with `split('-')` as written |
| DragLaws.DeleteZoneOnlyDeletes | src/components/TimelineView.tsx:781-800 | a delete-zone drop issues at most one call, a deletion, only when confirmed: the item exactly when it exists, the category exactly when it is not the last |
| DragLaws.NoTargetNoMutation | src/components/TimelineView.tsx:803 | a drag that ends over nothing issues no call |
| DragLaws.MissingItemNoMutation | src/components/TimelineView.tsx:819 | a dragged card not in `items` issues no call, wherever it lands |
| DragLaws.CategoryDropPermutes | src/components/TimelineView.tsx:806-816 | a lane dropped on a lane permutes the order, putting it at the target's index with the rest in their old order; no-op when either is absent or they coincide |
| DragLaws.CategoryDropRuns | src/components/TimelineView.tsx:807-813 | the same, stated on the two category ids |
| DragLaws.OverlayOne | src/store/roadmapStore.ts:623-625 | with unique ids, updating an item by its id replaces just that item |
| DragLaws.SameCellReorders | src/components/TimelineView.tsx:828-838 | a card dropped on a card of its cell: the cell becomes `arrayMove` of itself from the card's index to the target's; no item is gained or lost; items outside keep their order |
| DragLaws.SameCellRuns | src/components/TimelineView.tsx:829-837 | the same, stated on the dragged item and target id |
| DragLaws.CrossCellRetags | src/components/TimelineView.tsx:839-846 | a card dropped on a card of another cell takes its category and quarter in place; nothing else changes |
| DragLaws.CrossCellRuns | src/components/TimelineView.tsx:840-845 | the calls that take over the other cell change only that card |
| DragLaws.RetagThenMoveRuns | src/components/TimelineView.tsx:840-845 | re-tagging then moving a card changes only that card |
| DragLaws.ZoneDropOwnCellIsNoOp | src/components/TimelineView.tsx:857 | under either reading of the zone id, a drop on a zone that decodes to the card's own cell issues no call |
| DragLaws.ZoneDropAppends | src/components/TimelineView.tsx:850-863 | under either reading of the zone id, a card dropped on a zone that decodes to another cell takes its category and quarter and comes after all the cell's earlier items; other items keep their order; only the card changes |
| DragLaws.MoveIntoCellRuns | src/components/TimelineView.tsx:858-861 | moving then re-tagging a card changes only that card |
| DragLaws.UpdateOneRuns | src/components/TimelineView.tsx:841 | with unique ids, updating a card by id changes only that card |
| DragLaws.MoveOneRuns | src/components/TimelineView.tsx:844 | with unique ids, moving a card by id changes only that card |
| DragLaws.AppendToCellIsReorder | src/components/TimelineView.tsx:858-862 | the zone-drop calls amount to re-tagging the card and then reordering the cell by its earlier ids plus the card's |
| DragLaws.AppendToCellRuns | src/components/TimelineView.tsx:853-862 | the cell gains the card at its end; outside the cell, only the card is gone |
| DragLaws.BucketGains | src/components/TimelineView.tsx:853-862 | re-tagging a card into a cell adds it to the cell's items |
| DragLaws.OutsideUnchanged | src/components/TimelineView.tsx:853-862 | re-tagging a card into a cell removes it from the outside items and changes no other |
| DragLaws.OwnZoneIsNoOp | src/components/TimelineView.tsx:851-857 | read the way zone ids are built, a drop on a zone of the card's own cell issues no call, whatever the category id holds |
| DragLaws.OwnZoneMisroutes | src/components/TimelineView.tsx:851-862 | as written, with categories "A" and "A-Q2", a card of cell (A-Q2, Q1) dropped on its own zone ends up in cell (A, Q2); read the way the ids are built, the same drop does nothing |
| DragLaws.ReorderFirstDuplicates | src/components/TimelineView.tsx:858-862 | a lone card dropped on another quarter's zone: in program order it stays one item; with the reorder landing before the move, as the store's timing makes it, there are two items with its id |
| DragLaws.MoveThenReorder | src/store/roadmapStore.ts:639-672 | one card moved and then listed in its new cell remains one item |
| DragLaws.ReorderThenMove | src/store/roadmapStore.ts:639-672 | one card listed in a cell before it is moved there becomes two items |
| DragLaws.SoloZoneDrop | src/components/TimelineView.tsx:850-862 | a lone card dropped on another quarter's zone issues a move, then a reorder listing just the card |
| DragLaws.SoloAppend | src/components/TimelineView.tsx:858-862 | the zone-drop calls on a lone card leave that card, in the new cell |
| Timeline.ZoneIsNotDeleteZone | src/components/TimelineView.tsx:781 | no cell's zone id is one of the delete zones' ids |
| Zones.ZoneId | src/components/TimelineView.tsx:391 | a zone id is the category, '-', then the quarter name |
| Zones.DecodeZoneAsWritten | src/components/TimelineView.tsx:851-852 | the decoding as written accepts only a known category without '-' |
| Zones.AsWrittenRoundTrip | src/components/TimelineView.tsx:851-852 | a known category without '-' decodes from its own zone id |
| Zones.AsWrittenMissesHyphenated | src/components/TimelineView.tsx:851 | a category holding '-' never decodes from its own zone id |
| Zones.AsWrittenMisroutes | src/components/TimelineView.tsx:851 | with categories "A" and "A-Q2", a drop on zone "A-Q2-Q1" goes to cell (A, Q2) |
| Zones.SplitLast | src/components/TimelineView.tsx:851 | splitting at the last '-' gives the text before it and a '-'-free rest, or nothing when there is no '-' |
| Zones.DecodeZone | src/components/TimelineView.tsx:851-852 | the reading of a zone id the ids call for: the quarter after the last '-', the category before it |
| Zones.ZoneRoundTrip | src/components/TimelineView.tsx:851-852 | the corrected decoding recovers every known cell from its zone id |
| Zones.DecodeZoneSound | src/components/TimelineView.tsx:851-852 | the corrected decoding accepts only the zone ids of known cells |
| Zones.DecodersAgree | src/components/TimelineView.tsx:851-852 | both decodings agree on categories without '-' |
| Kanban.KanbanDrop | src/components/KanbanView/KanbanView.tsx:46-53 | a drop on the column named after a quarter is one call moving the card to it; no target, or a target that names no quarter, gives no call |
| Kanban.DropOnColumnMoves | src/components/KanbanView/KanbanView.tsx:48-53 | a drop on a column sets the card's quarter; nothing else changes |
| Kanban.DropElsewhereIsNoOp | src/components/KanbanView/KanbanView.tsx:51 | a drop on no target, or on a target that is not a quarter, leaves the store as it was |
| Kanban.Column | src/components/KanbanView/KanbanView.tsx:74 | one column's cards, in item order |
| Kanban.Columns | src/components/KanbanView/KanbanView.tsx:70-75 | four columns, in Q1..Q4 order, each that quarter's filter |
| Kanban.ColumnMember | src/components/KanbanView/KanbanView.tsx:74 | a card is in a column exactly when it is an item of that quarter |
| Kanban.ColumnsPartition | src/components/KanbanView/KanbanView.tsx:70-75 | the columns together hold each item as often as `items` does |
| Kanban.ColumnKeepsOrder | src/components/KanbanView/KanbanView.tsx:74 | columns keep array order: a prefix of the items gives a prefix of each column |
| Kanban.KanbanBoard.constructor | src/components/KanbanView/KanbanView.tsx:21 | nothing is being dragged at first |
| Kanban.KanbanBoard.HandleDragStart | src/components/KanbanView/KanbanView.tsx:38-40 | the dragged id is remembered |
| Kanban.KanbanBoard.HandleDragEnd | src/components/KanbanView/KanbanView.tsx:42-54 | the drag is cleared, and the store is left as running the drop's call leaves it |
| Kanban.KanbanBoard.HandleDragCancel | src/components/KanbanView/KanbanView.tsx:56-58 | the drag is cleared and the store is unchanged |
| Prompt.RoadmapData | src/App.tsx:326-336 | one entry per settings key, in key order, each with its name and its items in `items` order |
| Prompt.ItemTextShape | src/App.tsx:347-350 | an item gives "- title" and a newline; a non-empty description follows as two spaces, the description and a newline, and an empty one adds nothing |
| Prompt.QuarterBlockEmptyIff | src/App.tsx:343-344 | a quarter emits nothing exactly when none of the entry's items is in it |
| Prompt.SectionLayout | src/App.tsx:341-354 | a section is its "## name" header, then the Q1, Q2, Q3 and Q4 blocks in that order |
| Prompt.PromptText | src/App.tsx:339-355 | the prompt text of a projected roadmap |
| Prompt.SectionsInOrder | src/App.tsx:339-355 | the prompt is the preamble and then one section per entry, in entry order |
| Prompt.EntryListsIff | src/App.tsx:330-334 | an entry lists an item exactly when some item with that title, description and quarter carries its category |
| Prompt.TaggedIsListed | src/App.tsx:327-330 | an item of a category with settings is listed under that category's entry |
| Prompt.ListedIff | src/App.tsx:327-330 | an item reaches the prompt exactly when its category has settings |
| Prompt.BuildPrompt | src/App.tsx:326-355 | builds the prompt text of the projected roadmap |
| Prompt.WritePrompt | src/App.tsx:339-355 | the category loop writes the preamble and then every entry's section |
| Prompt.WriteCategory | src/App.tsx:341-354 | one category round appends that entry's section |
| Prompt.WriteQuarter | src/App.tsx:343-353 | one quarter round appends that quarter's block |
| CommaList.ParsedWellFormed | src/components/AddItemForm/FormFields.tsx:128 | every parsed entry is non-empty, is its own trim and holds no comma |
| CommaList.ParseList | src/components/AddItemForm/FormFields.tsx:128 | the list parsed from typed text |
| CommaList.DisplayList | src/components/AddItemForm/FormFields.tsx:127 | the text a list is shown as |
| CommaList.ParseAtComma | src/components/AddItemForm/FormFields.tsx:128 | the entries keep the left-to-right order of the pieces |
| CommaList.ParseSkipsLeadingSpace | src/components/AddItemForm/FormFields.tsx:128 | leading white space does not change the list |
| CommaList.ParseBlank | src/components/AddItemForm/FormFields.tsx:128 | text of white space and commas only parses to the empty list |
| CommaList.ParseOne | src/components/AddItemForm/FormFields.tsx:128 | one well-formed entry parses to itself |
| CommaList.ParseJoin | src/components/AddItemForm/FormFields.tsx:127-128 | parsing the shown text gives the list back when its entries are non-empty, trimmed and comma-free |
| CommaList.Edit | src/components/AddItemForm/FormFields.tsx:128 | typing sets that field to the parsed list and leaves the other fields |
| CommaList.EditShownText | src/components/AddItemForm/FormFields.tsx:127-160 | for all three fields alike, committing the shown text keeps a well-formed list, turns an absent one into the empty list, and leaves the other fields |

## Left out

- Persistence is not modelled: the Dexie database calls inside each action, `initialize` and `src/db/database.ts`. The store is purely in memory.
- Async interleaving is not modelled in general. Each action is applied atomically, in the order a handler calls it. In the real code `reorderItems` updates the store at once, while `moveItem` and `updateItem` update it only after a database await. A zone drop therefore lands its reorder first and lists the dragged card twice, and the later updates change both copies, so the duplicate stays until the items are reloaded (see Findings). The unique-ids results hold only under sequential application.
- `crypto.randomUUID` is a parameter of `Store.RoadmapStore.AddEmptyItem`. Freshness is a precondition of `StoreLaws.AddEmptyItemKeepsIdsUnique`.
- `window.confirm` is the boolean `confirmed`. The `alert` for the last category is not modelled beyond its early return.
- The Azure OpenAI request, the streamed response, the PNG and Word exports and the markdown-to-HTML chain are left out: network, DOM and library I/O.
- Console logging and the `try`/`catch` around `itemsByCategory` are left out, as is the guard for missing settings or order; the state here always has both.
- A drag subject without `data.current.type` is not modelled. Its delete-zone guard at TimelineView.tsx:781 would let the drop fall through to the other branches.
- The handlers read `items`, `categorySettings` and `categoryOrder` as captured at render time. The model takes these to be the store's current state.
- `Kanban.KanbanBoard`: `activeItem` (the overlay card, KanbanView.tsx:60) is presentation and is not modelled.
- `Actions.State`: JavaScript lists array-index-like keys (such as "2024") first, whatever their insertion order. Only insertion order is modelled.
- `Roadmap.Item`: an absent `description` is held as the empty string. Every reader treats the two alike.
- `Roadmap.Item`: `category` is `Unassigned` where the store writes `undefined` (the first key of an empty settings record).
- `Store.RoadmapStore.UpdateCategorySettings`: on a category with no record, the source creates a partial record. The model holds its missing fields as empty strings.
- `Text.ToUpper`, `Text.ToLower`: only ASCII letters are case-mapped; other scripts are left unchanged.
- `CommaList.DisplayList`: an absent list and the empty list both show as empty text, and typing always stores a list. The model does not distinguish `undefined` from `[]` beyond that.
- `AddItemForm.tsx` is not part of this model; it calls a store action that does not exist. `parseInt` on progress, `Date` handling, JSX and styling are left out too.

## Findings

| source | as written | input that shows it | evidently intended | confidence | as-written member | corrected member |
|---|---|---|---|---|---|---|
| src/components/TimelineView.tsx:851 | the zone id `${category}-${quarter}` is decoded with `split('-')`, keeping only the first two fields | categories "A" and "A-Q2"; a card dropped on zone "A-Q2-Q1" (cell A-Q2, Q1) is sent to cell (A, Q2), and a category holding '-' can never receive a zone drop | split at the last '-': the category is everything before it and the quarter the rest | not executed | Zones.AsWrittenMisroutes | Zones.ZoneRoundTrip |
| src/components/TimelineView.tsx:851-857 | the own-cell check at line 857 compares the card with the cell `split('-')` gives | categories "A" and "A-Q2"; a card in cell (A-Q2, Q1) dropped on its own zone "A-Q2-Q1" is moved to cell (A, Q2) | a drop on the card's own zone changes nothing | not executed | DragLaws.OwnZoneMisroutes | DragLaws.OwnZoneIsNoOp |
| src/components/TimelineView.tsx:858-862 | `moveItem` and `updateItem` are called without `await` before `reorderItems`, which sets the store at once while the other two set it after their database writes | one card in cell (A, Q1), dropped on zone "A-Q2": the reorder lists it once outside the cell and once in it, and the move then changes both copies | the card is listed once, at the end of its new cell | not executed | DragLaws.ReorderFirstDuplicates | DragLaws.ZoneDropAppends |

`Timeline.DragEnd` and `Timeline.ZoneDrop` take the reading of a zone id as a parameter. `TimelineView.TimelineBoard` uses the one as written, `Zones.DecodeZoneAsWritten`, so the board follows the source. The laws in `DragLaws` hold for both readings unless they name one. `Zones.AsWrittenMissesHyphenated`, `Zones.AsWrittenMisroutes` and `DragLaws.OwnZoneMisroutes` state the discrepancy. `Zones.ZoneRoundTrip` and `DragLaws.OwnZoneIsNoOp` prove the corrected reading right. The store calls are modelled in program order; `DragLaws.ReorderFirstDuplicates` exhibits the order the store's timing produces.
