# Vision board store — a Dafny model

This project models the board store of the vision-board web application (`App.tsx`, with the data model of
`types.ts`). The store keeps an ordered list of boards and a pointer to the active board. Its handlers create,
select and delete boards, and they add items to and delete items from the active board. After every change to
the list, an effect saves the whole list to a single local-storage slot when the list is not empty. On launch the list is read back from
that slot; when the slot is empty, one default board is created instead.

Layout:

- `types.dfy` (module `Types`): item kinds, `BoardItem`, `Board`, `GoalSuggestion` and the `NOTE_COLORS` palette.
- `board_updates.dfy` (module `BoardUpdates`): the pure updates that the handlers pass to `setBoards`. These are
  `filter` by id, `map` over the boards that match an id, and putting an item on top. The module also holds the
  store state as a value, one function per operation giving the state the operation leaves, the two item
  constructors and the saving effect.
- `store_properties.dfy` (module `StoreProperties`): lemmas that relate several operations. They cover the
  newest-first order of items, the add/delete round trip, which boards a deletion keeps, the reload of a saved
  list, and an invariant kept by every run of handlers.
- `board_store.dfy` (module `BoardStore`): class `Store`. Its fields are the two state cells plus the storage
  slot, and it has one method per handler. Each method updates the fields step by step, as the source does. Each
  is proved to leave exactly the state that the matching `BoardUpdates` function gives, and to preserve `Valid()`.

Inputs that are not deterministic become parameters. `uuidv4()` becomes `freshId`, `Date.now()` becomes `now`,
and `Math.random()` becomes `random: real` with `0 <= random < 1`. The note colour index is computed from
`random` as `floor(random * 6)`, as the source does. Fresh ids appear only as preconditions of the invariant
lemmas: the store itself never checks them.

Three points of the code's behaviour that the model keeps as they are:

- The code saves only `boards`, not the selection, so a reload makes the first board active (App.tsx:23-24,
  41-42). `ReloadRestoresBoards` states the board list and the first-board selection.
- `updateActiveBoard` returns early when `activeBoardId` is falsy. In JavaScript that means null and also the
  empty string, so the model treats both as "no active board" (`Truthy`).
- Selecting a board does not check that the board exists. `SelectBoard` keeps the pointer invariant exactly
  when the id names a board, or when there are no boards.

## Model

| member | source | states |
|---|---|---|
| Types.ItemTypeTag | types.ts:1-5 | each kind maps to one of the three enum strings 'IMAGE', 'TEXT', 'NOTE' |
| Types.ParseItemType | types.ts:1-5 | a string is an `ItemType` value exactly when it is one of the three enum strings (the store never parses kinds; this describes a well-formed snapshot) |
| Types.ItemTypeTagRoundTrip | types.ts:1-5 | the enum strings are distinct and each reads back to its own kind |
| Types.NoteColorsPalette | types.ts:30-37 | the palette has six distinct entries, so indices 0..5 are all valid |
| BoardUpdates.FilterOut | App.tsx:67 | `filter` by id keeps exactly the elements whose id differs, and never grows the list |
| BoardUpdates.FilterOutAppend | App.tsx:67 | filtering distributes over concatenation, so the survivors keep their relative order |
| BoardUpdates.FilterOutAbsent | App.tsx:87 | filtering out an id that no element carries returns the list unchanged |
| BoardUpdates.FilterOutOne | App.tsx:67 | removing the only element with an id from `a + [x] + c` gives `a + c` |
| BoardUpdates.FilterOutFreshTop | App.tsx:80-87 | filtering out the id of an item just put on top, when no older item has it, gives back the older items |
| BoardUpdates.FilterOutKeepsUnique | App.tsx:67 | filtering keeps ids unique |
| BoardUpdates.MapMatching | App.tsx:51 | the map keeps the length; boards with the id go through the updater, the others stay as they are |
| BoardUpdates.MapMatchingKeepsIds | App.tsx:49-52 | an updater that keeps board ids keeps which ids exist and whether they are unique |
| BoardUpdates.Initialize | App.tsx:18-37 | no snapshot: one empty active board 'Mi Visión 2025' created at `now`; a snapshot: the list is the snapshot, and its first board is active when it has one; the pointer invariant holds either way |
| BoardUpdates.ApplyToActive | App.tsx:49-52 | a falsy active id (`Truthy`, App.tsx:50) changes nothing; otherwise only boards with the active id are updated; with an id-keeping updater, the pointer invariant and id uniqueness are unchanged |
| BoardUpdates.CreateBoard | App.tsx:55-64 | earlier boards stay in order, one empty board named `name` (`NewBoard`, App.tsx:56-61) is appended at the end and becomes active; ids stay unique when the new id is fresh |
| BoardUpdates.SelectBoard | App.tsx:141 | only the pointer changes; the pointer invariant holds afterwards if and only if the id names a board or there are none |
| BoardUpdates.DeleteBoard | App.tsx:66-75 | the list is never left empty; the boards left are the filtered list; a non-active deletion keeps the pointer; deleting the active board activates the first remaining; deleting every board leaves exactly one fresh empty active board 'Nuevo Tablero'; the invariant and id uniqueness are preserved |
| BoardUpdates.AddItem | App.tsx:77-82 | through the updater `OnTop` (App.tsx:78-81), the active board's items become `item` followed by its old items; every other board and the pointer are unchanged |
| BoardUpdates.DeleteItem | App.tsx:84-89 | through the updater `WithoutItem` (App.tsx:85-88), the active board keeps exactly its items with a different id, in order; every other board and the pointer are unchanged |
| BoardUpdates.ImageItem | App.tsx:91-98 | an IMAGE item (never TEXT) with content = url, title = title, and no colour, width or height |
| BoardUpdates.NoteColorIndex | App.tsx:102 | every draw of `Math.random()` gives a valid palette index |
| BoardUpdates.NoteItem | App.tsx:100-110 | a NOTE item (never TEXT) with content = text, title = category, and a colour from the palette |
| BoardUpdates.SaveEffect | App.tsx:40-44 | a non-empty list is written whole; an empty list leaves the slot as it was |
| StoreProperties.AddItemsNewestFirst | App.tsx:77-81 | after successive adds, the active board holds the added items in reverse call order, followed by its old items; other boards are unchanged |
| StoreProperties.AddThenDeleteItem | App.tsx:77-89 | add(x) and then delete(x.id) restores the whole store when no item of the active board had x's id |
| StoreProperties.AddThenDeleteItemAt | App.tsx:77-89 | the same round trip, seen at one board |
| StoreProperties.DeleteAbsentItem | App.tsx:84-88 | deleting an id that no item of the active board carries is a no-op |
| StoreProperties.DeleteItemKeepsOrder | App.tsx:87 | deleting the only item with an id from `a + [x] + c` leaves `a + c` |
| StoreProperties.AddItemWithoutActiveBoard | App.tsx:49-51 | with no active id, or one that names no board, adding is a no-op |
| StoreProperties.DeleteBoardKeepsOrder | App.tsx:66-68 | deleting the only board with an id from `a + [b] + c`, when others remain, leaves `a + c` |
| StoreProperties.DeleteOnlyBoard | App.tsx:71-73 | deleting the only board yields exactly one empty board 'Nuevo Tablero', and it is active |
| StoreProperties.DeleteOneOfTwo | App.tsx:66-70 | of two boards, deleting the first leaves the second and deleting the second leaves the first, and it is active whichever of the two was active before |
| StoreProperties.SidebarDeleteKeepsAnotherBoard | components/Sidebar.tsx:58-63 | with unique ids and more than one board, as the sidebar requires before offering deletion, deleting never falls back to the replacement board |
| StoreProperties.NoteColorIndexReaches | App.tsx:102 | every palette index is reached by some random draw |
| StoreProperties.ReloadRestoresBoards | App.tsx:18-44 | a non-empty list that was saved loads back unchanged, with its first board active |
| StoreProperties.FirstLaunchInvariant | App.tsx:26-36 | the first-launch state satisfies the store invariant |
| StoreProperties.AddItemKeepsItemIdsUnique | App.tsx:77-81 | adding an item with a fresh id keeps item ids unique within each board |
| StoreProperties.DeleteItemKeepsItemIdsUnique | App.tsx:84-88 | deleting items keeps item ids unique within each board |
| StoreProperties.StepKeepsInvariant | App.tsx:49-89 | each handler keeps the invariant, given fresh ids and a selection of a listed board: some board exists, the active id names one, board ids are unique, item ids are unique per board |
| StoreProperties.RunKeepsInvariant | App.tsx:49-89 | every run of such handlers keeps the invariant |
| BoardStore.Store.constructor | App.tsx:12-44 | the mounted store is `Initialize(saved, …)`, the slot holds what the saving effect wrote, and `Valid()` holds for a snapshot with unique ids |
| BoardStore.Store.SaveBoards | App.tsx:40-44 | the slot becomes `SaveEffect(old slot, boards)` |
| BoardStore.Store.UpdateActiveBoard | App.tsx:49-52 | the new state is `ApplyToActive(old state, f)`; the slot is written only when the active id is truthy; an id-keeping updater preserves `Valid()` |
| BoardStore.Store.HandleCreateBoard | App.tsx:55-64 | the new state is `CreateBoard(old state, …)`, the slot holds the new list, and `Valid()` is preserved for a fresh id |
| BoardStore.Store.SetActiveBoardId | App.tsx:141 | the new state is `SelectBoard(old state, id)`; `Valid()` is preserved when the id names a board |
| BoardStore.Store.HandleDeleteBoard | App.tsx:66-75 | the new state is `DeleteBoard(old state, …)`; the list is non-empty and saved; `Valid()` is preserved |
| BoardStore.Store.HandleAddItem | App.tsx:77-82 | the new state is `AddItem(old state, item)`; `Valid()` is preserved |
| BoardStore.Store.HandleDeleteItem | App.tsx:84-89 | the new state is `DeleteItem(old state, itemId)`; `Valid()` is preserved |
| BoardStore.Store.OnAddImage | App.tsx:91-98 | adds `ImageItem(freshId, url, title)` through `HandleAddItem` |
| BoardStore.Store.OnAddText | App.tsx:100-110 | adds a note whose colour is `NOTE_COLORS[floor(random * 6)]` through `HandleAddItem` |

## Left out

- Local storage and JSON (App.tsx:19-21, 42): browser I/O. The slot holds the already parsed list. A stored empty
  string counts as an absent slot, as JavaScript's truthiness test does. A malformed snapshot is not modelled:
  the source does not validate it and would throw in `JSON.parse`.
- React scheduling: each handler is modelled as seeing the latest state and running the saving effect at its
  end. Batching of `setBoards` inside `handleDeleteBoard` is modelled as two assignments in sequence. When
  `updateActiveBoard` runs, the effect fires even if no board matched; it then writes the same list again.
- `uuidv4`, `Date.now` and `Math.random` are parameters. Their freshness is assumed only where a lemma needs it.
- `createdAt` is a JavaScript number holding epoch milliseconds; it is modelled as an unbounded `int`.
- `activeBoard` (App.tsx:47) is used only for rendering and for the export file name, so it is not modelled.
- `handleExport` (App.tsx:112-134): canvas rasterisation and DOM download.
- All rendering in App.tsx and in components/Sidebar.tsx, components/BoardItemCard.tsx and
  components/GeneratorModal.tsx. The sidebar's trimmed non-empty name check is not a precondition of
  `CreateBoard`, because `handleCreateBoard` accepts any name (it is itself called with 'Nuevo Tablero').
  The sidebar's "delete only when more than one board" rule appears only in `SidebarDeleteKeepsAnotherBoard`.
- The generator dialog's asynchronous flow and services/geminiService.ts: network calls to an external API.
  `GoalSuggestion` is declared as a datatype only. The dialog's use of it (a suggestion becomes a note through
  `OnAddText`) is not modelled.
