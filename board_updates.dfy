/** The pure part of the board store (App.tsx): the sequence updates the
    handlers hand to `setBoards`, the store state as a value, and one function
    per store operation giving the state it leaves behind. The class in
    board_store.dfy performs these updates step by step and is proved against
    the functions here. */
module BoardUpdates {
  import opened Types

  /** Name given to the board created on first launch. */
  const DEFAULT_BOARD_NAME: string := "Mi Visión 2025"

  /** Name given to the board that replaces the last one deleted. */
  const REPLACEMENT_BOARD_NAME: string := "Nuevo Tablero"

  function BoardId(b: Board): string { b.id }

  function ItemId(x: BoardItem): string { x.id }

  /** No two elements of `s` share a key. */
  predicate UniqueKeys<T>(s: seq<T>, key: T -> string) {
    forall i, j :: 0 <= i < j < |s| ==> key(s[i]) != key(s[j])
  }

  predicate HasBoard(bs: seq<Board>, id: string) {
    exists b :: b in bs && b.id == id
  }

  // ---------------------------------------------------------------------------
  // Sequence updates

  /** `s.filter(e => key(e) !== id)`: every element whose key is `id` goes,
      the others stay. */
  function FilterOut<T(!new)>(s: seq<T>, key: T -> string, id: string): (r: seq<T>)
    ensures |r| <= |s|
    ensures forall x :: x in r <==> x in s && key(x) != id
    decreases |s|
  {
    if s == [] then []
    else (if key(s[0]) == id then [] else [s[0]]) + FilterOut(s[1..], key, id)
  }

  /** Filtering distributes over concatenation: the survivors keep their order. */
  lemma {:induction false} FilterOutAppend<T(!new)>(a: seq<T>, b: seq<T>, key: T -> string, id: string)
    ensures FilterOut(a + b, key, id) == FilterOut(a, key, id) + FilterOut(b, key, id)
    decreases |a|
  {
    if a == [] {
      assert a + b == b;
    } else {
      assert (a + b)[1..] == a[1..] + b;
      FilterOutAppend(a[1..], b, key, id);
    }
  }

  /** Filtering out a key nobody has changes nothing. */
  lemma {:induction false} FilterOutAbsent<T(!new)>(s: seq<T>, key: T -> string, id: string)
    requires forall x :: x in s ==> key(x) != id
    ensures FilterOut(s, key, id) == s
    decreases |s|
  {
    if s != [] {
      assert s[0] in s;
      FilterOutAbsent(s[1..], key, id);
      assert [s[0]] + s[1..] == s;
    }
  }

  /** Removing the one element with a given key from the middle of a sequence
      leaves the elements before and after it, in order. */
  lemma FilterOutOne<T(!new)>(a: seq<T>, x: T, c: seq<T>, key: T -> string)
    requires forall y :: y in a ==> key(y) != key(x)
    requires forall y :: y in c ==> key(y) != key(x)
    ensures FilterOut(a + [x] + c, key, key(x)) == a + c
  {
    var id := key(x);
    var fx := FilterOut([x], key, id);
    FilterOutAbsent(a, key, id);
    FilterOutAbsent(c, key, id);
    assert fx == [] by {
      assert [x][1..] == [];
    }
    FilterOutAppend(a, [x], key, id);
    FilterOutAppend(a + [x], c, key, id);
    assert FilterOut(a + [x], key, id) == a + [];
    assert FilterOut(a + [x] + c, key, id) == a + [] + c;
    assert a + [] == a;
  }

  /** Filtering out the key of an element just put in front, when nothing
      behind it shares that key, gives back what was behind it. */
  lemma FilterOutFreshTop<T(!new)>(x: T, tail: seq<T>, key: T -> string)
    requires forall y :: y in tail ==> key(y) != key(x)
    ensures FilterOut([x] + tail, key, key(x)) == tail
  {
    assert ([x] + tail)[1..] == tail;
    FilterOutAbsent(tail, key, key(x));
  }

  /** Filtering keeps keys unique. */
  lemma {:induction false} FilterOutKeepsUnique<T(!new)>(s: seq<T>, key: T -> string, id: string)
    requires UniqueKeys(s, key)
    ensures UniqueKeys(FilterOut(s, key, id), key)
    decreases |s|
  {
    if s != [] {
      var rest := FilterOut(s[1..], key, id);
      FilterOutKeepsUnique(s[1..], key, id);
      forall y | y in rest ensures key(y) != key(s[0]) {
        var k :| 0 <= k < |s[1..]| && s[1..][k] == y;
        assert s[k + 1] == y;
      }
      var r := FilterOut(s, key, id);
      forall i, j | 0 <= i < j < |r| ensures key(r[i]) != key(r[j]) {
        if key(s[0]) != id && i == 0 {
          assert r[j] == rest[j - 1];
          assert rest[j - 1] in rest;
        }
      }
    }
  }

  /** `bs.map(b => b.id === id ? f(b) : b)`. */
  function MapMatching(bs: seq<Board>, id: string, f: Board -> Board): (r: seq<Board>)
    ensures |r| == |bs|
    ensures forall i :: 0 <= i < |bs| ==> r[i] == (if bs[i].id == id then f(bs[i]) else bs[i])
    decreases |bs|
  {
    if bs == [] then []
    else [if bs[0].id == id then f(bs[0]) else bs[0]] + MapMatching(bs[1..], id, f)
  }

  /** An updater that keeps board ids keeps which ids exist and whether they are unique. */
  lemma MapMatchingKeepsIds(bs: seq<Board>, id: string, f: Board -> Board, other: string)
    requires forall b :: f(b).id == b.id
    ensures HasBoard(MapMatching(bs, id, f), other) <==> HasBoard(bs, other)
    ensures UniqueKeys(MapMatching(bs, id, f), BoardId) <==> UniqueKeys(bs, BoardId)
  {

  }

  /** The updater of `handleAddItem`: `{...board, items: [item, ...board.items]}`. */
  function OnTop(x: BoardItem): Board -> Board {
    (b: Board) => b.(items := [x] + b.items)
  }

  /** The updater of `handleDeleteItem`: `{...board, items: board.items.filter(...)}`. */
  function WithoutItem(itemId: string): Board -> Board {
    (b: Board) => b.(items := FilterOut(b.items, ItemId, itemId))
  }

  // ---------------------------------------------------------------------------
  // The store as a value

  /** The two state cells of the store: `boards` and `activeBoardId` (None is null). */
  datatype State = State(boards: seq<Board>, activeBoardId: Option<string>)

  function NewBoard(id: string, name: string, now: int): Board {
    Board(id, name, [], now)
  }

  /** JavaScript truthiness of `activeBoardId`: null and the empty string are false. */
  predicate Truthy(active: Option<string>) {
    active.Some? && active.value != ""
  }

  /** Whether `updateActiveBoard` applies its updater to `b`. */
  predicate Targets(active: Option<string>, b: Board) {
    Truthy(active) && b.id == active.value
  }

  /** When there are boards, the active id names one of them. */
  predicate ActiveExists(s: State) {
    |s.boards| > 0 ==> s.activeBoardId.Some? && HasBoard(s.boards, s.activeBoardId.value)
  }

  /** The loading effect. `saved` is the parsed snapshot found in storage, or
      None when the slot is empty; `freshId` and `now` stand for `uuidv4()`
      and `Date.now()`. */
  function Initialize(saved: Option<seq<Board>>, freshId: string, now: int): (s: State)
    ensures ActiveExists(s)
    ensures saved.None? ==>
      && |s.boards| == 1 && s.boards[0].name == DEFAULT_BOARD_NAME && s.boards[0].items == []
      && s.boards[0].createdAt == now && s.activeBoardId == Some(freshId) && s.boards[0].id == freshId
    ensures saved.Some? ==> s.boards == saved.value
    ensures saved.Some? && |saved.value| > 0 ==> s.activeBoardId == Some(saved.value[0].id)
    ensures saved.Some? && |saved.value| == 0 ==> s.activeBoardId == None
    ensures saved.None? || UniqueKeys(saved.value, BoardId) ==> UniqueKeys(s.boards, BoardId)
  {
    match saved
    case None => State([NewBoard(freshId, DEFAULT_BOARD_NAME, now)], Some(freshId))
    case Some(parsed) =>
      if |parsed| > 0 then State(parsed, Some(parsed[0].id)) else State(parsed, None)
  }

  /** `updateActiveBoard`: nothing happens when the active id is falsy; otherwise
      every board carrying the active id goes through `f`. */
  function ApplyToActive(s: State, f: Board -> Board): (r: State)
    ensures r.activeBoardId == s.activeBoardId && |r.boards| == |s.boards|
    ensures forall i :: 0 <= i < |s.boards| && !Targets(s.activeBoardId, s.boards[i]) ==>
      r.boards[i] == s.boards[i]
    ensures forall i :: 0 <= i < |s.boards| && Targets(s.activeBoardId, s.boards[i]) ==>
      r.boards[i] == f(s.boards[i])
    ensures (forall b :: f(b).id == b.id) ==>
      && (ActiveExists(r) <==> ActiveExists(s))
      && (UniqueKeys(r.boards, BoardId) <==> UniqueKeys(s.boards, BoardId))
  {
    if !Truthy(s.activeBoardId) then s
    else
      var r := s.(boards := MapMatching(s.boards, s.activeBoardId.value, f));
      assert (forall b :: f(b).id == b.id) ==>
        && (HasBoard(r.boards, s.activeBoardId.value) <==> HasBoard(s.boards, s.activeBoardId.value))
        && (UniqueKeys(r.boards, BoardId) <==> UniqueKeys(s.boards, BoardId))
      by {
        if forall b :: f(b).id == b.id {
          MapMatchingKeepsIds(s.boards, s.activeBoardId.value, f, s.activeBoardId.value);
        }
      }
      r
  }

  /** `handleCreateBoard(name)`: appends a fresh empty board and makes it active. */
  function CreateBoard(s: State, name: string, freshId: string, now: int): (r: State)
    ensures |r.boards| == |s.boards| + 1 && r.boards[..|s.boards|] == s.boards
    ensures var b := r.boards[|s.boards|];
      b.id == freshId && b.name == name && b.items == [] && b.createdAt == now
    ensures r.activeBoardId == Some(freshId) && ActiveExists(r)
    ensures UniqueKeys(s.boards, BoardId) && !HasBoard(s.boards, freshId) ==> UniqueKeys(r.boards, BoardId)
  {
    var r := State(s.boards + [NewBoard(freshId, name, now)], Some(freshId));
    assert r.boards[|s.boards|] in r.boards;
    assert forall i :: 0 <= i < |s.boards| ==> r.boards[i] == s.boards[i] && s.boards[i] in s.boards;
    r
  }

  /** `setActiveBoardId(id)` as the sidebar calls it: no check that `id` exists,
      so the pointer invariant survives exactly when it names a board. */
  function SelectBoard(s: State, id: string): (r: State)
    ensures r.boards == s.boards && r.activeBoardId == Some(id)
    ensures ActiveExists(r) <==> |s.boards| == 0 || HasBoard(s.boards, id)
  {
    s.(activeBoardId := Some(id))
  }

  /** `handleDeleteBoard(id)`: drop every board with that id; if the active one
      went and others remain, the first remaining becomes active; if none
      remain, `handleCreateBoard("Nuevo Tablero")` runs on the empty list. */
  function DeleteBoard(s: State, id: string, freshId: string, now: int): (r: State)
    ensures |r.boards| > 0
    ensures var rest := FilterOut(s.boards, BoardId, id);
      && (|rest| > 0 ==> r.boards == rest && !HasBoard(r.boards, id))
      && (|rest| > 0 && s.activeBoardId != Some(id) ==> r.activeBoardId == s.activeBoardId)
      && (|rest| > 0 && s.activeBoardId == Some(id) ==> r.activeBoardId == Some(rest[0].id))
      && (|rest| == 0 ==>
            && |r.boards| == 1 && r.boards[0].name == REPLACEMENT_BOARD_NAME && r.boards[0].items == []
            && r.boards[0].id == freshId && r.boards[0].createdAt == now && r.activeBoardId == Some(freshId))
    ensures ActiveExists(s) ==> ActiveExists(r)
    ensures UniqueKeys(s.boards, BoardId) ==> UniqueKeys(r.boards, BoardId)
  {
    var rest := FilterOut(s.boards, BoardId, id);
    var s1 := s.(boards := rest);
    assert UniqueKeys(s.boards, BoardId) ==> UniqueKeys(rest, BoardId) by {
      if UniqueKeys(s.boards, BoardId) { FilterOutKeepsUnique(s.boards, BoardId, id); }
    }
    assert rest != [] ==> rest[0] in rest;
    if s.activeBoardId == Some(id) && |rest| > 0 then
      s1.(activeBoardId := Some(rest[0].id))
    else if |rest| == 0 then
      CreateBoard(s1, REPLACEMENT_BOARD_NAME, freshId, now)
    else
      assert ActiveExists(s) ==> ActiveExists(s1) by {
        if ActiveExists(s) {
          var b :| b in s.boards && b.id == s.activeBoardId.value;
          assert b in rest;
        }
      }
      s1
  }

  /** `handleAddItem(x)`: `x` goes on top of the active board's items; every other
      board, and the pointer, stay as they were. */
  function AddItem(s: State, x: BoardItem): (r: State)
    ensures r.activeBoardId == s.activeBoardId && |r.boards| == |s.boards|
    ensures forall i :: 0 <= i < |s.boards| && Targets(s.activeBoardId, s.boards[i]) ==>
      && r.boards[i].id == s.boards[i].id && r.boards[i].name == s.boards[i].name
      && r.boards[i].createdAt == s.boards[i].createdAt
      && |r.boards[i].items| == |s.boards[i].items| + 1
      && r.boards[i].items[0] == x && r.boards[i].items[1..] == s.boards[i].items
    ensures forall i :: 0 <= i < |s.boards| && !Targets(s.activeBoardId, s.boards[i]) ==>
      r.boards[i] == s.boards[i]
    ensures ActiveExists(r) <==> ActiveExists(s)
    ensures UniqueKeys(r.boards, BoardId) <==> UniqueKeys(s.boards, BoardId)
  {
    ApplyToActive(s, OnTop(x))
  }

  /** `handleDeleteItem(itemId)`: every item with that id leaves the active board;
      the other items, the other boards and the pointer stay. */
  function DeleteItem(s: State, itemId: string): (r: State)
    ensures r.activeBoardId == s.activeBoardId && |r.boards| == |s.boards|
    ensures forall i :: 0 <= i < |s.boards| && Targets(s.activeBoardId, s.boards[i]) ==>
      && r.boards[i].id == s.boards[i].id && r.boards[i].name == s.boards[i].name
      && r.boards[i].createdAt == s.boards[i].createdAt
      && r.boards[i].items == FilterOut(s.boards[i].items, ItemId, itemId)
      && |r.boards[i].items| <= |s.boards[i].items|
      && (forall y :: y in r.boards[i].items <==> y in s.boards[i].items && y.id != itemId)
    ensures forall i :: 0 <= i < |s.boards| && !Targets(s.activeBoardId, s.boards[i]) ==>
      r.boards[i] == s.boards[i]
    ensures ActiveExists(r) <==> ActiveExists(s)
    ensures UniqueKeys(r.boards, BoardId) <==> UniqueKeys(s.boards, BoardId)
  {
    ApplyToActive(s, WithoutItem(itemId))
  }

  // ---------------------------------------------------------------------------
  // Item construction

  /** The item `onAddImage(url, title)` adds, with `id` standing for `uuidv4()`. */
  function ImageItem(id: string, url: string, title: string): (x: BoardItem)
    ensures x.id == id && x.kind == IMAGE && x.kind != TEXT
    ensures x.content == url && x.title == Some(title)
    ensures x.color == None && x.width == None && x.height == None
  {
    BoardItem(id, IMAGE, url, Some(title), None, None, None)
  }

  /** `Math.floor(r * NOTE_COLORS.length)` for a `Math.random()` value `r`. */
  function NoteColorIndex(r: real): (i: int)
    requires 0.0 <= r < 1.0
    ensures 0 <= i < |NOTE_COLORS|
  {
    (r * |NOTE_COLORS| as real).Floor
  }

  /** The item `onAddText(text, category)` adds: a note coloured from the palette. */
  function NoteItem(id: string, text: string, category: string, r: real): (x: BoardItem)
    requires 0.0 <= r < 1.0
    ensures x.id == id && x.kind == NOTE && x.kind != TEXT
    ensures x.content == text && x.title == Some(category)
    ensures x.color.Some? && x.color.value in NOTE_COLORS
    ensures x.width == None && x.height == None
  {
    BoardItem(id, NOTE, text, Some(category), Some(NOTE_COLORS[NoteColorIndex(r)]), None, None)
  }

  // ---------------------------------------------------------------------------
  // Persistence

  /** The saving effect on the 'vision_boards' slot: the whole list is written,
      but only when it is not empty. */
  function SaveEffect(slot: Option<seq<Board>>, boards: seq<Board>): (r: Option<seq<Board>>)
    ensures |boards| > 0 ==> r == Some(boards)
    ensures |boards| == 0 ==> r == slot
  {
    if |boards| > 0 then Some(boards) else slot
  }
}
