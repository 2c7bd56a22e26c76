/** Properties of the board store that relate several operations: the order
    items appear in, the add/delete round trip, which boards a deletion keeps,
    the reload of a saved snapshot, and the invariant every run of the
    handlers keeps. */
module StoreProperties {
  import opened Types
  import opened BoardUpdates

  // ---------------------------------------------------------------------------
  // Items

  /** No item of a board the handlers target carries `itemId`. */
  predicate ItemIdAbsent(s: State, itemId: string) {
    forall b :: b in s.boards && Targets(s.activeBoardId, b) ==> forall y :: y in b.items ==> y.id != itemId
  }

  /** Reference definition of reversal. */
  function Reverse<T>(xs: seq<T>): (r: seq<T>)
    ensures |r| == |xs|
  {
    if xs == [] then [] else Reverse(xs[1..]) + [xs[0]]
  }

  /** `handleAddItem` called once per element of `xs`, in order. */
  function AddItems(s: State, xs: seq<BoardItem>): State
    decreases |xs|
  {
    if xs == [] then s else AddItems(AddItem(s, xs[0]), xs[1..])
  }

  /** Successive adds show up newest first: the active board's items become the
      added items in reverse call order, followed by the items it had. */
  lemma {:induction false} AddItemsNewestFirst(s: State, xs: seq<BoardItem>, i: int)
    requires 0 <= i < |s.boards|
    ensures AddItems(s, xs).activeBoardId == s.activeBoardId
    ensures |AddItems(s, xs).boards| == |s.boards|
    ensures Targets(s.activeBoardId, s.boards[i]) ==>
      AddItems(s, xs).boards[i] == s.boards[i].(items := Reverse(xs) + s.boards[i].items)
    ensures !Targets(s.activeBoardId, s.boards[i]) ==> AddItems(s, xs).boards[i] == s.boards[i]
    decreases |xs|
  {
    if xs == [] {
      assert Reverse(xs) + s.boards[i].items == s.boards[i].items;
    } else {
      var s1 := AddItem(s, xs[0]);
      AddItemAt(s, xs[0], i);
      AddItemsNewestFirst(s1, xs[1..], i);
      var r := AddItems(s1, xs[1..]);
      assert AddItems(s, xs) == r;
      if Targets(s.activeBoardId, s.boards[i]) {
        var items := s.boards[i].items;
        assert s1.boards[i] == s.boards[i].(items := [xs[0]] + items);
        assert Targets(s1.activeBoardId, s1.boards[i]);
        assert r.boards[i] == s1.boards[i].(items := Reverse(xs[1..]) + ([xs[0]] + items));
        ReverseStep(xs, items);
      } else {
        assert s1.boards[i] == s.boards[i];
      }
    }
  }

  /** Putting one more element in front of the reversed tail. */
  lemma ReverseStep<T>(xs: seq<T>, tail: seq<T>)
    requires xs != []
    ensures Reverse(xs[1..]) + ([xs[0]] + tail) == Reverse(xs) + tail
  {
  }

  /** One add, seen at one board. */
  lemma AddItemAt(s: State, x: BoardItem, i: int)
    requires 0 <= i < |s.boards|
    ensures AddItem(s, x).activeBoardId == s.activeBoardId
    ensures |AddItem(s, x).boards| == |s.boards|
    ensures AddItem(s, x).boards[i] ==
      if Targets(s.activeBoardId, s.boards[i]) then s.boards[i].(items := [x] + s.boards[i].items)
      else s.boards[i]
  {

  }

  /** Adding an item and then deleting its id gives back the store, provided no
      item with that id was on the active board. */
  lemma AddThenDeleteItem(s: State, x: BoardItem)
    requires ItemIdAbsent(s, x.id)
    ensures DeleteItem(AddItem(s, x), x.id) == s
  {
    var s1 := AddItem(s, x);
    var s2 := DeleteItem(s1, x.id);
    forall i | 0 <= i < |s.boards| ensures s2.boards[i] == s.boards[i] {
      AddThenDeleteItemAt(s, x, i);
    }
    assert s1.activeBoardId == s.activeBoardId && |s1.boards| == |s.boards|;
    assert s2.activeBoardId == s.activeBoardId && |s2.boards| == |s.boards|;
    SameBoards(s2.boards, s.boards);
  }

  /** Two board lists that agree at every index are equal. */
  lemma SameBoards(a: seq<Board>, b: seq<Board>)
    requires |a| == |b| && forall i :: 0 <= i < |a| ==> a[i] == b[i]
    ensures a == b
  {
  }

  /** The round trip at one board. */
  lemma AddThenDeleteItemAt(s: State, x: BoardItem, i: int)
    requires 0 <= i < |s.boards|
    requires ItemIdAbsent(s, x.id)
    ensures |DeleteItem(AddItem(s, x), x.id).boards| == |s.boards|
    ensures DeleteItem(AddItem(s, x), x.id).boards[i] == s.boards[i]
  {
    if Targets(s.activeBoardId, s.boards[i]) {
      var b := s.boards[i];
      assert b in s.boards;
      FilterOutFreshTop(x, b.items, ItemId);
      assert WithoutItem(x.id)(OnTop(x)(b)) == b;
    }
    AddItemAt(s, x, i);
    DeleteItemAt(AddItem(s, x), x.id, i);
  }

  /** One item deletion, seen at one board. */
  lemma DeleteItemAt(s: State, itemId: string, i: int)
    requires 0 <= i < |s.boards|
    ensures DeleteItem(s, itemId).activeBoardId == s.activeBoardId
    ensures |DeleteItem(s, itemId).boards| == |s.boards|
    ensures DeleteItem(s, itemId).boards[i] ==
      if Targets(s.activeBoardId, s.boards[i]) then s.boards[i].(items := FilterOut(s.boards[i].items, ItemId, itemId))
      else s.boards[i]
  {
  }

  /** Deleting an id that no item of the active board carries changes nothing. */
  lemma DeleteAbsentItem(s: State, itemId: string)
    requires ItemIdAbsent(s, itemId)
    ensures DeleteItem(s, itemId) == s
  {
    var r := DeleteItem(s, itemId);
    forall i | 0 <= i < |s.boards| ensures r.boards[i] == s.boards[i] {
      if Targets(s.activeBoardId, s.boards[i]) {
        assert s.boards[i] in s.boards;
        FilterOutAbsent(s.boards[i].items, ItemId, itemId);
      }
    }
  }

  /** Deleting the one item with a given id from the active board keeps the items
      before and after it, in order. */
  lemma DeleteItemKeepsOrder(s: State, i: int, a: seq<BoardItem>, x: BoardItem, c: seq<BoardItem>)
    requires 0 <= i < |s.boards| && Targets(s.activeBoardId, s.boards[i])
    requires s.boards[i].items == a + [x] + c
    requires forall y :: y in a ==> y.id != x.id
    requires forall y :: y in c ==> y.id != x.id
    ensures DeleteItem(s, x.id).boards[i].items == a + c
  {
    FilterOutOne(a, x, c, ItemId);
  }

  /** With no active board, or an active id that names no board, adding does nothing. */
  lemma AddItemWithoutActiveBoard(s: State, x: BoardItem)
    requires s.activeBoardId == None || !HasBoard(s.boards, s.activeBoardId.value)
    ensures AddItem(s, x) == s
  {

  }

  // ---------------------------------------------------------------------------
  // Boards

  /** Deleting the one board with a given id keeps the boards before and after it,
      in order, as long as some remain. */
  lemma DeleteBoardKeepsOrder(s: State, a: seq<Board>, b: Board, c: seq<Board>, freshId: string, now: int)
    requires s.boards == a + [b] + c && |a + c| > 0
    requires forall y :: y in a ==> y.id != b.id
    requires forall y :: y in c ==> y.id != b.id
    ensures DeleteBoard(s, b.id, freshId, now).boards == a + c
  {
    FilterOutOne(a, b, c, BoardId);
  }

  /** Deleting the only board leaves exactly one fresh, empty, active board. */
  lemma DeleteOnlyBoard(b: Board, active: Option<string>, freshId: string, now: int)
    ensures var r := DeleteBoard(State([b], active), b.id, freshId, now);
      r == State([Board(freshId, REPLACEMENT_BOARD_NAME, [], now)], Some(freshId))
  {

  }

  /** With two boards, deleting either leaves the other, and it is active
      whichever of the two was active before. */
  lemma DeleteOneOfTwo(b1: Board, b2: Board, active: Option<string>, freshId: string, now: int)
    requires b1.id != b2.id
    requires active == Some(b1.id) || active == Some(b2.id)
    ensures DeleteBoard(State([b1, b2], active), b1.id, freshId, now) == State([b2], Some(b2.id))
    ensures DeleteBoard(State([b1, b2], active), b2.id, freshId, now) == State([b1], Some(b1.id))
  {
    assert [b1, b2][1..] == [b2];
    assert [b2][1..] == [];
    assert FilterOut([b1, b2], BoardId, b1.id) == [b2];
    assert FilterOut([b1, b2], BoardId, b2.id) == [b1];
  }

  /** The sidebar offers deletion only while there is more than one board; with
      unique ids such a deletion never needs the replacement board. */
  lemma SidebarDeleteKeepsAnotherBoard(s: State, id: string, freshId: string, now: int)
    requires UniqueKeys(s.boards, BoardId) && |s.boards| > 1
    ensures |FilterOut(s.boards, BoardId, id)| > 0
    ensures DeleteBoard(s, id, freshId, now).boards == FilterOut(s.boards, BoardId, id)
  {

  }

  // ---------------------------------------------------------------------------
  // Item construction

  /** Every palette index is the colour of some `Math.random()` value. */
  lemma NoteColorIndexReaches(i: int)
    requires 0 <= i < |NOTE_COLORS|
    ensures 0.0 <= i as real / 6.0 < 1.0
    ensures NoteColorIndex(i as real / 6.0) == i
  {

  }

  // ---------------------------------------------------------------------------
  // Persistence

  /** A non-empty list written by the saving effect loads back unchanged on the
      next launch; the selection is not saved, and the first board is active. */
  lemma ReloadRestoresBoards(s: State, slot: Option<seq<Board>>, freshId: string, now: int)
    requires |s.boards| > 0
    ensures Initialize(SaveEffect(slot, s.boards), freshId, now) == State(s.boards, Some(s.boards[0].id))
  {
  }

  // ---------------------------------------------------------------------------
  // Runs of handlers

  /** One user intent, with the ids, times and random draws it consumes. */
  datatype Op =
    | CreateBoardOp(name: string, freshId: string, now: int)
    | SelectBoardOp(id: string)
    | DeleteBoardOp(id: string, freshId: string, now: int)
    | AddItemOp(item: BoardItem)
    | DeleteItemOp(itemId: string)

  function Step(s: State, op: Op): State {
    match op
    case CreateBoardOp(name, freshId, now) => CreateBoard(s, name, freshId, now)
    case SelectBoardOp(id) => SelectBoard(s, id)
    case DeleteBoardOp(id, freshId, now) => DeleteBoard(s, id, freshId, now)
    case AddItemOp(x) => AddItem(s, x)
    case DeleteItemOp(itemId) => DeleteItem(s, itemId)
  }

  /** What callers guarantee: new board ids and item ids are fresh (uuidv4) and
      the sidebar selects only listed boards. */
  predicate Allowed(s: State, op: Op) {
    match op
    case CreateBoardOp(_, freshId, _) => !HasBoard(s.boards, freshId)
    case SelectBoardOp(id) => HasBoard(s.boards, id)
    case AddItemOp(x) => ItemIdAbsent(s, x.id)
    case _ => true
  }

  function Run(s: State, ops: seq<Op>): State
    decreases |ops|
  {
    if ops == [] then s else Run(Step(s, ops[0]), ops[1..])
  }

  predicate AllowedRun(s: State, ops: seq<Op>)
    decreases |ops|
  {
    ops == [] || (Allowed(s, ops[0]) && AllowedRun(Step(s, ops[0]), ops[1..]))
  }

  /** Item ids are unique within each board. */
  predicate ItemIdsUnique(s: State) {
    forall b :: b in s.boards ==> UniqueKeys(b.items, ItemId)
  }

  /** The store invariant: some board exists, the active id names one, board
      ids are unique and item ids are unique per board. */
  predicate Invariant(s: State) {
    |s.boards| > 0 && ActiveExists(s) && UniqueKeys(s.boards, BoardId) && ItemIdsUnique(s)
  }

  lemma FirstLaunchInvariant(freshId: string, now: int)
    ensures Invariant(Initialize(None, freshId, now))
  {
  }

  lemma AddItemKeepsItemIdsUnique(s: State, x: BoardItem)
    requires ItemIdsUnique(s)
    requires ItemIdAbsent(s, x.id)
    ensures ItemIdsUnique(AddItem(s, x))
  {

  }

  lemma DeleteItemKeepsItemIdsUnique(s: State, itemId: string)
    requires ItemIdsUnique(s)
    ensures ItemIdsUnique(DeleteItem(s, itemId))
  {
    var r := DeleteItem(s, itemId);
    forall b | b in r.boards ensures UniqueKeys(b.items, ItemId) {
      var k :| 0 <= k < |r.boards| && r.boards[k] == b;
      assert s.boards[k] in s.boards;
      if Targets(s.activeBoardId, s.boards[k]) {
        FilterOutKeepsUnique(s.boards[k].items, ItemId, itemId);
      }
    }
  }

  lemma StepKeepsInvariant(s: State, op: Op)
    requires Invariant(s) && Allowed(s, op)
    ensures Invariant(Step(s, op))
  {
    var r := Step(s, op);
    match op
    case CreateBoardOp(name, freshId, now) =>
      forall b | b in r.boards ensures UniqueKeys(b.items, ItemId) {
        var k :| 0 <= k < |r.boards| && r.boards[k] == b;
        if k < |s.boards| {
          assert r.boards[..|s.boards|][k] == b;
          assert s.boards[k] in s.boards;
        }
      }
    case SelectBoardOp(id) =>
    case DeleteBoardOp(id, freshId, now) =>
      forall b | b in r.boards ensures UniqueKeys(b.items, ItemId) {
        if |FilterOut(s.boards, BoardId, id)| > 0 {
          assert b in s.boards;
        }
      }
    case AddItemOp(x) =>
      AddItemKeepsItemIdsUnique(s, x);
    case DeleteItemOp(itemId) =>
      DeleteItemKeepsItemIdsUnique(s, itemId);
  }

  /** Every run of handlers whose ids are fresh and whose selections name listed
      boards keeps the invariant: in particular the store never runs out of
      boards and the active id always names one. */
  lemma {:induction false} RunKeepsInvariant(s: State, ops: seq<Op>)
    requires Invariant(s) && AllowedRun(s, ops)
    ensures Invariant(Run(s, ops))
    decreases |ops|
  {
    if ops != [] {
      StepKeepsInvariant(s, ops[0]);
      RunKeepsInvariant(Step(s, ops[0]), ops[1..]);
    }
  }
}
