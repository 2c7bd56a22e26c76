/** The board store of App.tsx as an object: its two state cells, the storage
    slot the saving effect writes, and one method per handler. Each handler
    changes the cells step by step as the source does and is proved to leave
    exactly the state that the matching function of BoardUpdates describes. */
module BoardStore {
  import opened Types
  import opened BoardUpdates

  class Store {
    var boards: seq<Board>
    var activeBoardId: Option<string>
    /** The 'vision_boards' slot of local storage, holding the parsed snapshot. */
    var storage: Option<seq<Board>>

    /** The two state cells as a value. */
    function Current(): State
      reads this
    {
      State(boards, activeBoardId)
    }

    /** What every handler keeps: the active id names a board whenever there is
        one, board ids are unique, and storage holds the list whenever it is not
        empty. Unlike `StoreProperties.Invariant` it does not demand a board,
        because a stored empty snapshot mounts an empty store, and it says
        nothing about item ids, because the store never checks that a new
        item's id is fresh. */
    ghost predicate Valid()
      reads this
    {
      && ActiveExists(Current())
      && UniqueKeys(boards, BoardId)
      && (|boards| > 0 ==> storage == Some(boards))
    }

    /** Mount: the loading effect reads `saved` from the slot, then the saving
        effect writes back whatever it produced. */
    constructor (saved: Option<seq<Board>>, freshId: string, now: int)
      ensures Current() == Initialize(saved, freshId, now)
      ensures storage == SaveEffect(saved, boards)
      ensures saved.None? || UniqueKeys(saved.value, BoardId) ==> Valid()
    {
      boards := [];
      activeBoardId := None;
      storage := saved;
      new;
      match saved {
        case Some(parsed) =>
          boards := parsed;
          if |parsed| > 0 {
            activeBoardId := Some(parsed[0].id);
          }
        case None =>
          var initialBoard := NewBoard(freshId, DEFAULT_BOARD_NAME, now);
          boards := [initialBoard];
          activeBoardId := Some(initialBoard.id);
      }
      SaveBoards();
    }

    /** The saving effect, run after `boards` changes. */
    method SaveBoards()
      modifies this`storage
      ensures storage == SaveEffect(old(storage), boards)
    {
      if |boards| > 0 {
        storage := Some(boards);
      }
    }

    /** `updateActiveBoard(updater)`. */
    method UpdateActiveBoard(f: Board -> Board)
      modifies this
      ensures Current() == ApplyToActive(old(Current()), f)
      ensures storage == if Truthy(old(activeBoardId)) then SaveEffect(old(storage), boards) else old(storage)
      ensures old(Valid()) && (forall b :: f(b).id == b.id) ==> Valid()
    {
      if !Truthy(activeBoardId) {
        return;
      }
      boards := MapMatching(boards, activeBoardId.value, f);
      SaveBoards();
    }

    /** `handleCreateBoard(name)`, with `freshId` and `now` for `uuidv4()` and `Date.now()`. */
    method HandleCreateBoard(name: string, freshId: string, now: int)
      modifies this
      ensures Current() == CreateBoard(old(Current()), name, freshId, now)
      ensures storage == Some(boards)
      ensures old(Valid()) && !HasBoard(old(boards), freshId) ==> Valid()
    {
      var newBoard := NewBoard(freshId, name, now);
      boards := boards + [newBoard];
      activeBoardId := Some(newBoard.id);
      SaveBoards();
    }

    /** `onSelectBoard`, which is `setActiveBoardId` itself. */
    method SetActiveBoardId(id: string)
      modifies this`activeBoardId
      ensures Current() == SelectBoard(old(Current()), id)
      ensures old(Valid()) && (|boards| == 0 || HasBoard(boards, id)) ==> Valid()
    {
      activeBoardId := Some(id);
    }

    /** `handleDeleteBoard(id)`: filter, then either move the pointer or, when no
        board is left, create the replacement on the emptied list. */
    method HandleDeleteBoard(id: string, freshId: string, now: int)
      modifies this
      ensures Current() == DeleteBoard(old(Current()), id, freshId, now)
      ensures |boards| > 0 && storage == Some(boards)
      ensures old(Valid()) ==> Valid()
    {
      var newBoards := FilterOut(boards, BoardId, id);
      boards := newBoards;
      if activeBoardId == Some(id) && |newBoards| > 0 {
        activeBoardId := Some(newBoards[0].id);
      } else if |newBoards| == 0 {
        HandleCreateBoard(REPLACEMENT_BOARD_NAME, freshId, now);
      }
      SaveBoards();
    }

    /** `handleAddItem(item)`. */
    method HandleAddItem(item: BoardItem)
      modifies this
      ensures Current() == AddItem(old(Current()), item)
      ensures storage == if Truthy(old(activeBoardId)) then SaveEffect(old(storage), boards) else old(storage)
      ensures old(Valid()) ==> Valid()
    {
      UpdateActiveBoard(OnTop(item));
    }

    /** `handleDeleteItem(itemId)`. */
    method HandleDeleteItem(itemId: string)
      modifies this
      ensures Current() == DeleteItem(old(Current()), itemId)
      ensures storage == if Truthy(old(activeBoardId)) then SaveEffect(old(storage), boards) else old(storage)
      ensures old(Valid()) ==> Valid()
    {
      UpdateActiveBoard(WithoutItem(itemId));
    }

    /** `onAddImage(url, title)`, with `freshId` for `uuidv4()`. */
    method OnAddImage(url: string, title: string, freshId: string)
      modifies this
      ensures Current() == AddItem(old(Current()), ImageItem(freshId, url, title))
      ensures storage == if Truthy(old(activeBoardId)) then SaveEffect(old(storage), boards) else old(storage)
      ensures old(Valid()) ==> Valid()
    {
      HandleAddItem(ImageItem(freshId, url, title));
    }

    /** `onAddText(text, category)`, with `freshId` for `uuidv4()` and `random`
        for `Math.random()`. */
    method OnAddText(text: string, category: string, freshId: string, random: real)
      requires 0.0 <= random < 1.0
      modifies this
      ensures Current() == AddItem(old(Current()), NoteItem(freshId, text, category, random))
      ensures storage == if Truthy(old(activeBoardId)) then SaveEffect(old(storage), boards) else old(storage)
      ensures old(Valid()) ==> Valid()
    {
      var color := NOTE_COLORS[NoteColorIndex(random)];
      HandleAddItem(BoardItem(freshId, NOTE, text, Some(category), Some(color), None, None));
    }
  }
}
