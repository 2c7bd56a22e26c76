/** The data model of the vision board: item kinds, items, boards, goal
    suggestions and the palette of sticky-note colours (types.ts). */
module Types {

  /** A value that may be absent: an optional field, a nullable id, a storage
      slot that may hold nothing. */
  datatype Option<T> = None | Some(value: T)

  /** The three declared item kinds. TEXT is declared but no store operation
      ever builds an item of that kind. */
  datatype ItemType = IMAGE | TEXT | NOTE

  /** A card on a board. `kind` is the source's `type` field. Only `id`, `kind`
      and `content` are required; nothing in the type ties `color` to `kind`. */
  datatype BoardItem = BoardItem(
    id: string,
    kind: ItemType,
    content: string,
    title: Option<string>,
    color: Option<string>,
    width: Option<string>,
    height: Option<string>)

  /** A named, ordered collection of items; `createdAt` is epoch milliseconds. */
  datatype Board = Board(id: string, name: string, items: seq<BoardItem>, createdAt: int)

  /** One suggestion of the goal generator: a category and the goal text. */
  datatype GoalSuggestion = GoalSuggestion(category: string, goal: string)

  /** The background colours a sticky note can get. */
  const NOTE_COLORS: seq<string> :=
    ["bg-yellow-100", "bg-blue-100", "bg-green-100", "bg-pink-100", "bg-purple-100", "bg-orange-100"]

  /** The string value each enum member carries (what a stored snapshot holds). */
  function ItemTypeTag(t: ItemType): (tag: string)
    ensures tag in {"IMAGE", "TEXT", "NOTE"}
  {
    match t
    case IMAGE => "IMAGE"
    case TEXT => "TEXT"
    case NOTE => "NOTE"
  }

  /** Which strings are `ItemType` values: the three tags and nothing else. The
      store itself never parses a kind (a loaded snapshot is taken as it is);
      this only describes what a well-formed snapshot may hold in `type`. */
  function ParseItemType(tag: string): (r: Option<ItemType>)
    ensures r.Some? <==> tag in {"IMAGE", "TEXT", "NOTE"}
  {
    if tag == "IMAGE" then Some(IMAGE)
    else if tag == "TEXT" then Some(TEXT)
    else if tag == "NOTE" then Some(NOTE)
    else None
  }

  /** The tags of the three kinds are distinct and read back to the same kind. */
  lemma ItemTypeTagRoundTrip(t: ItemType)
    ensures ParseItemType(ItemTypeTag(t)) == Some(t)
    ensures forall u: ItemType :: ItemTypeTag(u) == ItemTypeTag(t) ==> u == t
  {
  }

  /** The palette has six distinct entries, so every index 0..5 names a colour. */
  lemma NoteColorsPalette()
    ensures |NOTE_COLORS| == 6
    ensures forall i, j :: 0 <= i < j < |NOTE_COLORS| ==> NOTE_COLORS[i] != NOTE_COLORS[j]
  {
  }
}
