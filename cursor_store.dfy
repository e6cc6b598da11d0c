/** The crawler's resume cursor (`save_cursor` / `load_cursor`): the search cursor of
    the next page is kept in a small JSON file so that a later run continues where
    this one stopped. The start cursor `*` and the empty cursor are never stored. */
module CursorStore {
  import opened Wrappers
  import opened Files

  /** A cursor worth storing: present, non-empty and not the start cursor `*`. */
  predicate ValidCursor(c: Option<string>)
  {
    c.Some? && c.value != "" && c.value != "*"
  }

  /** The cursor file after `save_cursor(c)`: rewritten for a valid cursor, left as it
      was otherwise. */
  function WriteCursor(f: CursorFile, c: Option<string>): (r: CursorFile)
    ensures ValidCursor(c) ==> r == CursorJson(c)
    ensures !ValidCursor(c) ==> r == f
  {
    if ValidCursor(c) then CursorJson(c) else f
  }

  /** What `load_cursor()` returns for a cursor file: the stored cursor when it is
      valid, nothing when the file is missing, corrupt, or holds an empty, null or
      start cursor. */
  function ReadCursor(f: CursorFile): (r: Option<string>)
    ensures r.Some? ==> ValidCursor(r)
    ensures r.Some? <==> f.CursorJson? && ValidCursor(f.cursor)
    ensures r.Some? ==> r == f.cursor
  {
    match f
    case CursorJson(c) => if ValidCursor(c) then c else None
    case _ => None
  }

  /** `save_cursor(cursor)`. */
  method SaveCursor(disk: Disk, c: Option<string>)
    modifies disk
    ensures disk.cursor == WriteCursor(old(disk.cursor), c)
    ensures disk.docs == old(disk.docs) && disk.log == old(disk.log) && disk.cache == old(disk.cache)
  {
    if ValidCursor(c) {
      disk.cursor := CursorJson(c);
    }
  }

  /** Loading returns exactly the cursor a valid save stored. */
  lemma SaveThenLoad(f: CursorFile, c: Option<string>)
    requires ValidCursor(c)
    ensures ReadCursor(WriteCursor(f, c)) == c
  {
  }

  /** Saving an invalid cursor leaves what a later load returns unchanged. */
  lemma InvalidSaveIsInvisible(f: CursorFile, c: Option<string>)
    requires !ValidCursor(c)
    ensures ReadCursor(WriteCursor(f, c)) == ReadCursor(f)
  {
  }

  /** Loading never yields the start cursor or an empty cursor, whatever the file
      holds. */
  lemma LoadNeverYieldsStart(f: CursorFile)
    ensures ReadCursor(f) != Some("*") && ReadCursor(f) != Some("")
  {
  }

  /** The last valid save wins: saving `a` and then `b` loads `b` when `b` is valid
      and `a` when only `a` is. */
  lemma LastValidSaveWins(f: CursorFile, a: Option<string>, b: Option<string>)
    ensures ValidCursor(b) ==> ReadCursor(WriteCursor(WriteCursor(f, a), b)) == b
    ensures !ValidCursor(b) && ValidCursor(a) ==> ReadCursor(WriteCursor(WriteCursor(f, a), b)) == a
  {
  }
}
