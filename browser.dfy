/** The cursor arithmetic of the file list: moving the cursor and choosing
    the window of rows that is shown around it. */
module Browser {

  /** Number of rows shown at once. */
  const WindowSize: int := 16

  /** The cursor is on an entry, or at 0 when the list is empty. */
  predicate InRange(cursor: int, count: int) {
    (count == 0 && cursor == 0) || (0 <= cursor < count)
  }

  /** Moving up stops at the first entry. */
  function Up(cursor: int): (r: int)
    ensures forall count :: InRange(cursor, count) ==> InRange(r, count)
    ensures cursor > 0 ==> r == cursor - 1
    ensures cursor <= 0 ==> r == cursor
  {
    if cursor > 0 then cursor - 1 else cursor
  }

  /** Moving down (and the step after adding a track) stops at the last entry. */
  function Down(cursor: int, count: int): (r: int)
    ensures InRange(cursor, count) ==> InRange(r, count)
    ensures cursor < count - 1 ==> r == cursor + 1
    ensures cursor >= count - 1 ==> r == cursor
  {
    if cursor < count - 1 then cursor + 1 else cursor
  }

  datatype Window = Window(start: int, end: int)

  /** Row `i` of the list is drawn in window `w`. */
  predicate Shows(w: Window, i: int) {
    w.start <= i < w.end
  }

  /** The rows [start, end) that are shown: at most half a window on each
      side of the cursor, clipped to the list. */
  function ShownRows(cursor: int, count: int): (w: Window)
    requires count >= 0
    ensures 0 <= w.start && w.end <= count
    ensures w.end - w.start <= WindowSize
    ensures InRange(cursor, count) ==> w.start <= cursor && w.start <= w.end
    ensures InRange(cursor, count) && count > 0 ==> cursor < w.end
    ensures cursor - w.start <= WindowSize / 2 && w.end - cursor <= WindowSize / 2
    ensures forall i :: 0 <= i < count && cursor - WindowSize / 2 <= i < cursor + WindowSize / 2 ==>
      Shows(w, i)
  {
    var start := if cursor - WindowSize / 2 > 0 then cursor - WindowSize / 2 else 0;
    var end := if cursor + WindowSize / 2 < count then cursor + WindowSize / 2 else count;
    Window(start, end)
  }
}
