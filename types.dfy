/** The editor state shared by the engine and its callers. */
module Types {

  /**
   * A cursor position. The row is an integer that may lie outside the buffer
   * (-1 above the first line, the line count below the last one); the column
   * is never negative.
   */
  datatype Pos = Pos(row: int, col: nat)

  /** A text buffer: its lines, in display order, and the cursor. */
  datatype Buffer = Buffer(lines: seq<string>, cursor: Pos)
}
