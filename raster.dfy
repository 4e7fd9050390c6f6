/**
 * The pure part of rendering: which grid cell a world position lands in, and
 * which glyph a cell value is drawn as.
 */
module Raster {

  /** World units of y per grid row; the world's height is rows times this. */
  const RowHeight: real := 2.222

  datatype Cell = Cell(row: int, col: int)

  predicate InGrid(c: Cell, rows: int, cols: int) {
    0 <= c.row < rows && 0 <= c.col < cols
  }

  /** The C++ cast of a double to int: truncation toward zero. */
  function Trunc(v: real): (n: int)
    ensures 0.0 <= v ==> 0 <= n && n as real <= v < n as real + 1.0
    ensures v < 0.0 ==> n <= 0 && n as real - 1.0 < v <= n as real
  {
    if v >= 0.0 then v.Floor else -((-v).Floor)
  }

  /**
   * The cell a particle at (x, y) is written to: the truncated column and
   * row, each clamped from above only.
   */
  function CellOf(x: real, y: real, rows: int, cols: int): (c: Cell)
    ensures c.row <= rows - 1 && c.col <= cols - 1
    ensures 0.0 <= x < (cols - 1) as real ==> c.col as real <= x < (c.col + 1) as real
    ensures 0.0 <= x && (cols - 1) as real <= x ==> c.col == cols - 1
    ensures 0.0 <= y < (rows - 1) as real * RowHeight ==> c.row as real * RowHeight <= y < (c.row + 1) as real * RowHeight
    ensures 0.0 <= y && (rows - 1) as real * RowHeight <= y ==> c.row == rows - 1
    ensures -1.0 < x && -RowHeight < y && 1 <= rows && 1 <= cols ==> InGrid(c, rows, cols)
  {
    var col := Trunc(x);
    var row := Trunc(y / RowHeight);
    Cell(if row > rows - 1 then rows - 1 else row, if col > cols - 1 then cols - 1 else col)
  }

  /** A worked case: (5.0, 11.11) in a 15 by 33 grid is row 5, column 5. */
  lemma CellOfExample()
    ensures CellOf(5.0, 11.11, 15, 33) == Cell(5, 5)
  {
    assert 11.11 / RowHeight == 5.0;
  }

  /** getCharacter: the glyph a grid cell value is drawn as. */
  function Glyph(value: int): (ch: char)
    ensures ch == '1' <==> value == 2
    ensures ch == '0' <==> value == 1
    ensures ch == ' ' <==> value != 1 && value != 2
  {
    if value == 2 then '1'
    else if value == 1 then '0'
    else ' '
  }

  /**
   * A particle tagged 1 or 2 is drawn as the bit its floor bounces emit:
   * the low bit of `value - 1`.
   */
  lemma GlyphShowsEmittedBit(value: int)
    requires value == 1 || value == 2
    ensures Glyph(value) == if (value - 1) % 2 == 1 then '1' else '0'
  {
  }
}
