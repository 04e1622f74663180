/** Where the results grid puts item `i`: five columns, filled row by row.
    Only the cell arithmetic is modelled, not pixel positions. */
module Grid {

  const Columns: nat := 5

  /** A grid cell. */
  datatype Cell = Cell(col: nat, row: nat)

  /** The cell of item `i`: column `i % 5`, row `floor(i / 5)`. */
  function CellOf(i: nat): (c: Cell)
    ensures c.col < Columns
    ensures c.row * Columns + c.col == i
  {
    Cell(i % Columns, i / Columns)
  }

  /** Two items never share a cell. */
  lemma CellsDistinct(i: nat, j: nat)
    requires i != j
    ensures CellOf(i) != CellOf(j)
  {
  }

  /** A page of at most ten items fits in two rows; the cats (the first at
      most five items) fill the first row. */
  lemma PageFitsTwoRows(i: nat)
    requires i < 2 * Columns
    ensures CellOf(i).row < 2
    ensures CellOf(i).row == 0 <==> i < Columns
  {
  }

  /** The number of columns the grid is centred for: five, or fewer when the
      page is shorter. */
  function CentredColumns(count: nat): (n: nat)
    ensures n <= Columns && n <= count
    ensures n == Columns || n == count
  {
    if count < Columns then count else Columns
  }
}
