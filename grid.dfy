/** `createCoordinatesGrid`: a `columns` by `rows` lattice of points, spaced
    `unit * 8` apart and centred on `origin`, pushed column by column. */
module Grid {
  import opened Models

  /** `distanceBetweenPoints`. */
  function Spacing(unit: real): real
  {
    unit * 8.0
  }

  /** How many times `for (let i = 0; i < n; i++)` runs. */
  function Iterations(n: int): nat
  {
    if n <= 0 then 0 else n
  }

  /** The point the loops push for column `i` and row `j`, by the formula of the loop body. */
  function PointAt(columns: int, rows: int, origin: Coordinates, unit: real, i: int, j: int): GridPoint
  {
    var d := Spacing(unit);
    var width := columns as real * d;
    var height := rows as real * d;
    GridPoint(
      (d / 2.0 + origin.x - width + width / 2.0) + i as real * d,
      (d / 2.0 + origin.y - height + height / 2.0) + j as real * d,
      i, j)
  }

  /** The points the inner loop pushes for column `i`. */
  function Column(columns: int, rows: int, origin: Coordinates, unit: real, i: int): (col: seq<GridPoint>)
    ensures |col| == Iterations(rows)
  {
    seq(Iterations(rows), j => PointAt(columns, rows, origin, unit, i, j))
  }

  /** The list after the outer loop has run for columns `0 .. n-1`. */
  function FirstColumns(columns: int, rows: int, origin: Coordinates, unit: real, n: nat): seq<GridPoint>
  {
    if n == 0 then []
    else FirstColumns(columns, rows, origin, unit, n - 1) + Column(columns, rows, origin, unit, n - 1)
  }

  /** The whole lattice. */
  function Grid(columns: int, rows: int, origin: Coordinates, unit: real): seq<GridPoint>
  {
    FirstColumns(columns, rows, origin, unit, Iterations(columns))
  }

  method CreateCoordinatesGrid(columns: int, rows: int, origin: Coordinates, unit: real)
    returns (grid: seq<GridPoint>)
    ensures grid == Grid(columns, rows, origin, unit)
    ensures |grid| == Iterations(columns) * Iterations(rows)
  {
    grid := [];
    var i := 0;
    while i < columns
      invariant 0 <= i <= Iterations(columns)
      invariant grid == FirstColumns(columns, rows, origin, unit, i)
    {
      var j := 0;
      while j < rows
        invariant 0 <= j <= Iterations(rows)
        invariant grid == FirstColumns(columns, rows, origin, unit, i)
                          + Column(columns, rows, origin, unit, i)[..j]
      {
        grid := grid + [PointAt(columns, rows, origin, unit, i, j)];
        j := j + 1;
      }
      assert Column(columns, rows, origin, unit, i)[..Iterations(rows)] == Column(columns, rows, origin, unit, i);
      i := i + 1;
    }
    GridSize(columns, rows, origin, unit);
  }

  lemma {:induction false} FirstColumnsSize(columns: int, rows: int, origin: Coordinates, unit: real, n: nat)
    ensures |FirstColumns(columns, rows, origin, unit, n)| == n * Iterations(rows)
  {
    if n > 0 {
      FirstColumnsSize(columns, rows, origin, unit, n - 1);
      assert (n - 1) * Iterations(rows) + Iterations(rows) == n * Iterations(rows);
    }
  }

  /** The lattice has exactly `columns * rows` points (none when either is not positive). */
  lemma {:induction false} GridSize(columns: int, rows: int, origin: Coordinates, unit: real)
    ensures |Grid(columns, rows, origin, unit)| == Iterations(columns) * Iterations(rows)
  {
    FirstColumnsSize(columns, rows, origin, unit, Iterations(columns));
  }

  lemma {:induction false} FirstColumnsAt(
    columns: int, rows: int, origin: Coordinates, unit: real, n: nat, i: int, j: int)
    requires 0 <= i < n && 0 <= j < Iterations(rows)
    ensures |FirstColumns(columns, rows, origin, unit, n)| == n * Iterations(rows)
    ensures 0 <= i * Iterations(rows) + j < n * Iterations(rows)
    ensures FirstColumns(columns, rows, origin, unit, n)[i * Iterations(rows) + j]
            == PointAt(columns, rows, origin, unit, i, j)
  {
    var r := Iterations(rows);
    FirstColumnsSize(columns, rows, origin, unit, n);
    FirstColumnsSize(columns, rows, origin, unit, n - 1);
    assert n * r == (n - 1) * r + r;
    assert i * r + j < (i + 1) * r;
    if i < n - 1 {
      assert (n - 1) * r == (i + 1) * r + (n - 2 - i) * r;
      FirstColumnsAt(columns, rows, origin, unit, n - 1, i, j);
    }
  }

  /** The list index of column `i`, row `j` in a lattice of `rows` rows. */
  function FlatIndex(i: int, j: int, rows: int): int
  {
    i * rows + j
  }

  /** Every index below `n * rows` is `i * rows + j` for a column `i < n` and a row `j`. */
  lemma {:induction false} FirstColumnsCover(rows: nat, n: nat, k: int)
    requires 0 <= k < n * rows
    ensures exists i, j :: 0 <= i < n && 0 <= j < rows && k == FlatIndex(i, j, rows)
  {
    assert n * rows == (n - 1) * rows + rows;
    if k < (n - 1) * rows {
      FirstColumnsCover(rows, n - 1, k);
    } else {
      assert k == FlatIndex(n - 1, k - (n - 1) * rows, rows);
    }
  }

  /** Column-major order: index `i * rows + j` holds column `i`, row `j`. */
  lemma {:induction false} ColumnMajor(columns: int, rows: int, origin: Coordinates, unit: real, i: int, j: int)
    requires 0 <= i < columns && 0 <= j < rows
    ensures 0 <= i * rows + j < |Grid(columns, rows, origin, unit)|
    ensures var p := Grid(columns, rows, origin, unit)[i * rows + j];
            p.xId == i && p.yId == j && p == PointAt(columns, rows, origin, unit, i, j)
  {
    FirstColumnsAt(columns, rows, origin, unit, Iterations(columns), i, j);
  }

  /** Every point of the lattice is the one the loops push for some column and row. */
  lemma {:induction false} GridAt(columns: int, rows: int, origin: Coordinates, unit: real, k: int)
    requires 0 <= k < |Grid(columns, rows, origin, unit)|
    ensures exists i, j :: 0 <= i < columns && 0 <= j < rows && k == FlatIndex(i, j, rows)
                        && Grid(columns, rows, origin, unit)[k] == PointAt(columns, rows, origin, unit, i, j)
  {
    GridSize(columns, rows, origin, unit);
    FirstColumnsCover(Iterations(rows), Iterations(columns), k);
    var i, j :| 0 <= i < Iterations(columns) && 0 <= j < Iterations(rows) && k == FlatIndex(i, j, Iterations(rows));
    ColumnMajor(columns, rows, origin, unit, i, j);
  }

  /** Every point's ids lie in `[0, columns) x [0, rows)` and no two points share them. */
  lemma {:induction false} IdsDistinctAndInRange(columns: int, rows: int, origin: Coordinates, unit: real)
    ensures var g := Grid(columns, rows, origin, unit);
            forall k :: 0 <= k < |g| ==> 0 <= g[k].xId < columns && 0 <= g[k].yId < rows
    ensures var g := Grid(columns, rows, origin, unit);
            forall k1, k2 :: 0 <= k1 < k2 < |g| ==> g[k1].xId != g[k2].xId || g[k1].yId != g[k2].yId
  {
    var g := Grid(columns, rows, origin, unit);
    forall k | 0 <= k < |g|
      ensures 0 <= g[k].xId < columns && 0 <= g[k].yId < rows
    {
      GridAt(columns, rows, origin, unit, k);
    }
    forall k1, k2 | 0 <= k1 < k2 < |g|
      ensures g[k1].xId != g[k2].xId || g[k1].yId != g[k2].yId
    {
      GridAt(columns, rows, origin, unit, k1);
      GridAt(columns, rows, origin, unit, k2);
    }
  }

  /** The loop body's formula is the centred one: column `i` sits
      `(2i + 1 - columns) * 4 * unit` from the origin, row `j` likewise. */
  lemma {:induction false} CentredPosition(columns: int, rows: int, origin: Coordinates, unit: real, i: int, j: int)
    ensures PointAt(columns, rows, origin, unit, i, j).x == origin.x + (2 * i + 1 - columns) as real * 4.0 * unit
    ensures PointAt(columns, rows, origin, unit, i, j).y == origin.y + (2 * j + 1 - rows) as real * 4.0 * unit
  {
  }

  /** Neighbouring columns and rows are `unit * 8` apart. */
  lemma {:induction false} NeighbourSpacing(columns: int, rows: int, origin: Coordinates, unit: real, i: int, j: int)
    ensures PointAt(columns, rows, origin, unit, i + 1, j).x - PointAt(columns, rows, origin, unit, i, j).x == unit * 8.0
    ensures PointAt(columns, rows, origin, unit, i, j + 1).y - PointAt(columns, rows, origin, unit, i, j).y == unit * 8.0
  {
    CentredPosition(columns, rows, origin, unit, i, j);
    CentredPosition(columns, rows, origin, unit, i + 1, j + 1);
  }

  /** The lattice is symmetric about the origin: column `i` and column
      `columns - 1 - i` average to `origin.x`, and rows likewise. */
  lemma {:induction false} SymmetricAboutOrigin(columns: int, rows: int, origin: Coordinates, unit: real, i: int, j: int)
    ensures (PointAt(columns, rows, origin, unit, i, j).x + PointAt(columns, rows, origin, unit, columns - 1 - i, j).x) / 2.0 == origin.x
    ensures (PointAt(columns, rows, origin, unit, i, j).y + PointAt(columns, rows, origin, unit, i, rows - 1 - j).y) / 2.0 == origin.y
  {
    CentredPosition(columns, rows, origin, unit, i, j);
    CentredPosition(columns, rows, origin, unit, columns - 1 - i, rows - 1 - j);
  }
}
