/** The permanent grid renderers of the render-algorithm snapshot: the dot
    grid, drawn one layer below the item layers, and the grid delimiter,
    which picks the extreme points of the lattice and draws the rectangle
    they span twice. Both never expire. */
module DotGrid {
  import opened Models
  import opened Canvas
  import Utils
  import Grid
  import Seqs
  import Lifetime

  /** `dotGridAlgo`: the `unit` argument is replaced by `distanceBetweenLayers`
      before it is used. */
  function DotGridAlgo(
    points: seq<GridPoint>, unit: real, distanceBetweenLayers: real, currentTime: int, idDraw: real)
    : (g: Generator)
    requires Utils.IsDraw(idDraw)
    ensures g.kind == DotGridKind && g.movement.None?
    ensures g.life == LifeSpec(currentTime, Infinite)
    ensures |g.layers| == 1 && g.layers[0] == GridDotsLayer(points, distanceBetweenLayers)
    ensures currentTime <= g.id < currentTime + 1000000
  {
    Generator(
      Utils.BuildId(currentTime, idDraw), DotGridKind, LifeSpec(currentTime, Infinite), None,
      [GridDotsLayer(points, distanceBetweenLayers)])
  }

  /** The generator does not depend on the `unit` it is given. */
  lemma {:induction false} DotGridIgnoresUnit(
    points: seq<GridPoint>, unit1: real, unit2: real, distanceBetweenLayers: real, currentTime: int, idDraw: real)
    requires Utils.IsDraw(idDraw)
    ensures DotGridAlgo(points, unit1, distanceBetweenLayers, currentTime, idDraw)
         == DotGridAlgo(points, unit2, distanceBetweenLayers, currentTime, idDraw)
  {
  }

  /** The dot grid is never killed by expiry. */
  lemma {:induction false} DotGridNeverExpires(
    points: seq<GridPoint>, unit: real, distanceBetweenLayers: real, currentTime: int, idDraw: real, now: int)
    requires Utils.IsDraw(idDraw)
    ensures var g := DotGridAlgo(points, unit, distanceBetweenLayers, currentTime, idDraw);
            !Lifetime.RemainingAt(g.life.desired, g.life.birth, now).AtMostZero()
  {
    Lifetime.InfiniteNeverExpires(currentTime, now);
  }

  /** The dot grid's draw callback: one step back in depth, a dot per grid
      point in list order, one step forward again. */
  method RenderGridDots(points: seq<GridPoint>, depth: real) returns (ops: seq<RenderOp>)
    ensures NetTranslation(ops) == 0.0
    ensures Marks(ops, 0.0) == seq(|points|, i requires 0 <= i < |points| => Placed(-depth, Dot(points[i].x, points[i].y)))
  {
    ops := [Translate(-depth)];
    SingleOp(Translate(-depth), 0.0);
    var i := 0;
    while i < |points|
      invariant 0 <= i <= |points|
      invariant NetTranslation(ops) == -depth
      invariant Marks(ops, 0.0) == seq(i, k requires 0 <= k < i => Placed(-depth, Dot(points[k].x, points[k].y)))
    {
      var dot := Dot(points[i].x, points[i].y);
      MarksAppend(ops, [dot], 0.0);
      NetTranslationAppend(ops, [dot]);
      SingleOp(dot, -depth);
      ops := ops + [dot];
      i := i + 1;
    }
    MarksAppend(ops, [Translate(depth)], 0.0);
    NetTranslationAppend(ops, [Translate(depth)]);
    SingleOp(Translate(depth), -depth);
    ops := ops + [Translate(depth)];
  }

  /** `(acc, curr) => curr.xId > acc.xId ? curr : acc`. */
  function XLastStep(): (GridPoint, GridPoint) -> GridPoint
  {
    (acc: GridPoint, curr: GridPoint) => if curr.xId > acc.xId then curr else acc
  }

  /** `(acc, curr) => curr.xId == first.xId && curr.yId > curr.yId ? curr : acc`,
      as written: the second comparison is between a point and itself. */
  function YFirstStepAsWritten(first: GridPoint): (GridPoint, GridPoint) -> GridPoint
  {
    (acc: GridPoint, curr: GridPoint) => if curr.xId == first.xId && curr.yId > curr.yId then curr else acc
  }

  /** The step the comment above `yFirstPoint` describes: the point of the
      first column with the highest `yId`. */
  function YFirstStep(first: GridPoint): (GridPoint, GridPoint) -> GridPoint
  {
    (acc: GridPoint, curr: GridPoint) => if curr.xId == first.xId && curr.yId > acc.yId then curr else acc
  }

  /** `points[m]` has the largest `xId`, and no earlier point has it. */
  predicate IsFirstMaxX(points: seq<GridPoint>, m: int)
  {
    && 0 <= m < |points|
    && (forall i | 0 <= i < |points| :: points[i].xId <= points[m].xId)
    && (forall i | 0 <= i < m :: points[i].xId < points[m].xId)
  }

  /** `points[m]` lies in column `column` and has the largest `yId` there,
      and no earlier point of that column has it. */
  predicate IsFirstMaxYInColumn(points: seq<GridPoint>, column: int, m: int)
  {
    && 0 <= m < |points| && points[m].xId == column
    && (forall i | 0 <= i < |points| && points[i].xId == column :: points[i].yId <= points[m].yId)
    && (forall i | 0 <= i < m && points[i].xId == column :: points[i].yId < points[m].yId)
  }

  /** `xlastPoint`; `None` where the unseeded `reduce` throws. */
  function XLastPoint(points: seq<GridPoint>): Option<GridPoint>
  {
    if points == [] then None else Some(Seqs.ReduceFrom(points, XLastStep(), points[0], 1))
  }

  /** `yFirstPoint` as written. */
  function YFirstPointAsWritten(points: seq<GridPoint>): Option<GridPoint>
  {
    if points == [] then None else Some(Seqs.ReduceFrom(points, YFirstStepAsWritten(points[0]), points[0], 1))
  }

  /** `yFirstPoint` as its comment describes it. */
  function YFirstPoint(points: seq<GridPoint>): Option<GridPoint>
  {
    if points == [] then None else Some(Seqs.ReduceFrom(points, YFirstStep(points[0]), points[0], 1))
  }

  lemma {:induction false} XLastFromFirstMax(points: seq<GridPoint>, k: int, n: nat)
    requires 0 <= k < n <= |points|
    requires forall i | 0 <= i < n :: points[i].xId <= points[k].xId
    requires forall i | 0 <= i < k :: points[i].xId < points[k].xId
    ensures exists m :: IsFirstMaxX(points, m) && Seqs.ReduceFrom(points, XLastStep(), points[k], n) == points[m]
    decreases |points| - n
  {
    if n == |points| {
      assert IsFirstMaxX(points, k);
    } else if points[n].xId > points[k].xId {
      XLastFromFirstMax(points, n, n + 1);
    } else {
      XLastFromFirstMax(points, k, n + 1);
    }
  }

  /** `xlastPoint` is the first point with the largest `xId`: the strict `>`
      keeps the earliest of equals. */
  lemma {:induction false} XLastIsFirstMax(points: seq<GridPoint>)
    requires points != []
    ensures exists m :: IsFirstMaxX(points, m) && XLastPoint(points) == Some(points[m])
  {
    XLastFromFirstMax(points, 0, 1);
  }

  lemma {:induction false} YFirstAsWrittenFrom(points: seq<GridPoint>, first: GridPoint, acc: GridPoint, n: nat)
    requires n <= |points|
    ensures Seqs.ReduceFrom(points, YFirstStepAsWritten(first), acc, n) == acc
    decreases |points| - n
  {
    if n < |points| {
      YFirstAsWrittenFrom(points, first, acc, n + 1);
    }
  }

  /** As written, `yFirstPoint` is always the first point of the list. */
  lemma {:induction false} YFirstAsWrittenIsFirst(points: seq<GridPoint>)
    requires points != []
    ensures YFirstPointAsWritten(points) == Some(points[0])
  {
    YFirstAsWrittenFrom(points, points[0], points[0], 1);
  }

  lemma {:induction false} YFirstFromColumnMax(points: seq<GridPoint>, first: GridPoint, k: int, n: nat)
    returns (m: int)
    requires 0 <= k < n <= |points| && points[k].xId == first.xId
    requires forall i | 0 <= i < n && points[i].xId == first.xId :: points[i].yId <= points[k].yId
    requires forall i | 0 <= i < k && points[i].xId == first.xId :: points[i].yId < points[k].yId
    ensures IsFirstMaxYInColumn(points, first.xId, m)
    ensures Seqs.ReduceFrom(points, YFirstStep(first), points[k], n) == points[m]
    decreases |points| - n
  {
    if n == |points| {
      m := k;
    } else if points[n].xId == first.xId && points[n].yId > points[k].yId {
      assert YFirstStep(first)(points[k], points[n]) == points[n];
      m := YFirstFromColumnMax(points, first, n, n + 1);
    } else {
      assert YFirstStep(first)(points[k], points[n]) == points[k];
      m := YFirstFromColumnMax(points, first, k, n + 1);
    }
  }

  /** The intended `yFirstPoint` is the first point of the first point's
      column with the largest `yId`. */
  lemma {:induction false} YFirstIsColumnMax(points: seq<GridPoint>)
    requires points != []
    ensures exists m :: IsFirstMaxYInColumn(points, points[0].xId, m) && YFirstPoint(points) == Some(points[m])
  {
    var m := YFirstFromColumnMax(points, points[0], 0, 1);
  }

  /** The four extreme points the delimiter computes. */
  datatype Extremes = Extremes(xFirst: GridPoint, xLast: GridPoint, yFirst: GridPoint, yLast: GridPoint)

  /** `xfirstPoint`, `xlastPoint`, `yFirstPoint` and `yLastPoint`; an empty
      list makes the unseeded `reduce` throw. */
  function GridExtremes(points: seq<GridPoint>): (r: Result<Extremes, Failure>)
    ensures r.Err? <==> points == []
    ensures r.Err? ==> r.error == ReduceOfEmptyArray
    ensures r.Ok? ==> && r.value.xFirst == points[0] && r.value.yFirst == points[0]
                      && r.value.yLast == points[|points| - 1]
                      && exists m {:trigger IsFirstMaxX(points, m)} :: IsFirstMaxX(points, m) && r.value.xLast == points[m]
  {
    if points == [] then Err(ReduceOfEmptyArray)
    else
      XLastIsFirstMax(points);
      YFirstAsWrittenIsFirst(points);
      Ok(Extremes(points[0], XLastPoint(points).value, YFirstPointAsWritten(points).value, points[|points| - 1]))
  }

  /** `gridDelimiter` / `dotGridDelimiter`: a permanent generator with one
      layer, the rectangle from `xfirstPoint` to `xlastPoint` across and to
      `yLastPoint` down, drawn at depths 0 and `distanceBetweenLayers * 8`. */
  function GridDelimiter(points: seq<GridPoint>, distanceBetweenLayers: real, currentTime: int, idDraw: real)
    : (r: Result<Generator, Failure>)
    requires Utils.IsDraw(idDraw)
    ensures r.Err? <==> points == []
    ensures r.Ok? ==> r.value.kind == DotGridKind && r.value.life == LifeSpec(currentTime, Infinite)
                      && |r.value.layers| == 1 && r.value.layers[0].PerimeterLayer?
    ensures r.Ok? ==> currentTime <= r.value.id < currentTime + 1000000
    ensures r.Ok? ==> exists m {:trigger IsFirstMaxX(points, m)} :: && IsFirstMaxX(points, m)
                                  && r.value.layers == [PerimeterLayer(points[0], points[m].x - points[0].x,
                                                         points[|points| - 1].y - points[0].y, distanceBetweenLayers * 8.0)]
  {
    match GridExtremes(points)
    case Err(e) => Err(e)
    case Ok(x) =>
      // The witness for the rectangle's `xlastPoint`.
      var m :| IsFirstMaxX(points, m) && x.xLast == points[m];
      Ok(Generator(
        Utils.BuildId(currentTime, idDraw), DotGridKind, LifeSpec(currentTime, Infinite), None,
        [PerimeterLayer(x.xFirst, x.xLast.x - x.xFirst.x, x.yLast.y - x.xFirst.y, distanceBetweenLayers * 8.0)]))
  }

  /** The delimiter's draw callback: the rectangle, one step up, the
      rectangle again, one step down. */
  function RenderPerimeter(origin: GridPoint, width: real, height: real, depth: real): (ops: seq<RenderOp>)
    ensures NetTranslation(ops) == 0.0
    ensures Marks(ops, 0.0) == [Placed(0.0, Rect(origin.x, origin.y, width, height)),
                                Placed(depth, Rect(origin.x, origin.y, width, height))]
  {
    var rect := Rect(origin.x, origin.y, width, height);
    var ops := [rect, Translate(depth), rect, Translate(-depth)];
    assert ops[1..] == [Translate(depth), rect, Translate(-depth)];
    assert ops[2..] == [rect, Translate(-depth)];
    assert ops[3..] == [Translate(-depth)];
    assert ops[4..] == [];
    assert NetTranslation(ops[3..]) == -depth && Marks(ops[3..], depth) == [];
    assert NetTranslation(ops[2..]) == -depth && Marks(ops[2..], depth) == [Placed(depth, rect)];
    assert NetTranslation(ops[1..]) == 0.0 && Marks(ops[1..], 0.0) == [Placed(depth, rect)];
    ops
  }

  /** On a lattice, `xlastPoint` lies in the last column. */
  lemma {:induction false} XLastOnGrid(columns: int, rows: int, origin: Coordinates, unit: real)
    requires columns >= 1 && rows >= 1
    ensures var g := Grid.Grid(columns, rows, origin, unit);
            && XLastPoint(g).Some?
            && XLastPoint(g).value.x == Grid.PointAt(columns, rows, origin, unit, columns - 1, 0).x
  {
    var g := Grid.Grid(columns, rows, origin, unit);
    Grid.GridSize(columns, rows, origin, unit);
    XLastIsFirstMax(g);
    var m :| IsFirstMaxX(g, m) && XLastPoint(g) == Some(g[m]);
    Grid.ColumnMajor(columns, rows, origin, unit, columns - 1, 0);
    Grid.GridAt(columns, rows, origin, unit, m);
    var i, j :| 0 <= i < columns && 0 <= j < rows && m == Grid.FlatIndex(i, j, rows)
                && g[m] == Grid.PointAt(columns, rows, origin, unit, i, j);
    assert i == columns - 1;
    Grid.CentredPosition(columns, rows, origin, unit, i, j);
    Grid.CentredPosition(columns, rows, origin, unit, columns - 1, 0);
  }

  /** On a lattice, the first point is column 0, row 0 and the last is the
      last column's last row. */
  lemma {:induction false} EndsOfGrid(columns: int, rows: int, origin: Coordinates, unit: real)
    requires columns >= 1 && rows >= 1
    ensures var g := Grid.Grid(columns, rows, origin, unit);
            && |g| == columns * rows
            && g[0] == Grid.PointAt(columns, rows, origin, unit, 0, 0)
            && g[|g| - 1] == Grid.PointAt(columns, rows, origin, unit, columns - 1, rows - 1)
  {
    Grid.GridSize(columns, rows, origin, unit);
    Grid.ColumnMajor(columns, rows, origin, unit, 0, 0);
    Grid.ColumnMajor(columns, rows, origin, unit, columns - 1, rows - 1);
    assert (columns - 1) * rows + rows - 1 == columns * rows - 1;
  }

  /** On a lattice, `yFirstPoint` as written is column 0, row 0, while the
      intended one is column 0, last row; they differ on every lattice with
      two rows or more. */
  lemma {:induction false} YFirstOnGrid(columns: int, rows: int, origin: Coordinates, unit: real)
    requires columns >= 1 && rows >= 1
    ensures var g := Grid.Grid(columns, rows, origin, unit);
            && YFirstPointAsWritten(g) == Some(Grid.PointAt(columns, rows, origin, unit, 0, 0))
            && YFirstPoint(g) == Some(Grid.PointAt(columns, rows, origin, unit, 0, rows - 1))
    ensures rows >= 2 ==>
              YFirstPointAsWritten(Grid.Grid(columns, rows, origin, unit)) != YFirstPoint(Grid.Grid(columns, rows, origin, unit))
  {
    var g := Grid.Grid(columns, rows, origin, unit);
    EndsOfGrid(columns, rows, origin, unit);
    YFirstAsWrittenIsFirst(g);
    YFirstIsColumnMax(g);
    var m :| IsFirstMaxYInColumn(g, g[0].xId, m) && YFirstPoint(g) == Some(g[m]);
    Grid.ColumnMajor(columns, rows, origin, unit, 0, rows - 1);
    Grid.GridAt(columns, rows, origin, unit, m);
    var i, j :| 0 <= i < columns && 0 <= j < rows && m == Grid.FlatIndex(i, j, rows)
                && g[m] == Grid.PointAt(columns, rows, origin, unit, i, j);
    assert j == rows - 1;
  }

  /** On a lattice of `createCoordinatesGrid`, the rectangle starts at the
      first point and spans `columns - 1` spacings across and `rows - 1` down. */
  lemma {:induction false} PerimeterOnGrid(
    columns: int, rows: int, origin: Coordinates, unit: real, distanceBetweenLayers: real, currentTime: int, idDraw: real)
    requires columns >= 1 && rows >= 1 && Utils.IsDraw(idDraw)
    ensures var g := Grid.Grid(columns, rows, origin, unit);
            var r := GridDelimiter(g, distanceBetweenLayers, currentTime, idDraw);
            && r.Ok?
            && r.value.layers[0] == PerimeterLayer(
                 Grid.PointAt(columns, rows, origin, unit, 0, 0),
                 (columns - 1) as real * Grid.Spacing(unit),
                 (rows - 1) as real * Grid.Spacing(unit),
                 distanceBetweenLayers * 8.0)
  {
    XLastOnGrid(columns, rows, origin, unit);
    EndsOfGrid(columns, rows, origin, unit);
    Grid.CentredPosition(columns, rows, origin, unit, 0, 0);
    Grid.CentredPosition(columns, rows, origin, unit, columns - 1, rows - 1);
    Grid.CentredPosition(columns, rows, origin, unit, columns - 1, 0);
  }
}
