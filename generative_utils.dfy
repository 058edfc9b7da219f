/** The generators of the p5 snapshot: each carries the clock value at which
    it dies instead of a lifetime manager. */
module GenerativeUtils {
  import opened Models
  import Utils

  /** The draw callback of a generator, as a token. */
  datatype PPainter =
    | DotsPainter(unit: real)
    | CirclePainter(at: Coordinates, lifeDuration: int, unit: real)

  datatype PGenerator = PGenerator(deathTime: Duration, painter: PPainter, coordinates: Option<CircleCoordinates>)

  /** `dotGridAlgo`: the background grid of dots, which never dies. */
  function DotGridAlgo(unit: real): (g: PGenerator)
    ensures g.deathTime == Infinite
    ensures g.painter == DotsPainter(unit)
  {
    PGenerator(Infinite, DotsPainter(unit), None)
  }

  /** The survival test of the render loop, `currentTime - deathTime < 0`;
      `currentTime - Infinity` is `-Infinity`, which is below 0. */
  predicate Alive(g: PGenerator, currentTime: int)
  {
    match g.deathTime
    case Infinite => true
    case Finite(d) => currentTime - d < 0
  }

  /** A generator that is dead at some clock value stays dead at every later one. */
  lemma {:induction false} DeadStaysDead(g: PGenerator, t: int, later: int)
    requires t <= later
    ensures Alive(g, later) ==> Alive(g, t)
  {
  }

  /** `buildCircleItem`: a circle on a random grid point that dies
      `lifeDuration` frames after `startingTime`. Reading `.x` of the
      `undefined` an empty list yields throws. */
  function BuildCircleItem(
    lifeDuration: int, startingTime: int, availablePoints: seq<GridPoint>, unit: real, draw: real)
    : (r: Result<PGenerator, Failure>)
    requires Utils.IsDraw(draw)
    ensures r.Err? <==> availablePoints == []
  {
    var deathTime := startingTime + lifeDuration;
    match Utils.PickPoint(availablePoints, draw)
    case None => Err(ReadOfUndefined)
    case Some(p) =>
      var at := Utils.ToCoordinates(p);
      Ok(PGenerator(Finite(deathTime), CirclePainter(at, lifeDuration, unit), Some(CircleCoordinates(at, at, at))))
  }

  /** The circle dies at `startingTime + lifeDuration`, stands on a point of
      the list, and its current, starting and final coordinates coincide. */
  lemma {:induction false} CircleItemShape(
    lifeDuration: int, startingTime: int, availablePoints: seq<GridPoint>, unit: real, draw: real)
    requires Utils.IsDraw(draw) && availablePoints != []
    ensures var r := BuildCircleItem(lifeDuration, startingTime, availablePoints, unit, draw);
            && r.Ok?
            && r.value.deathTime == Finite(startingTime + lifeDuration)
            && r.value.coordinates.Some?
            && var c := r.value.coordinates.value;
            && c.current == c.starting == c.final
            && (exists p :: p in availablePoints && c.starting == Coordinates(p.x, p.y))
            && r.value.painter.CirclePainter? && r.value.painter.at == c.starting
  {
    var p := Utils.PickPoint(availablePoints, draw).value;
    assert p in availablePoints;
  }

  /** The stroke alpha a circle is drawn with at clock value `currentTime`;
      `None` for the dot grid, whose alpha is fixed, and where JavaScript
      divides by zero. */
  function StrokeOpacity(g: PGenerator, currentTime: int): Option<int>
  {
    match (g.painter, g.deathTime)
    case (CirclePainter(_, lifeDuration, _), Finite(d)) => Utils.Opacity(d - currentTime, lifeDuration)
    case _ => None
  }

  /** A circle is drawn fully opaque when it is born and fully transparent when it dies. */
  lemma {:induction false} CircleFadesOut(
    lifeDuration: int, startingTime: int, availablePoints: seq<GridPoint>, unit: real, draw: real, t: int)
    requires Utils.IsDraw(draw) && availablePoints != [] && lifeDuration > 0
    ensures var g := BuildCircleItem(lifeDuration, startingTime, availablePoints, unit, draw).value;
            && StrokeOpacity(g, startingTime) == Some(255)
            && StrokeOpacity(g, startingTime + lifeDuration) == Some(0)
            && (startingTime <= t <= startingTime + lifeDuration ==>
                  StrokeOpacity(g, t).Some? && 0 <= StrokeOpacity(g, t).value <= 255)
  {
    CircleItemShape(lifeDuration, startingTime, availablePoints, unit, draw);
    Utils.OpacityFadesOut(startingTime + lifeDuration - t, lifeDuration);
  }
}
