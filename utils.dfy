/** The helpers of the container snapshot: JavaScript's rounding, frame
    counts, ids salted with a random draw, the random choice of a grid point,
    and the two generator factories of that snapshot. Every `Math.random()`
    draw is a parameter in `[0, 1)`. */
module Utils {
  import opened Models
  import Lifetime

  /** `Math.round`: the integer nearest to `x`, halves rounded up. */
  function Round(x: real): (r: int)
    ensures r as real <= x + 0.5 < r as real + 1.0
  {
    (x + 0.5).Floor
  }

  lemma {:induction false} RoundOfInteger(n: int)
    ensures Round(n as real) == n
  {
  }

  /** The number of clock frames in `seconds` at `fps` frames per second. */
  function SecondsToFrames(seconds: real, fps: real): (frames: int)
    ensures frames as real - 0.5 <= fps * seconds < frames as real + 0.5
  {
    Round(fps * seconds)
  }

  /** The frame counts the cadences and lifetimes of the core use. */
  lemma {:induction false} CoreFrameCounts()
    ensures SecondsToFrames(0.5, 60.0) == 30
    ensures SecondsToFrames(0.14, 60.0) == 8
    ensures SecondsToFrames(5.0, 60.0) == 300
    ensures SecondsToFrames(1.0, 60.0) == 60
    ensures SecondsToFrames(2.0, 60.0) == 120
    ensures SecondsToFrames(1.0, 144.0) == 144
    ensures SecondsToFrames(0.1, 144.0) == 14
  {
    assert 60.0 * 0.14 + 0.5 == 8.9;
    assert 144.0 * 0.1 + 0.5 == 14.9;
  }

  predicate IsDraw(r: real)
  {
    0.0 <= r < 1.0
  }

  /** `currentTime + Math.floor(Math.random() * 1000000)`. */
  function BuildId(currentTime: int, draw: real): (id: int)
    requires IsDraw(draw)
    ensures currentTime <= id < currentTime + 1000000
  {
    currentTime + (draw * 1000000.0).Floor
  }

  /** `Math.floor(Math.random() * length)`: an index into a non-empty list. */
  function PickIndex(draw: real, length: int): (i: int)
    requires IsDraw(draw) && length > 0
    ensures 0 <= i < length
  {
    assert draw * length as real < length as real;
    (draw * length as real).Floor
  }

  /** `points[Math.floor(Math.random() * points.length)]`: a point of the list,
      or `undefined` (`None`) when the list is empty. */
  function PickPoint(points: seq<GridPoint>, draw: real): (p: Option<GridPoint>)
    requires IsDraw(draw)
    ensures p.None? <==> points == []
    ensures p.Some? ==> p.value in points
  {
    if points == [] then None else Some(points[PickIndex(draw, |points|)])
  }

  function ToCoordinates(p: GridPoint): Coordinates
  {
    Coordinates(p.x, p.y)
  }

  /** `Utils.dotGridAlgo`: a dot-grid generator whose life never ends. */
  function DotGridAlgo(currentTime: int, idDraw: real): (g: MyGenerator)
    requires IsDraw(idDraw)
    ensures g.life == LifeSpec(currentTime, Infinite)
    ensures g.draw == DrawDots && g.coordinates.None?
    ensures currentTime <= g.id < currentTime + 1000000
  {
    MyGenerator(BuildId(currentTime, idDraw), LifeSpec(currentTime, Infinite), DrawDots, None)
  }

  /** The dot-grid generator of this snapshot is never killed by expiry. */
  lemma {:induction false} DotGridAlgoNeverExpires(currentTime: int, idDraw: real, now: int)
    requires IsDraw(idDraw)
    ensures var g := DotGridAlgo(currentTime, idDraw);
            !Lifetime.RemainingAt(g.life.desired, g.life.birth, now).AtMostZero()
  {
    var g := DotGridAlgo(currentTime, idDraw);
    Lifetime.InfiniteNeverExpires(g.life.birth, now);
  }

  /** `Utils.buildCircleItem`: a stationary circle on a random grid point
      living one second from the current clock value. Reading `.x` of the
      `undefined` an empty list yields throws. */
  function BuildCircleItem(
    availablePoints: seq<GridPoint>, unit: real, currentTime: int, fps: real,
    pointDraw: real, idDraw: real): (r: Result<MyGenerator, Failure>)
    requires IsDraw(pointDraw) && IsDraw(idDraw)
    ensures r.Err? <==> availablePoints == []
    ensures r.Err? ==> r.error == ReadOfUndefined
  {
    match PickPoint(availablePoints, pointDraw)
    case None => Err(ReadOfUndefined)
    case Some(p) =>
      var lifeDuration := SecondsToFrames(1.0, fps);
      var at := ToCoordinates(p);
      Ok(MyGenerator(
        BuildId(currentTime, idDraw),
        LifeSpec(currentTime, Finite(lifeDuration)),
        DrawCircle(at, lifeDuration, unit),
        Some(CircleCoordinates(at, at, at))))
  }

  /** The circle is born now with one second of life, stands on the chosen
      grid point, and its current, starting and final coordinates coincide. */
  lemma {:induction false} CircleItemShape(
    availablePoints: seq<GridPoint>, unit: real, currentTime: int, fps: real,
    pointDraw: real, idDraw: real)
    requires IsDraw(pointDraw) && IsDraw(idDraw)
    requires availablePoints != []
    ensures var r := BuildCircleItem(availablePoints, unit, currentTime, fps, pointDraw, idDraw);
            && r.Ok?
            && r.value.life == LifeSpec(currentTime, Finite(SecondsToFrames(1.0, fps)))
            && r.value.coordinates.Some?
            && var c := r.value.coordinates.value;
            && c.current == c.starting == c.final
            && (exists p :: p in availablePoints && c.starting == Coordinates(p.x, p.y))
            && currentTime <= r.value.id < currentTime + 1000000
  {
    var p := PickPoint(availablePoints, pointDraw).value;
    assert p in availablePoints;
  }

  /** `Math.round(remaining / lifeDuration * 255)`, the stroke alpha of a
      circle; `None` where JavaScript divides by zero. */
  function Opacity(remaining: int, lifeDuration: int): (a: Option<int>)
    ensures a.Some? <==> lifeDuration != 0
  {
    if lifeDuration == 0 then None
    else Some(Round(remaining as real / lifeDuration as real * 255.0))
  }

  /** Full alpha with the whole life left, none with no life left, and in
      between while the circle lives. */
  lemma {:induction false} OpacityFadesOut(remaining: int, lifeDuration: int)
    requires lifeDuration > 0
    ensures Opacity(lifeDuration, lifeDuration) == Some(255)
    ensures Opacity(0, lifeDuration) == Some(0)
    ensures 0 <= remaining <= lifeDuration ==> 0 <= Opacity(remaining, lifeDuration).value <= 255
  {
    var l := lifeDuration as real;
    assert l / l == 1.0;
    if 0 <= remaining <= lifeDuration {
      var q := remaining as real / l;
      assert q * l == remaining as real;
      assert 0.0 <= q <= 1.0;
      assert 0.0 <= q * 255.0 <= 255.0;
    }
  }
}
