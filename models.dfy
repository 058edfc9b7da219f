/** The value types shared by every part of the generator core: grid points,
    lifetimes that may be `Infinity`, the argument record a lifetime manager is
    built from, and the generator records the factories return. */
module Models {

  datatype Option<T> = None | Some(value: T)

  datatype Result<T, E> = Ok(value: T) | Err(error: E)

  /** The ways a JavaScript expression of the core fails instead of returning. */
  datatype Failure =
    | ReduceOfEmptyArray     // `Array.prototype.reduce` without a seed on `[]`
    | ReadOfUndefined        // a property read on the `undefined` an empty array yields

  /** A frame count that may be JavaScript's `Infinity` (permanent generators). */
  datatype Duration = Finite(frames: int) | Infinite
  {
    /** `this - k` with JavaScript's arithmetic: `Infinity - k == Infinity`. */
    function Minus(k: int): Duration
    {
      match this
      case Finite(n) => Finite(n - k)
      case Infinite => Infinite
    }

    /** `this <= 0`, which `Infinity` never is. */
    predicate AtMostZero()
    {
      Finite? && frames <= 0
    }
  }

  /** A lattice point: its position and its column (`xId`) and row (`yId`). */
  datatype GridPoint = GridPoint(x: real, y: real, xId: int, yId: int)

  datatype Coordinates = Coordinates(x: real, y: real)

  /** The clock value a lifetime manager counts from and the life it is given. */
  datatype LifeSpec = LifeSpec(birth: int, desired: Duration)

  /** The shapes a positioned item can be drawn with. */
  datatype Painter = Circle | Box | Triangle | Cross | SmallCross

  /** A draw callback, as an abstract token: which renderer it is and the data it closes over. */
  datatype Layer =
    | DestinationLayer(markerSize: int, weakFill: bool)
    | ItemLayer(painter: Painter, unit: real)
    | StatisticsLayer
    | GridDotsLayer(points: seq<GridPoint>, depth: real)
    | PerimeterLayer(origin: GridPoint, width: real, height: real, depth: real)

  /** The discriminant generators report to external filters. */
  datatype Kind = ItemKind | DotGridKind

  /** The arguments a movement manager is built from; `None` is JavaScript's
      `undefined`, what indexing an empty point list yields. */
  datatype Movement = Movement(start: Option<GridPoint>, final: Option<GridPoint>, duration: int)

  /** A generator of the render-algorithm snapshot: id, lifetime, optional
      movement, and its draw layers in compositing order. */
  datatype Generator = Generator(
    id: int,
    kind: Kind,
    life: LifeSpec,
    movement: Option<Movement>,
    layers: seq<Layer>)

  /** The three coordinate records of a circle generator. */
  datatype CircleCoordinates = CircleCoordinates(current: Coordinates, starting: Coordinates, final: Coordinates)

  /** The single draw callback of the earlier `MyGenerator` snapshot. */
  datatype Draw =
    | DrawDots
    | DrawCircle(at: Coordinates, lifeDuration: int, unit: real)

  /** `MyGenerator` / `CircleGenerator` of the earlier snapshot: an id, the
      lifetime manager's arguments, one draw callback, and for circles their
      coordinates. */
  datatype MyGenerator = MyGenerator(
    id: int,
    life: LifeSpec,
    draw: Draw,
    coordinates: Option<CircleCoordinates>)
}
