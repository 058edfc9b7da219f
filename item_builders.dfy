/** The item factories of the render-algorithm snapshot. Two copies exist,
    `ItemAlgo` and `RendererBuilder`; they build the same generators except
    for the flicker's shape and the destination marker. A factory picks grid
    points and a shape with random draws, gives the item a lifetime born at
    the current clock value, and selects its draw layers from a
    configuration. */
module ItemBuilders {
  import opened Models
  import Utils

  datatype Variant = ItemAlgoCopy | RendererBuilderCopy

  /** `configuration.render`: which of the three layers to draw. */
  datatype RenderConfig = RenderConfig(destination: bool, statistics: bool, item: bool)

  const DefaultConfig: RenderConfig := RenderConfig(true, true, true)
  /** The flicker draws its item layer only. */
  const FlickerConfig: RenderConfig := RenderConfig(false, false, true)

  /** `renderDestination`: a marker of size 16 over a weak fill in `ItemAlgo`,
      of size 8 without it in `RendererBuilder`. */
  function DestinationMarker(v: Variant): (l: Layer)
    ensures l.DestinationLayer?
  {
    match v
    case ItemAlgoCopy => DestinationLayer(16, true)
    case RendererBuilderCopy => DestinationLayer(8, false)
  }

  /** The flicker's shape: a small X in `ItemAlgo`, a box in `RendererBuilder`. */
  function FlickerPainter(v: Variant): Painter
  {
    match v
    case ItemAlgoCopy => SmallCross
    case RendererBuilderCopy => Box
  }

  /** The chained `Math.random() < 0.5` choice of a shape; a later draw is
      only looked at when the earlier ones were at least one half. */
  function ChoosePainter(r1: real, r2: real, r3: real): (p: Painter)
    ensures p == Circle <==> r1 < 0.5
    ensures p == Box <==> r1 >= 0.5 && r2 < 0.5
    ensures p == Triangle <==> r1 >= 0.5 && r2 >= 0.5 && r3 < 0.5
    ensures p == Cross <==> r1 >= 0.5 && r2 >= 0.5 && r3 >= 0.5
    ensures p != SmallCross
  {
    if r1 < 0.5 then Circle
    else if r2 < 0.5 then Box
    else if r3 < 0.5 then Triangle
    else Cross
  }

  /** The layers `buildItemGenObject` pushes, in compositing order. */
  function SelectedLayers(config: RenderConfig, destination: Layer, item: Layer): seq<Layer>
  {
    (if config.destination then [destination] else [])
    + (if config.item then [item] else [])
    + (if config.statistics then [StatisticsLayer] else [])
  }

  /** `renderLayers` built by three conditional pushes. */
  method BuildRenderLayers(config: RenderConfig, destination: Layer, item: Layer) returns (layers: seq<Layer>)
    ensures layers == SelectedLayers(config, destination, item)
  {
    layers := [];
    if config.destination {
      layers := layers + [destination];
    }
    if config.item {
      layers := layers + [item];
    }
    if config.statistics {
      layers := layers + [StatisticsLayer];
    }
  }

  /** The compositing rank of each kind of item layer. */
  function Rank(l: Layer): int
  {
    match l
    case DestinationLayer(_, _) => 0
    case ItemLayer(_, _) => 1
    case _ => 2
  }

  function Count(b: bool): nat
  {
    if b then 1 else 0
  }

  /** Each layer is present exactly when its flag is set, the layers come in
      the order destination, item, statistics, and there is one per flag set. */
  lemma {:induction false} LayerSelection(config: RenderConfig, destination: Layer, item: Layer)
    requires destination.DestinationLayer? && item.ItemLayer?
    ensures var ls := SelectedLayers(config, destination, item);
            && (destination in ls <==> config.destination)
            && (item in ls <==> config.item)
            && (StatisticsLayer in ls <==> config.statistics)
            && |ls| == Count(config.destination) + Count(config.item) + Count(config.statistics)
            && (forall i, j | 0 <= i < j < |ls| :: Rank(ls[i]) < Rank(ls[j]))
  {
    var ls := SelectedLayers(config, destination, item);
    var d := if config.destination then [destination] else [];
    var it := if config.item then [item] else [];
    var st := if config.statistics then [StatisticsLayer] else [];
    assert ls == d + it + st;
    // Each position holds a layer of the rank of the piece it falls in.
    forall k | 0 <= k < |ls|
      ensures Rank(ls[k]) == (if k < |d| then 0 else if k < |d| + |it| then 1 else 2)
    {
    }
  }

  /** The default configuration draws all three layers. */
  lemma {:induction false} DefaultConfigThreeLayers(destination: Layer, item: Layer)
    requires destination.DestinationLayer? && item.ItemLayer?
    ensures |SelectedLayers(DefaultConfig, destination, item)| == 3
    ensures SelectedLayers(DefaultConfig, destination, item) == [destination, item, StatisticsLayer]
  {
    LayerSelection(DefaultConfig, destination, item);
  }

  /** `buildItemGenObject`: an item generator carrying the lifetime it was
      given, a movement from `start` to `final` over `animationDuration`
      frames, an id salted from the current clock value, and the configured
      layers. */
  function ItemGenObject(
    v: Variant, currentTime: int, start: Option<GridPoint>, final: Option<GridPoint>,
    animationDuration: int, life: LifeSpec, painter: Painter, unit: real,
    config: RenderConfig, idDraw: real): (g: Generator)
    requires Utils.IsDraw(idDraw)
    ensures g.kind == ItemKind && g.life == life
    ensures g.movement == Some(Movement(start, final, animationDuration))
    ensures currentTime <= g.id < currentTime + 1000000
    ensures g.layers == SelectedLayers(config, DestinationMarker(v), ItemLayer(painter, unit))
    ensures |g.layers| <= 3
  {
    var layers := SelectedLayers(config, DestinationMarker(v), ItemLayer(painter, unit));
    LayerSelection(config, DestinationMarker(v), ItemLayer(painter, unit));
    Generator(Utils.BuildId(currentTime, idDraw), ItemKind, life, Some(Movement(start, final, animationDuration)), layers)
  }

  /** A lifetime of `lifeDuration` frames from the current clock value. */
  function ItemLife(currentTime: int, lifeDuration: int): LifeSpec
  {
    LifeSpec(currentTime, Finite(lifeDuration))
  }

  /** `buildFastStander` (only in `ItemAlgo`): a stationary item on a random
      grid point. `scaledUnit` is the result of `increaseUnitRandomly`. */
  function BuildFastStander(
    availablePoints: seq<GridPoint>, scaledUnit: real, currentTime: int, fps: real, duration: real,
    pointDraw: real, r1: real, r2: real, r3: real, idDraw: real): Generator
    requires Utils.IsDraw(pointDraw) && Utils.IsDraw(idDraw)
  {
    var start := Utils.PickPoint(availablePoints, pointDraw);
    var lifeDuration := Utils.SecondsToFrames(duration, fps);
    ItemGenObject(
      ItemAlgoCopy, currentTime, start, start, lifeDuration, ItemLife(currentTime, lifeDuration),
      ChoosePainter(r1, r2, r3), scaledUnit, DefaultConfig, idDraw)
  }

  /** `buildFlicker`: a half-second item on a random grid point that draws
      its item layer only. */
  function BuildFlicker(
    v: Variant, availablePoints: seq<GridPoint>, unit: real, currentTime: int, fps: real,
    pointDraw: real, idDraw: real): Generator
    requires Utils.IsDraw(pointDraw) && Utils.IsDraw(idDraw)
  {
    var start := Utils.PickPoint(availablePoints, pointDraw);
    var lifeDuration := Utils.SecondsToFrames(0.5, fps);
    ItemGenObject(
      v, currentTime, start, start, lifeDuration, ItemLife(currentTime, lifeDuration),
      FlickerPainter(v), unit, FlickerConfig, idDraw)
  }

  /** `buildSlowMover`: an item that moves between two random grid points
      over its whole life. */
  function BuildSlowMover(
    v: Variant, availablePoints: seq<GridPoint>, scaledUnit: real, currentTime: int, fps: real, duration: real,
    startDraw: real, finalDraw: real, r1: real, r2: real, r3: real, idDraw: real): Generator
    requires Utils.IsDraw(startDraw) && Utils.IsDraw(finalDraw) && Utils.IsDraw(idDraw)
  {
    var start := Utils.PickPoint(availablePoints, startDraw);
    var lifeDuration := Utils.SecondsToFrames(duration, fps);
    var final := Utils.PickPoint(availablePoints, finalDraw);
    ItemGenObject(
      v, currentTime, start, final, lifeDuration, ItemLife(currentTime, lifeDuration),
      ChoosePainter(r1, r2, r3), scaledUnit, DefaultConfig, idDraw)
  }

  /** A point drawn from the list: one of its points, or `undefined` when it is empty. */
  predicate DrawnFrom(p: Option<GridPoint>, availablePoints: seq<GridPoint>)
  {
    (p.Some? ==> p.value in availablePoints) && (p.None? <==> availablePoints == [])
  }

  /** The flicker has one layer, its item, stands still, and its animation
      lasts exactly its life of `secondsToFrames(0.5, fps)` frames. */
  lemma {:induction false} FlickerShape(
    v: Variant, availablePoints: seq<GridPoint>, unit: real, currentTime: int, fps: real,
    pointDraw: real, idDraw: real)
    requires Utils.IsDraw(pointDraw) && Utils.IsDraw(idDraw)
    ensures var g := BuildFlicker(v, availablePoints, unit, currentTime, fps, pointDraw, idDraw);
            && g.layers == [ItemLayer(FlickerPainter(v), unit)]
            && g.movement.Some?
            && g.movement.value.start == g.movement.value.final
            && DrawnFrom(g.movement.value.start, availablePoints)
            && g.life == LifeSpec(currentTime, Finite(g.movement.value.duration))
            && g.movement.value.duration == Utils.SecondsToFrames(0.5, fps)
  {
    LayerSelection(FlickerConfig, DestinationMarker(v), ItemLayer(FlickerPainter(v), unit));
  }

  /** The fast stander stands still, animates over exactly its life of
      `secondsToFrames(duration, fps)` frames and draws all three layers. */
  lemma {:induction false} FastStanderIsStationary(
    availablePoints: seq<GridPoint>, scaledUnit: real, currentTime: int, fps: real, duration: real,
    pointDraw: real, r1: real, r2: real, r3: real, idDraw: real)
    requires Utils.IsDraw(pointDraw) && Utils.IsDraw(idDraw)
    ensures var g := BuildFastStander(availablePoints, scaledUnit, currentTime, fps, duration, pointDraw, r1, r2, r3, idDraw);
            && g.movement.Some?
            && g.movement.value.final == g.movement.value.start
            && DrawnFrom(g.movement.value.start, availablePoints)
            && g.life == LifeSpec(currentTime, Finite(g.movement.value.duration))
            && g.movement.value.duration == Utils.SecondsToFrames(duration, fps)
            && g.layers == [DestinationMarker(ItemAlgoCopy), ItemLayer(ChoosePainter(r1, r2, r3), scaledUnit), StatisticsLayer]
  {
    DefaultConfigThreeLayers(DestinationMarker(ItemAlgoCopy), ItemLayer(ChoosePainter(r1, r2, r3), scaledUnit));
  }

  /** The slow mover's start and destination are both drawn from the list,
      it animates over its whole life and draws all three layers. */
  lemma {:induction false} SlowMoverEndpoints(
    v: Variant, availablePoints: seq<GridPoint>, scaledUnit: real, currentTime: int, fps: real, duration: real,
    startDraw: real, finalDraw: real, r1: real, r2: real, r3: real, idDraw: real)
    requires Utils.IsDraw(startDraw) && Utils.IsDraw(finalDraw) && Utils.IsDraw(idDraw)
    ensures var g := BuildSlowMover(v, availablePoints, scaledUnit, currentTime, fps, duration, startDraw, finalDraw, r1, r2, r3, idDraw);
            && g.movement.Some?
            && DrawnFrom(g.movement.value.start, availablePoints)
            && DrawnFrom(g.movement.value.final, availablePoints)
            && g.life == LifeSpec(currentTime, Finite(g.movement.value.duration))
            && g.movement.value.duration == Utils.SecondsToFrames(duration, fps)
            && g.layers == [DestinationMarker(v), ItemLayer(ChoosePainter(r1, r2, r3), scaledUnit), StatisticsLayer]
  {
    DefaultConfigThreeLayers(DestinationMarker(v), ItemLayer(ChoosePainter(r1, r2, r3), scaledUnit));
  }

  /** The two copies build the same slow mover except for its destination marker. */
  lemma {:induction false} CopiesDifferOnlyInMarker(
    availablePoints: seq<GridPoint>, scaledUnit: real, currentTime: int, fps: real, duration: real,
    startDraw: real, finalDraw: real, r1: real, r2: real, r3: real, idDraw: real)
    requires Utils.IsDraw(startDraw) && Utils.IsDraw(finalDraw) && Utils.IsDraw(idDraw)
    ensures var a := BuildSlowMover(ItemAlgoCopy, availablePoints, scaledUnit, currentTime, fps, duration, startDraw, finalDraw, r1, r2, r3, idDraw);
            var b := BuildSlowMover(RendererBuilderCopy, availablePoints, scaledUnit, currentTime, fps, duration, startDraw, finalDraw, r1, r2, r3, idDraw);
            && a.id == b.id && a.kind == b.kind && a.life == b.life && a.movement == b.movement
            && a.layers[1..] == b.layers[1..]
            && a.layers[0] == DestinationLayer(16, true) && b.layers[0] == DestinationLayer(8, false)
  {
    DefaultConfigThreeLayers(DestinationMarker(ItemAlgoCopy), ItemLayer(ChoosePainter(r1, r2, r3), scaledUnit));
    DefaultConfigThreeLayers(DestinationMarker(RendererBuilderCopy), ItemLayer(ChoosePainter(r1, r2, r3), scaledUnit));
  }
}
