/** The three.js container: the line pairs drawn between items, the cadence
    on which `addGenerators` spawns items, and the registry those spawns
    are appended to. */
module Container {
  import opened Models
  import Utils
  import Grid
  import ItemBuilders

  const Fps: real := 60.0
  const Unit: real := 8.0
  /** `constants.units.distanceBetweenLayers`: four units. */
  const DistanceBetweenLayers: real := 32.0
  /** `secondsToFrames(0.5, fps)`: clock emissions per mover. */
  const MoverEvery: nat := 30
  /** `take(3)`: movers per window. */
  const MoversPerWindow: nat := 3
  /** `secondsToFrames(0.14, fps)`: clock emissions per flicker. */
  const FlickerEvery: nat := 8
  /** `secondsToFrames(5, fps)`: clock emissions per window. */
  const WindowLength: nat := 300
  /** The `duration` argument, in seconds, `addGenerators` gives the movers. */
  const MoverSeconds: real := 2.0

  lemma ConstantsAreFrameCounts()
    ensures MoverEvery == Utils.SecondsToFrames(0.5, Fps)
    ensures FlickerEvery == Utils.SecondsToFrames(0.14, Fps)
    ensures WindowLength == Utils.SecondsToFrames(5.0, Fps)
    ensures DistanceBetweenLayers == Unit * 4.0
  {
    Utils.CoreFrameCounts();
  }

  // ---------------------------------------------------------------------
  // Lines between items

  /** A line from item `from` to item `to`. */
  datatype Line = Line(from: nat, to: nat)

  /** The lines the inner loop draws from item `a` over items `0 .. upto-1`. */
  function LinesFrom(a: nat, upto: nat): seq<Line>
  {
    if upto == 0 then []
    else LinesFrom(a, upto - 1) + (if a != upto - 1 then [Line(a, upto - 1)] else [])
  }

  /** The lines the outer loop draws from items `0 .. upto-1` to all `n` items. */
  function LinesBefore(n: nat, upto: nat): seq<Line>
  {
    if upto == 0 then [] else LinesBefore(n, upto - 1) + LinesFrom(upto - 1, n)
  }

  /** `drawLinesBetweenItems`: a line for every ordered pair of distinct items. */
  method DrawLinesBetweenItems(items: seq<Coordinates>) returns (lines: seq<Line>)
    ensures lines == LinesBefore(|items|, |items|)
  {
    lines := [];
    var index := 0;
    while index < |items|
      invariant 0 <= index <= |items|
      invariant lines == LinesBefore(|items|, index)
    {
      var row: seq<Line> := [];
      var index2 := 0;
      while index2 < |items|
        invariant 0 <= index2 <= |items|
        invariant row == LinesFrom(index, index2)
      {
        if index != index2 {
          row := row + [Line(index, index2)];
        }
        index2 := index2 + 1;
      }
      lines := lines + row;
      index := index + 1;
    }
  }

  /** Lines in the order the loops draw them: by start item, then by end item. */
  predicate DrawnBefore(a: Line, b: Line)
  {
    a.from < b.from || (a.from == b.from && a.to < b.to)
  }

  predicate InDrawingOrder(lines: seq<Line>)
  {
    forall p, q | 0 <= p < q < |lines| :: DrawnBefore(lines[p], lines[q])
  }

  lemma {:induction false} LinesFromSize(a: nat, upto: nat)
    ensures |LinesFrom(a, upto)| == if a < upto then upto - 1 else upto
  {
    if upto > 0 {
      LinesFromSize(a, upto - 1);
    }
  }

  lemma {:induction false} LinesFromShape(a: nat, upto: nat)
    ensures forall l | l in LinesFrom(a, upto) :: l.from == a && l.to < upto && l.to != a
    ensures forall b: nat | b < upto && b != a :: Line(a, b) in LinesFrom(a, upto)
    ensures InDrawingOrder(LinesFrom(a, upto))
  {
    if upto > 0 {
      LinesFromShape(a, upto - 1);
      var before := LinesFrom(a, upto - 1);
      var lines := LinesFrom(a, upto);
      assert InDrawingOrder(before);
      forall p, q | 0 <= p < q < |lines|
        ensures DrawnBefore(lines[p], lines[q])
      {
        if q < |before| {
          assert lines[p] == before[p] && lines[q] == before[q];
        } else {
          assert lines[p] == before[p] && lines[p] in before;
        }
      }
    }
  }

  lemma {:induction false} LinesBeforeSize(n: nat, upto: nat)
    requires upto <= n
    ensures |LinesBefore(n, upto)| == upto * (n - 1)
  {
    if upto > 0 {
      var a, m := upto - 1, n - 1;
      LinesBeforeSize(n, a);
      LinesFromSize(a, n);
      assert |LinesBefore(n, upto)| == a * m + m;
      assert a * m + m == upto * m;
    }
  }

  lemma {:induction false} LinesBeforeShape(n: nat, upto: nat)
    requires upto <= n
    ensures forall l | l in LinesBefore(n, upto) :: l.from < upto && l.to < n && l.from != l.to
    ensures forall a: nat, b: nat | a < upto && b < n && a != b :: Line(a, b) in LinesBefore(n, upto)
  {
    if upto > 0 {
      var a := upto - 1;
      LinesBeforeShape(n, a);
      LinesFromShape(a, n);
      var before, row := LinesBefore(n, a), LinesFrom(a, n);
      var lines := LinesBefore(n, upto);
      assert lines == before + row;
      forall l | l in lines
        ensures l.from < upto && l.to < n && l.from != l.to
      {
        if l !in before {
          assert l in row;
        }
      }
      forall x: nat, y: nat | x < upto && y < n && x != y
        ensures Line(x, y) in lines
      {
        if x < a {
          assert Line(x, y) in before;
        } else {
          assert Line(x, y) in row;
        }
      }
    }
  }

  lemma {:induction false} LinesBeforeOrder(n: nat, upto: nat)
    requires upto <= n
    ensures InDrawingOrder(LinesBefore(n, upto))
  {
    if upto > 0 {
      var a := upto - 1;
      LinesBeforeOrder(n, a);
      LinesBeforeShape(n, a);
      LinesFromShape(a, n);
      var before := LinesBefore(n, a);
      var row := LinesFrom(a, n);
      var lines := LinesBefore(n, upto);
      assert lines == before + row;
      assert InDrawingOrder(before) && InDrawingOrder(row);
      forall p, q | 0 <= p < q < |lines|
        ensures DrawnBefore(lines[p], lines[q])
      {
        if q < |before| {
          assert lines[p] == before[p] && lines[q] == before[q];
        } else if p >= |before| {
          assert lines[p] == row[p - |before|] && lines[q] == row[q - |before|];
        } else {
          assert lines[p] == before[p] && lines[p] in before;
          assert lines[q] == row[q - |before|] && lines[q] in row;
        }
      }
    }
  }

  /** The lines are exactly the ordered pairs of distinct items, each once,
      `n * (n - 1)` of them. */
  lemma {:induction false} EveryOrderedPairOnce(n: nat)
    ensures |LinesBefore(n, n)| == n * (n - 1)
    ensures forall a: nat, b: nat :: Line(a, b) in LinesBefore(n, n) <==> a < n && b < n && a != b
    ensures forall p, q | 0 <= p < q < |LinesBefore(n, n)| :: LinesBefore(n, n)[p] != LinesBefore(n, n)[q]
  {
    LinesBeforeSize(n, n);
    LinesBeforeShape(n, n);
    LinesBeforeOrder(n, n);
    var lines := LinesBefore(n, n);
    forall p, q | 0 <= p < q < |lines|
      ensures lines[p] != lines[q]
    {
      assert DrawnBefore(lines[p], lines[q]);
    }
  }

  // ---------------------------------------------------------------------
  // Spawn cadence

  datatype Spawn = MoverSpawn | FlickerSpawn

  /** The position, from 1 to 300, of clock emission `e` (counted from 0)
      in its window. The window opens at subscription (`startWith`) and
      again after every 300th emission, when `switchMap` drops the mover and
      flicker buffers and subscribes them afresh. */
  function WindowPosition(e: nat): (p: nat)
    ensures 1 <= p <= WindowLength
  {
    e % WindowLength + 1
  }

  /** What the inner cadences spawn at window position `p`: the first three
      fills of the 30-emission buffer are movers, every fill of the
      8-emission buffer a flicker. The two never fill together, so the order
      inside `merge` does not matter. */
  function SpawnAtPosition(p: nat): Option<Spawn>
  {
    if p % MoverEvery == 0 && p / MoverEvery <= MoversPerWindow then Some(MoverSpawn)
    else if p % FlickerEvery == 0 then Some(FlickerSpawn)
    else None
  }

  function SpawnAt(e: nat): Option<Spawn>
  {
    SpawnAtPosition(WindowPosition(e))
  }

  /** Movers fill at window positions 30, 60 and 90 only, none of which fills the flicker buffer. */
  lemma {:induction false} MoverPositions(p: nat)
    requires 1 <= p
    ensures p % MoverEvery == 0 && p / MoverEvery <= MoversPerWindow <==> p == 30 || p == 60 || p == 90
    ensures (p == 30 || p == 60 || p == 90) ==> p % FlickerEvery != 0
  {
    if p % MoverEvery == 0 && p / MoverEvery <= MoversPerWindow {
      var q := p / MoverEvery;
      assert p == MoverEvery * q;
      assert q == 1 || q == 2 || q == 3;
    }
  }

  /** How many of the window positions `1 .. p` spawn `s`. */
  function SpawnsUpTo(p: nat, s: Spawn): nat
  {
    if p == 0 then 0 else SpawnsUpTo(p - 1, s) + (if SpawnAtPosition(p) == Some(s) then 1 else 0)
  }

  lemma {:induction false} FlickersUpTo(p: nat)
    ensures SpawnsUpTo(p, FlickerSpawn) == p / FlickerEvery
  {
    if p > 0 {
      FlickersUpTo(p - 1);
      MoverPositions(p);
      assert (p - 1) / 8 + (if p % 8 == 0 then 1 else 0) == p / 8;
    }
  }

  lemma {:induction false} MoversUpTo(p: nat)
    ensures SpawnsUpTo(p, MoverSpawn) == if p / MoverEvery < MoversPerWindow then p / MoverEvery else MoversPerWindow
  {
    if p > 0 {
      MoversUpTo(p - 1);
      MoverPositions(p);
    }
  }

  /** A window spawns 3 movers (the 30th, 60th and 90th emissions) and 37
      flickers, and nothing at its 300th emission, which restarts the cadences. */
  lemma {:induction false} SpawnsPerWindow()
    ensures SpawnsUpTo(WindowLength, MoverSpawn) == 3
    ensures SpawnsUpTo(WindowLength, FlickerSpawn) == 37
    ensures SpawnAtPosition(WindowLength) == None
    ensures SpawnAtPosition(30) == Some(MoverSpawn) && SpawnAtPosition(90) == Some(MoverSpawn)
    ensures SpawnAtPosition(120) == Some(FlickerSpawn)
  {
    MoversUpTo(WindowLength);
    FlickersUpTo(WindowLength);
  }

  /** Every window repeats the first: emission `300 * w + p - 1` sits at
      position `p`, the first at subscription. */
  lemma {:induction false} WindowsRepeat(w: nat, p: nat)
    requires 1 <= p <= WindowLength
    ensures WindowPosition(WindowLength * w + p - 1) == p
    ensures SpawnAt(WindowLength * w + p - 1) == SpawnAtPosition(p)
  {
    if w > 0 {
      WindowsRepeat(w - 1, p);
      NextWindow(WindowLength * (w - 1) + p - 1);
      assert WindowLength * w + p - 1 == (WindowLength * (w - 1) + p - 1) + WindowLength;
    }
  }

  lemma {:induction false} NextWindow(e: nat)
    ensures WindowPosition(e + WindowLength) == WindowPosition(e)
  {
  }

  // ---------------------------------------------------------------------
  // Registry

  /** `addOnDeath(() => removeGenerator$.next(x))`: when its lifetime ends,
      the generator asks for its own removal. */
  datatype DeathHook = RequestRemoval(generator: Generator)

  function HooksFor(batch: seq<Generator>): (hooks: seq<DeathHook>)
    ensures |hooks| == |batch|
    ensures forall i | 0 <= i < |batch| :: hooks[i] == RequestRemoval(batch[i])
  {
    if batch == [] then [] else HooksFor(batch[..|batch| - 1]) + [RequestRemoval(batch[|batch| - 1])]
  }

  /** `buildCoordinatesGrid`: the 8 by 8 lattice around the origin. */
  function BuildCoordinatesGrid(origin: Coordinates): (grid: seq<GridPoint>)
    ensures |grid| == 64
    ensures forall k | 0 <= k < |grid| :: 0 <= grid[k].xId < 8 && 0 <= grid[k].yId < 8
  {
    Grid.GridSize(8, 8, origin, Unit);
    Grid.IdsDistinctAndInRange(8, 8, origin, Unit);
    Grid.Grid(8, 8, origin, Unit)
  }

  class Container {
    var currentTime: nat
    var generators: seq<Generator>
    /** The death hooks registered on the generators' lifetimes. */
    var deathHooks: seq<DeathHook>
    var coordinatesGrid: seq<GridPoint>
    /** `destroy$` has fired: `takeUntil` has closed every subscription. */
    var destroyed: bool

    /** Each generator carries exactly one hook, requesting its own removal. */
    ghost predicate Valid()
      reads this
    {
      && |deathHooks| == |generators|
      && forall i | 0 <= i < |generators| :: deathHooks[i] == RequestRemoval(generators[i])
    }

    constructor()
      ensures Valid()
      ensures currentTime == 0 && generators == [] && coordinatesGrid == [] && !destroyed
    {
      currentTime := 0;
      generators := [];
      deathHooks := [];
      coordinatesGrid := [];
      destroyed := false;
    }

    /** The `addGenerators` subscriber: the batch goes to the end, in order,
        and each of its items gets a hook requesting its removal. */
    method AddBatch(toAddItems: seq<Generator>)
      requires Valid()
      modifies this
      ensures Valid()
      ensures destroyed == old(destroyed) && currentTime == old(currentTime)
      ensures coordinatesGrid == old(coordinatesGrid)
      ensures generators == if destroyed then old(generators) else old(generators) + toAddItems
      ensures deathHooks == if destroyed then old(deathHooks) else old(deathHooks) + HooksFor(toAddItems)
    {
      if destroyed {
        return;
      }
      var hooks := deathHooks;
      var i := 0;
      while i < |toAddItems|
        invariant 0 <= i <= |toAddItems|
        invariant hooks == deathHooks + HooksFor(toAddItems[..i])
      {
        assert toAddItems[..i + 1][..i] == toAddItems[..i];
        hooks := hooks + [RequestRemoval(toAddItems[i])];
        i := i + 1;
      }
      assert toAddItems[..|toAddItems|] == toAddItems;
      generators := generators + toAddItems;
      deathHooks := hooks;
    }

    /** Clock emission `e`: the clock subscription records it, then the
        spawn pipeline builds the item due at this emission, if any, and
        adds it as a batch of one. `scaledUnit` stands for the result of
        `increaseUnitRandomly`; the other draws are the `Math.random()`
        values the builders consume. */
    method Emit(e: nat, scaledUnit: real, pointDraw: real, r1: real, r2: real, r3: real, idDraw: real)
      requires Valid()
      requires Utils.IsDraw(pointDraw) && Utils.IsDraw(idDraw)
      modifies this
      ensures Valid()
      ensures destroyed == old(destroyed) && coordinatesGrid == old(coordinatesGrid)
      ensures currentTime == if destroyed then old(currentTime) else e
      ensures generators == old(generators) + Spawned(e, destroyed, coordinatesGrid, scaledUnit, pointDraw, r1, r2, r3, idDraw)
    {
      if destroyed {
        return;
      }
      currentTime := e;
      match SpawnAt(e)
      case Some(MoverSpawn) =>
        var g := ItemBuilders.BuildFastStander(coordinatesGrid, scaledUnit, e, Fps, MoverSeconds, pointDraw, r1, r2, r3, idDraw);
        AddBatch([g]);
      case Some(FlickerSpawn) =>
        var g := ItemBuilders.BuildFlicker(ItemBuilders.ItemAlgoCopy, coordinatesGrid, Unit, e, Fps, pointDraw, idDraw);
        AddBatch([g]);
      case None =>
    }

    /** `coordinatesGrid$.next(buildCoordinatesGrid(p))`. */
    method RebuildGrid(origin: Coordinates)
      requires Valid()
      modifies this
      ensures Valid()
      ensures coordinatesGrid == BuildCoordinatesGrid(origin)
      ensures generators == old(generators) && deathHooks == old(deathHooks)
      ensures currentTime == old(currentTime) && destroyed == old(destroyed)
    {
      coordinatesGrid := BuildCoordinatesGrid(origin);
    }

    /** `ngOnDestroy`: `destroy$` fires and closes the clock and spawn subscriptions. */
    method Destroy()
      requires Valid()
      modifies this
      ensures Valid() && destroyed
      ensures generators == old(generators) && deathHooks == old(deathHooks)
      ensures currentTime == old(currentTime) && coordinatesGrid == old(coordinatesGrid)
    {
      destroyed := true;
    }
  }

  /** The batch clock emission `e` adds: empty once destroyed or when no
      spawn is due, else the item due. */
  function Spawned(
    e: nat, destroyed: bool, grid: seq<GridPoint>, scaledUnit: real,
    pointDraw: real, r1: real, r2: real, r3: real, idDraw: real): (batch: seq<Generator>)
    requires Utils.IsDraw(pointDraw) && Utils.IsDraw(idDraw)
    ensures |batch| <= 1
    ensures |batch| == 1 <==> !destroyed && SpawnAt(e).Some?
    ensures |batch| == 1 ==> batch[0].kind == ItemKind && batch[0].life.birth == e
  {
    if destroyed then []
    else match SpawnAt(e)
      case Some(MoverSpawn) =>
        [ItemBuilders.BuildFastStander(grid, scaledUnit, e, Fps, MoverSeconds, pointDraw, r1, r2, r3, idDraw)]
      case Some(FlickerSpawn) =>
        [ItemBuilders.BuildFlicker(ItemBuilders.ItemAlgoCopy, grid, Unit, e, Fps, pointDraw, idDraw)]
      case None => []
  }
}
