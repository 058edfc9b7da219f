/** The p5 container: one clock drives both the render pass and the spawner.
    On every clock emission `x` the render pass drops the generators whose
    death time has passed, clears the canvas, draws the rest in list order
    and publishes the survivors; then, on every 14th emission, the spawner
    appends a circle that dies 144 frames later. The dot grid is the first
    generator and never dies. */
module PfiveContainer {
  import opened Models
  import opened GenerativeUtils
  import Utils
  import Grid
  import Seqs

  const Fps: real := 144.0
  const Unit: real := 8.0
  /** `bufferCount(secondsToFrames(0.1))`; `Utils.CoreFrameCounts` shows the value. */
  const SpawnEvery: int := 14
  /** `secondsToFrames(1)`, the life of a circle in frames. */
  const CircleLife: int := 144

  lemma {:induction false} ConstantsAreFrameCounts()
    ensures Utils.SecondsToFrames(0.1, Fps) == SpawnEvery
    ensures Utils.SecondsToFrames(1.0, Fps) == CircleLife
  {
    Utils.CoreFrameCounts();
  }

  /** What the render pass does to the canvas. */
  datatype CanvasOp = Background | Drew(generator: PGenerator, time: int)

  function AliveAt(currentTime: int): PGenerator -> bool
  {
    g => Alive(g, currentTime)
  }

  /** `generators.filter(generator => currentTime - generator.deathTime < 0)`. */
  function Survivors(generators: seq<PGenerator>, currentTime: int): seq<PGenerator>
  {
    Seqs.Filter(generators, AliveAt(currentTime))
  }

  /** The render pass keeps exactly the living generators, in their order. */
  lemma {:induction false} SurvivorsAreTheLiving(generators: seq<PGenerator>, currentTime: int)
    ensures forall g :: g in Survivors(generators, currentTime) <==> g in generators && Alive(g, currentTime)
    ensures Seqs.IsSubsequence(Survivors(generators, currentTime), generators)
  {
    Seqs.FilterKeepsOrder(generators, AliveAt(currentTime));
  }

  /** A generator dropped at one clock value is not kept at any later one:
      filtering at `t` and then at a later `later` is filtering at `later`. */
  lemma {:induction false} DroppedStaysDropped(generators: seq<PGenerator>, t: int, later: int)
    requires t <= later
    ensures Survivors(Survivors(generators, t), later) == Survivors(generators, later)
  {
    forall g | AliveAt(later)(g)
      ensures AliveAt(t)(g)
    {
      DeadStaysDead(g, t, later);
    }
    Seqs.FilterTwice(generators, AliveAt(t), AliveAt(later));
  }

  /** The canvas operations of drawing `generators` in order at `time`. */
  function Draws(generators: seq<PGenerator>, time: int): (ops: seq<CanvasOp>)
    ensures |ops| == |generators|
    ensures forall i | 0 <= i < |ops| :: ops[i] == Drew(generators[i], time)
  {
    seq(|generators|, i requires 0 <= i < |generators| => Drew(generators[i], time))
  }

  /** `getCoordinatesGrid`: an 8 by 8 lattice around the canvas centre. */
  function CoordinatesGrid(origin: Coordinates): seq<GridPoint>
  {
    Grid.Grid(8, 8, origin, Unit)
  }

  lemma {:induction false} CoordinatesGridHas64Points(origin: Coordinates)
    ensures |CoordinatesGrid(origin)| == 64
  {
    Grid.GridSize(8, 8, origin, Unit);
  }

  /** The clock value of the circle spawned last, after `emissions` clock emissions. */
  function LastSpawnTime(emissions: int): int
  {
    SpawnEvery * (emissions / SpawnEvery) - 1
  }

  /** Circles whose death times rise by exactly `SpawnEvery` from one to the next. */
  predicate Spaced(circles: seq<PGenerator>)
  {
    circles != [] ==>
      && circles[0].deathTime.Finite?
      && forall i | 0 <= i < |circles| ::
           circles[i].deathTime == Finite(circles[0].deathTime.frames + SpawnEvery * i)
  }

  /** The circles die oldest first, so the render pass drops a prefix of them. */
  lemma {:induction false} SpacedSurvivorsAreASuffix(circles: seq<PGenerator>, t: int)
    requires Spaced(circles)
    ensures exists k :: 0 <= k <= |circles| && Survivors(circles, t) == circles[k..]
  {
    if circles == [] {
      assert Survivors(circles, t) == circles[0..];
    } else if !Alive(circles[0], t) {
      var rest := circles[1..];
      assert Spaced(rest) by {
        forall i | 0 <= i < |rest|
          ensures rest[i].deathTime == Finite(rest[0].deathTime.frames + SpawnEvery * i)
        {
          assert rest[i] == circles[i + 1] && rest[0] == circles[1];
        }
      }
      SpacedSurvivorsAreASuffix(rest, t);
      var k :| 0 <= k <= |rest| && Survivors(rest, t) == rest[k..];
      assert rest[k..] == circles[k + 1..];
    } else {
      forall g | g in circles
        ensures AliveAt(t)(g)
      {
        var i :| 0 <= i < |circles| && circles[i] == g;
      }
      Seqs.FilterAllPass(circles, AliveAt(t));
      assert circles == circles[0..];
    }
  }

  /** The invariant of the generator list: the dot grid first, then the
      living circles, oldest first, spawned `SpawnEvery` frames apart, the
      newest one at the last spawn. */
  predicate Registry(generators: seq<PGenerator>, currentTime: int, emissions: int)
  {
    && generators != [] && generators[0] == DotGridAlgo(Unit)
    && (forall g | g in generators :: Alive(g, currentTime))
    && Spaced(generators[1..])
    && (|generators| > 1 ==>
          emissions >= SpawnEvery && currentTime == emissions - 1
          && generators[|generators| - 1].deathTime == Finite(LastSpawnTime(emissions) + CircleLife))
  }

  /** At most 11 circles are alive at once besides the dot grid: each lives
      144 frames and one is spawned every 14. */
  lemma {:induction false} AtMostElevenCircles(generators: seq<PGenerator>, currentTime: int, emissions: int)
    requires Registry(generators, currentTime, emissions)
    ensures |generators| <= 12
  {
    var circles := generators[1..];
    var n := |circles|;
    if n > 0 {
      assert circles[0] in generators && circles[n - 1] == generators[|generators| - 1];
      assert emissions == SpawnEvery * (emissions / SpawnEvery) + emissions % SpawnEvery;
      assert SpawnEvery * (n - 1) < CircleLife;
    }
  }

  /** What the spawner appends after clock value `x`: on every
      `SpawnEvery`-th emission, a circle that dies `CircleLife` frames later. */
  function Spawned(x: int, grid: seq<GridPoint>, pointDraw: real): (spawned: seq<PGenerator>)
    requires Utils.IsDraw(pointDraw) && grid != []
    ensures |spawned| <= 1
    ensures spawned != [] <==> (x + 1) % SpawnEvery == 0
    ensures spawned != [] ==> spawned[0].deathTime == Finite(x + CircleLife)
  {
    if (x + 1) % SpawnEvery == 0 then
      CircleItemShape(CircleLife, x, grid, Unit, pointDraw);
      [BuildCircleItem(CircleLife, x, grid, Unit, pointDraw).value]
    else []
  }

  class PfiveContainer {
    /** The value of the last clock emission. */
    var currentTime: int
    /** The value of `generators$`. */
    var generators: seq<PGenerator>
    /** The canvas centre the lattice was last built around. */
    var origin: Coordinates
    /** The value of `coordinatesGrid$`. */
    var coordinatesGrid: seq<GridPoint>
    /** Every operation on the canvas, in order. */
    var canvas: seq<CanvasOp>
    /** How many values the clock has emitted; the clock emits 0, 1, 2, ... */
    var emissions: nat
    /** `destroy$` has fired; every subscription is then closed. */
    var destroyed: bool

    ghost predicate Valid()
      reads this
    {
      && Registry(generators, currentTime, emissions)
      && coordinatesGrid == CoordinatesGrid(origin)
    }

    /** `ngOnInit`: the lattice is built around the canvas centre and the dot
        grid is the only generator. */
    constructor (origin: Coordinates)
      ensures Valid()
      ensures generators == [DotGridAlgo(Unit)]
      ensures this.origin == origin && |coordinatesGrid| == 64
      ensures currentTime == 0 && emissions == 0 && canvas == [] && !destroyed
    {
      var grid := Grid.CreateCoordinatesGrid(8, 8, origin, Unit);
      currentTime := 0;
      generators := [DotGridAlgo(Unit)];
      this.origin := origin;
      coordinatesGrid := grid;
      canvas := [];
      emissions := 0;
      destroyed := false;
    }

    /** The state between the render pass and the spawner of one clock emission. */
    ghost predicate Rendered()
      reads this
    {
      && RenderedRegistry(generators, emissions)
      && currentTime == emissions
      && coordinatesGrid == CoordinatesGrid(origin)
    }

    /** A clock emission: the render pass, then the spawner. `pointDraw` is
        the `Math.random()` draw that picks the new circle's grid point. */
    method Tick(pointDraw: real)
      requires Valid() && Utils.IsDraw(pointDraw)
      modifies this
      ensures Valid()
      ensures origin == old(origin) && coordinatesGrid == old(coordinatesGrid) && destroyed == old(destroyed)
      ensures old(destroyed) ==>
                currentTime == old(currentTime) && generators == old(generators)
                && canvas == old(canvas) && emissions == old(emissions)
      ensures !old(destroyed) ==>
                && emissions == old(emissions) + 1
                && currentTime == old(emissions)
                && canvas == old(canvas) + [Background] + Draws(Survivors(old(generators), currentTime), currentTime)
                && generators == Survivors(old(generators), currentTime) + Spawned(currentTime, coordinatesGrid, pointDraw)
    {
      if destroyed {
        return;
      }
      RenderPass();
      Spawner(pointDraw);
    }

    /** The render subscription: take the clock value, drop the generators
        whose death time has passed, clear the canvas, draw the survivors in
        order and publish them. */
    method RenderPass()
      requires Valid()
      modifies this
      ensures Rendered()
      ensures origin == old(origin) && coordinatesGrid == old(coordinatesGrid) && destroyed == old(destroyed)
      ensures emissions == old(emissions) && currentTime == old(emissions)
      ensures canvas == old(canvas) + [Background] + Draws(Survivors(old(generators), currentTime), currentTime)
      ensures generators == Survivors(old(generators), currentTime)
    {
      var x := emissions;
      var survivors := Survivors(generators, x);
      var ops := RenderFrame(survivors, x);
      RenderKeepsRegistry(generators, currentTime, emissions);
      currentTime := x;
      canvas := canvas + ops;
      generators := survivors;
    }

    /** The spawn subscription: count the emission and, on every
        `SpawnEvery`-th one, append a circle. */
    method Spawner(pointDraw: real)
      requires Rendered() && Utils.IsDraw(pointDraw)
      modifies this
      ensures Valid()
      ensures origin == old(origin) && coordinatesGrid == old(coordinatesGrid) && destroyed == old(destroyed)
      ensures currentTime == old(currentTime) && canvas == old(canvas)
      ensures emissions == old(emissions) + 1
      ensures generators == old(generators) + Spawned(currentTime, coordinatesGrid, pointDraw)
    {
      CoordinatesGridHas64Points(origin);
      var spawned := Spawned(emissions, coordinatesGrid, pointDraw);
      SpawnKeepsRegistry(generators, emissions, spawned);
      generators := generators + spawned;
      emissions := emissions + 1;
    }

    /** The render subscription: clear the canvas, then draw each survivor once, in order. */
    static method RenderFrame(survivors: seq<PGenerator>, x: int) returns (ops: seq<CanvasOp>)
      ensures ops == [Background] + Draws(survivors, x)
    {
      ops := [Background];
      var i := 0;
      while i < |survivors|
        invariant 0 <= i <= |survivors|
        invariant ops == [Background] + Draws(survivors[..i], x)
      {
        assert Draws(survivors[..i + 1], x) == Draws(survivors[..i], x) + [Drew(survivors[i], x)];
        ops := ops + [Drew(survivors[i], x)];
        i := i + 1;
      }
      assert survivors[..i] == survivors;
    }

    /** A window resize rebuilds the lattice around the new canvas centre. */
    method Resize(origin: Coordinates)
      requires Valid()
      modifies this
      ensures Valid()
      ensures !old(destroyed) ==> this.origin == origin
      ensures old(destroyed) ==> this.origin == old(this.origin)
      ensures |coordinatesGrid| == 64
      ensures generators == old(generators) && canvas == old(canvas) && currentTime == old(currentTime)
      ensures emissions == old(emissions) && destroyed == old(destroyed)
    {
      if !destroyed {
        this.origin := origin;
        coordinatesGrid := Grid.CreateCoordinatesGrid(8, 8, origin, Unit);
      }
      CoordinatesGridHas64Points(this.origin);
    }

    /** `ngOnDestroy`: every later clock emission and resize is ignored. */
    method Destroy()
      requires Valid()
      modifies this
      ensures Valid() && destroyed
      ensures generators == old(generators) && canvas == old(canvas) && currentTime == old(currentTime)
      ensures emissions == old(emissions) && origin == old(origin) && coordinatesGrid == old(coordinatesGrid)
    {
      destroyed := true;
    }
  }

  lemma {:induction false} SpacedSuffix(circles: seq<PGenerator>, k: int)
    requires Spaced(circles) && 0 <= k <= |circles|
    ensures Spaced(circles[k..])
  {
    var rest := circles[k..];
    forall i | 0 <= i < |rest|
      ensures rest[i].deathTime == Finite(rest[0].deathTime.frames + SpawnEvery * i)
    {
      assert rest[i] == circles[k + i] && rest[0] == circles[k];
    }
  }

  /** The render pass keeps the dot grid first and drops a prefix of the
      circles, so the spacing and the newest circle are kept. */
  lemma {:induction false} RenderKeepsOrder(generators: seq<PGenerator>, x: int)
    requires generators != [] && generators[0] == DotGridAlgo(Unit)
    requires Spaced(generators[1..])
    ensures var s := Survivors(generators, x);
            && s != [] && s[0] == DotGridAlgo(Unit)
            && Spaced(s[1..])
            && (|s| > 1 ==> |generators| > 1 && s[|s| - 1] == generators[|generators| - 1])
  {
    var circles := generators[1..];
    assert AliveAt(x)(generators[0]);
    var s := Survivors(generators, x);
    assert s == [generators[0]] + Survivors(circles, x);
    SpacedSurvivorsAreASuffix(circles, x);
    var k :| 0 <= k <= |circles| && Survivors(circles, x) == circles[k..];
    assert s[1..] == circles[k..];
    SpacedSuffix(circles, k);
    if |s| > 1 {
      assert s[|s| - 1] == circles[|circles| - 1];
    }
  }

  /** The generator list right after the render pass at clock value `x`:
      the dot grid first, then living circles spawned `SpawnEvery` frames
      apart, the newest one at the last spawn. */
  predicate RenderedRegistry(generators: seq<PGenerator>, x: int)
  {
    && generators != [] && generators[0] == DotGridAlgo(Unit)
    && (forall g | g in generators :: Alive(g, x))
    && Spaced(generators[1..])
    && (|generators| > 1 ==>
          x >= SpawnEvery
          && generators[|generators| - 1].deathTime == Finite(LastSpawnTime(x) + CircleLife))
  }

  /** The render pass at clock value `emissions` leaves a rendered registry. */
  lemma {:induction false} RenderKeepsRegistry(generators: seq<PGenerator>, currentTime: int, emissions: nat)
    requires Registry(generators, currentTime, emissions)
    ensures RenderedRegistry(Survivors(generators, emissions), emissions)
  {
    RenderKeepsOrder(generators, emissions);
    SurvivorsAreTheLiving(generators, emissions);
  }

  /** The spawner keeps the invariant: on every `SpawnEvery`-th emission it
      appends one circle that dies `CircleLife` frames after clock value `x`. */
  lemma {:induction false} SpawnKeepsRegistry(generators: seq<PGenerator>, x: nat, spawned: seq<PGenerator>)
    requires RenderedRegistry(generators, x)
    requires spawned == [] || (|spawned| == 1 && spawned[0].deathTime == Finite(x + CircleLife))
    requires spawned != [] <==> (x + 1) % SpawnEvery == 0
    ensures Registry(generators + spawned, x, x + 1)
  {
    if spawned == [] {
      assert generators + spawned == generators;
      assert (x + 1) / SpawnEvery == x / SpawnEvery;
    } else {
      var g := generators + spawned;
      assert x + 1 == SpawnEvery * ((x + 1) / SpawnEvery);
      assert x / SpawnEvery == (x + 1) / SpawnEvery - 1;
      assert g[1..] == generators[1..] + spawned;
      assert forall c | c in g :: c in generators || c == spawned[0];
    }
  }
}
