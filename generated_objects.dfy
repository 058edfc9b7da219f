/** The scene list of the three.js canvas: every eighth beat puts a flat
    circle and a dot grid 250 along z from the camera, and every 500th tick
    keeps only the objects whose z is above the camera's. The camera only
    ever moves towards -z, so that cull never removes a pushed object. */
module GeneratedObjects {
  import Seqs

  datatype Vector3 = Vector3(x: real, y: real, z: real)

  const Zero: Vector3 := Vector3(0.0, 0.0, 0.0)
  /** `forwardOffset`: how far along z from the camera new objects appear. */
  const ForwardOffset: real := 250.0
  /** `bufferCount(8)`: beats per pair of new objects. */
  const BeatsPerSpawn: nat := 8
  /** `x % 500 === 0`: ticks between culls. */
  const TicksPerCull: nat := 500

  datatype ObjectType = FlatCircle | DotGridObject

  datatype PositionedObject = PositionedObject(position: Vector3, rotation: Vector3, kind: ObjectType)

  /** The camera's z after `ticks` deliveries of the tick stream to the
      camera service: it starts at 0 and every delivery moves it by `-1/50`. */
  function CameraZ(ticks: nat): (z: real)
    ensures z <= 0.0
    ensures ticks > 0 ==> z < 0.0
  {
    -(ticks as real) / 50.0
  }

  /** The camera never moves back towards +z. */
  lemma {:induction false} CameraRecedes(earlier: nat, later: nat)
    requires earlier <= later
    ensures CameraZ(later) <= CameraZ(earlier)
  {
  }

  /** The two objects a full beat buffer adds: a flat circle at height 1
      and a dot grid at height 10, both `forwardOffset` along z from the camera. */
  function NewPair(cameraZ: real): seq<PositionedObject>
  {
    [ PositionedObject(Vector3(0.0, 1.0, cameraZ + ForwardOffset), Zero, FlatCircle),
      PositionedObject(Vector3(0.0, 10.0, cameraZ + ForwardOffset), Zero, DotGridObject) ]
  }

  /** The cull's test: the object's z is strictly above the camera's. */
  function AboveCamera(cameraZ: real): PositionedObject -> bool
  {
    (o: PositionedObject) => o.position.z > cameraZ
  }

  /** The culled list: `objects.filter(o => o.position.z > camera.z)`. */
  function Cull(objects: seq<PositionedObject>, cameraZ: real): seq<PositionedObject>
  {
    Seqs.Filter(objects, AboveCamera(cameraZ))
  }

  /** The culled list holds exactly the objects above the camera's z, in their old order. */
  lemma {:induction false} CullKeepsWhatIsAbove(objects: seq<PositionedObject>, cameraZ: real)
    ensures forall o :: o in Cull(objects, cameraZ) <==> o in objects && o.position.z > cameraZ
    ensures Seqs.IsSubsequence(Cull(objects, cameraZ), objects)
  {
    Seqs.FilterKeepsOrder(objects, AboveCamera(cameraZ));
  }

  /** Culling again with the camera where it was changes nothing. */
  lemma {:induction false} CullIdempotent(objects: seq<PositionedObject>, cameraZ: real)
    ensures Cull(Cull(objects, cameraZ), cameraZ) == Cull(objects, cameraZ)
  {
    Seqs.FilterTwice(objects, AboveCamera(cameraZ), AboveCamera(cameraZ));
  }

  /** Once the camera has moved on towards -z, a later cull removes nothing
      an earlier one kept. */
  lemma {:induction false} CullAfterCameraMoves(objects: seq<PositionedObject>, cameraZ: real, laterZ: real)
    requires laterZ <= cameraZ
    ensures Cull(Cull(objects, cameraZ), laterZ) == Cull(objects, cameraZ)
  {
    CullKeepsWhatIsAbove(objects, cameraZ);
    Seqs.FilterAllPass(Cull(objects, cameraZ), AboveCamera(laterZ));
  }

  /** Objects that are all above some camera depth survive every cull at
      that depth or below it. */
  lemma {:induction false} NothingPushedIsCulled(objects: seq<PositionedObject>, pushZ: real, laterZ: real)
    requires laterZ <= pushZ
    requires forall o | o in objects :: o.position.z > pushZ
    ensures Cull(objects, laterZ) == objects
  {
    Seqs.FilterAllPass(objects, AboveCamera(laterZ));
  }

  /** A pair appended right after the camera's position survives a cull there. */
  lemma {:induction false} FreshPairSurvivesCull(objects: seq<PositionedObject>, cameraZ: real)
    ensures Cull(objects + NewPair(cameraZ), cameraZ) == Cull(objects, cameraZ) + NewPair(cameraZ)
  {
    Seqs.FilterAppend(objects, NewPair(cameraZ), AboveCamera(cameraZ));
    Seqs.FilterAllPass(NewPair(cameraZ), AboveCamera(cameraZ));
  }

  /** A pair pushed at some tick survives the cull of every later tick,
      because the camera only moves towards -z. */
  lemma {:induction false} PairSurvivesLaterCulls(objects: seq<PositionedObject>, pushTick: nat, cullTick: nat)
    requires pushTick <= cullTick
    ensures Cull(objects + NewPair(CameraZ(pushTick)), CameraZ(cullTick))
            == Cull(objects, CameraZ(cullTick)) + NewPair(CameraZ(pushTick))
  {
    CameraRecedes(pushTick, cullTick);
    Seqs.FilterAppend(objects, NewPair(CameraZ(pushTick)), AboveCamera(CameraZ(cullTick)));
    NothingPushedIsCulled(NewPair(CameraZ(pushTick)), CameraZ(pushTick), CameraZ(cullTick));
  }

  class GeneratedObjectsComponent {
    var objects: seq<PositionedObject>
    /** Beats collected by `bufferCount(8)` since it last emitted. */
    var bufferedBeats: nat

    /** Nothing is ever rotated, and the beat buffer is never full. */
    ghost predicate Valid()
      reads this
    {
      && bufferedBeats < BeatsPerSpawn
      && forall i | 0 <= i < |objects| :: objects[i].rotation == Zero
    }

    constructor()
      ensures Valid()
      ensures objects == [] && bufferedBeats == 0
    {
      objects := [];
      bufferedBeats := 0;
    }

    /** A beat: the eighth beat in the buffer pushes the pair for the camera's current depth. */
    method OnBeat(cameraZ: real)
      requires Valid()
      modifies this
      ensures Valid()
      ensures bufferedBeats == (old(bufferedBeats) + 1) % BeatsPerSpawn
      ensures objects == old(objects) + (if old(bufferedBeats) + 1 == BeatsPerSpawn then NewPair(cameraZ) else [])
      ensures (objects, bufferedBeats) == Beat(old(objects), old(bufferedBeats), cameraZ)
    {
      if bufferedBeats + 1 < BeatsPerSpawn {
        bufferedBeats := bufferedBeats + 1;
      } else {
        bufferedBeats := 0;
        objects := objects + NewPair(cameraZ);
      }
    }

    /** A tick: on every 500th tick value the list is replaced by its culled copy. */
    method OnTick(tick: nat, cameraZ: real)
      requires Valid()
      modifies this
      ensures Valid()
      ensures bufferedBeats == old(bufferedBeats)
      ensures objects == if tick % TicksPerCull == 0 then Cull(old(objects), cameraZ) else old(objects)
    {
      if tick % TicksPerCull == 0 {
        CullKeepsWhatIsAbove(objects, cameraZ);
        objects := Cull(objects, cameraZ);
      }
    }
  }

  /** Eight beats add exactly one pair, at the end, whatever came before. */
  lemma {:induction false} EightBeatsOnePair(objects: seq<PositionedObject>, bufferedBeats: nat, cameraZ: real)
    requires bufferedBeats < BeatsPerSpawn
    ensures var after := AfterBeats(objects, bufferedBeats, cameraZ, BeatsPerSpawn);
            && after.1 == bufferedBeats
            && after.0 == objects + NewPair(cameraZ)
  {
    BeatsFrom(objects, bufferedBeats, cameraZ, BeatsPerSpawn);
  }

  /** The list and buffer after `n` beats at a fixed camera depth. */
  function AfterBeats(objects: seq<PositionedObject>, bufferedBeats: nat, cameraZ: real, n: nat)
    : (seq<PositionedObject>, nat)
  {
    if n == 0 then (objects, bufferedBeats)
    else
      var prev := AfterBeats(objects, bufferedBeats, cameraZ, n - 1);
      Beat(prev.0, prev.1, cameraZ)
  }

  /** The list and buffer after one beat. */
  function Beat(objects: seq<PositionedObject>, bufferedBeats: nat, cameraZ: real): (seq<PositionedObject>, nat)
  {
    if bufferedBeats + 1 < BeatsPerSpawn then (objects, bufferedBeats + 1)
    else (objects + NewPair(cameraZ), 0)
  }

  /** After `n` beats the buffer has advanced by `n` modulo 8 and one pair
      was appended per wrap-around. */
  lemma {:induction false} BeatsFrom(objects: seq<PositionedObject>, bufferedBeats: nat, cameraZ: real, n: nat)
    requires bufferedBeats < BeatsPerSpawn
    ensures var after := AfterBeats(objects, bufferedBeats, cameraZ, n);
            && after.1 == (bufferedBeats + n) % BeatsPerSpawn
            && after.0 == objects + Pairs(cameraZ, (bufferedBeats + n) / BeatsPerSpawn)
  {
    if n > 0 {
      BeatsFrom(objects, bufferedBeats, cameraZ, n - 1);
      var k := (bufferedBeats + n - 1) / BeatsPerSpawn;
      if (bufferedBeats + n - 1) % BeatsPerSpawn + 1 == BeatsPerSpawn {
        assert (bufferedBeats + n) / BeatsPerSpawn == k + 1;
        assert objects + Pairs(cameraZ, k) + NewPair(cameraZ) == objects + Pairs(cameraZ, k + 1);
      }
    }
  }

  /** `k` pairs for the same camera depth. */
  function Pairs(cameraZ: real, k: nat): seq<PositionedObject>
  {
    if k == 0 then [] else Pairs(cameraZ, k - 1) + NewPair(cameraZ)
  }
}
