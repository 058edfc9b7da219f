/** `renderGenerators` of the three.js container: every generator's layer
    `i` is drawn, in array order, before any generator's layer `i + 1`, each
    layer one `distanceBetweenLayers` higher than the one below it. */
module Compositor {
  import opened Models
  import opened Canvas

  /** The `reduce` of `Math.max` over the layer counts of `gens[n..]`, started from `acc`. */
  function MaxLayersFrom(gens: seq<Generator>, acc: nat, n: nat): (h: nat)
    requires n <= |gens|
    ensures acc <= h
    ensures forall k | n <= k < |gens| :: |gens[k].layers| <= h
    ensures h == acc || exists k | n <= k < |gens| :: |gens[k].layers| == h
    decreases |gens| - n
  {
    if n == |gens| then acc
    else MaxLayersFrom(gens, if |gens[n].layers| > acc then |gens[n].layers| else acc, n + 1)
  }

  /** `highestLayerIndex`: the largest layer count, 0 for an empty list (the seed). */
  function HighestLayerIndex(gens: seq<Generator>): (h: nat)
    ensures forall k | 0 <= k < |gens| :: |gens[k].layers| <= h
    ensures gens == [] ==> h == 0
    ensures h == 0 || exists k | 0 <= k < |gens| :: |gens[k].layers| == h
  {
    MaxLayersFrom(gens, 0, 0)
  }

  /** The callbacks of layer `i`, in array order: one per generator that has a layer `i`. */
  function LayerCalls(gens: seq<Generator>, i: nat): seq<RenderOp>
  {
    if gens == [] then []
    else LayerCalls(gens[..|gens| - 1], i)
         + (if i < |gens[|gens| - 1].layers| then [Invoke(|gens| - 1, i)] else [])
  }

  /** One pass of the layer loop: lift by `i * d`, fire layer `i`, drop back. */
  function Pass(gens: seq<Generator>, i: nat, d: real): seq<RenderOp>
  {
    [Translate(i as real * d)] + LayerCalls(gens, i) + [Translate(-(i as real * d))]
  }

  /** The passes for layers `0 .. n-1`. */
  function Passes(gens: seq<Generator>, n: nat, d: real): seq<RenderOp>
  {
    if n == 0 then [] else Passes(gens, n - 1, d) + Pass(gens, n - 1, d)
  }

  /** Every operation of `ops` placed at depth `z`. */
  function AllAt(z: real, ops: seq<RenderOp>): (r: seq<Placed>)
    ensures |r| == |ops|
  {
    seq(|ops|, k requires 0 <= k < |ops| => Placed(z, ops[k]))
  }

  /** The callbacks of layers `0 .. n-1`, layer `i` at depth `(i + 1) * d`. */
  function LayeredCalls(gens: seq<Generator>, n: nat, d: real): seq<Placed>
  {
    if n == 0 then [] else LayeredCalls(gens, n - 1, d) + AllAt(n as real * d, LayerCalls(gens, n - 1))
  }

  /** `renderGenerators` as the trace of its translations and callback invocations. */
  method RenderGenerators(gens: seq<Generator>, distanceBetweenLayers: real) returns (ops: seq<RenderOp>)
    ensures NetTranslation(ops) == 0.0
    ensures Marks(ops, 0.0) == LayeredCalls(gens, HighestLayerIndex(gens), distanceBetweenLayers)
  {
    var d := distanceBetweenLayers;
    var highestLayerIndex := HighestLayerIndex(gens);
    var passes: seq<RenderOp> := [];
    var i := 0;
    while i < highestLayerIndex
      invariant 0 <= i <= highestLayerIndex
      invariant passes == Passes(gens, i, d)
    {
      var heightDisplacement := i as real * d;
      var calls := FireLayer(gens, i);
      passes := passes + ([Translate(heightDisplacement)] + calls + [Translate(-heightDisplacement)]);
      assert passes == Passes(gens, i + 1, d);
      i := i + 1;
    }
    ops := [Translate(d)] + passes + [Translate(-d)];
    RenderTrace(gens, d);
  }

  /** The whole trace: lifted by `d`, the passes for every layer, dropped back. */
  lemma {:induction false} RenderTrace(gens: seq<Generator>, d: real)
    ensures var ops := [Translate(d)] + Passes(gens, HighestLayerIndex(gens), d) + [Translate(-d)];
            && NetTranslation(ops) == 0.0
            && Marks(ops, 0.0) == LayeredCalls(gens, HighestLayerIndex(gens), d)
  {
    PassesPlaceLayers(gens, HighestLayerIndex(gens), d);
    Bracketed(Passes(gens, HighestLayerIndex(gens), d), d, 0.0);
  }

  /** `generators.map(x => x.drawLayers[i]).forEach(...)`: fires layer `i`
      of every generator that has one, in array order. */
  method FireLayer(gens: seq<Generator>, i: nat) returns (calls: seq<RenderOp>)
    ensures calls == LayerCalls(gens, i)
  {
    calls := [];
    var k := 0;
    while k < |gens|
      invariant 0 <= k <= |gens|
      invariant calls == LayerCalls(gens[..k], i)
    {
      assert gens[..k + 1][..k] == gens[..k];
      if i < |gens[k].layers| {
        calls := calls + [Invoke(k, i)];
      }
      k := k + 1;
    }
    assert gens[..|gens|] == gens;
  }

  /** A trace lifted by `d` and dropped back: it moves nothing more and draws `d` higher. */
  lemma {:induction false} Bracketed(ops: seq<RenderOp>, d: real, z: real)
    ensures NetTranslation([Translate(d)] + ops + [Translate(-d)]) == NetTranslation(ops)
    ensures Marks([Translate(d)] + ops + [Translate(-d)], z) == Marks(ops, z + d)
  {
    MarksAppend([Translate(d)] + ops, [Translate(-d)], z);
    MarksAppend([Translate(d)], ops, z);
    NetTranslationAppend([Translate(d)] + ops, [Translate(-d)]);
    NetTranslationAppend([Translate(d)], ops);
    SingleOp(Translate(d), z);
    SingleOp(Translate(-d), z + d + NetTranslation(ops));
  }

  /** Operations that are all callbacks move nothing and are all drawn at the depth they start at. */
  lemma {:induction false} CallsStayAtDepth(ops: seq<RenderOp>, z: real)
    requires forall k | 0 <= k < |ops| :: ops[k].Invoke?
    ensures NetTranslation(ops) == 0.0
    ensures Marks(ops, z) == AllAt(z, ops)
  {
    if ops != [] {
      CallsStayAtDepth(ops[1..], z);
      assert AllAt(z, ops) == [Placed(z, ops[0])] + AllAt(z, ops[1..]);
    }
  }

  /** A callback of layer `i` of a generator that has one. */
  predicate CallOfLayer(gens: seq<Generator>, op: RenderOp, i: nat)
  {
    op.Invoke? && op.layer == i && 0 <= op.generator < |gens| && i < |gens[op.generator].layers|
  }

  /** The callbacks of a layer are callbacks of that layer, of generators that have it, in array order. */
  lemma {:induction false} LayerCallsShape(gens: seq<Generator>, i: nat)
    ensures var cs := LayerCalls(gens, i);
            && (forall p | 0 <= p < |cs| :: CallOfLayer(gens, cs[p], i))
            && (forall p, q | 0 <= p < q < |cs| :: cs[p].generator < cs[q].generator)
            && (forall k | 0 <= k < |gens| :: Invoke(k, i) in cs <==> i < |gens[k].layers|)
  {
    if gens != [] {
      var init := gens[..|gens| - 1];
      LayerCallsShape(init, i);
      var cs := LayerCalls(gens, i);
      assert forall k | 0 <= k < |init| :: init[k] == gens[k];
      assert forall op | op in LayerCalls(init, i) :: CallOfLayer(init, op, i);
      assert forall op | op in LayerCalls(init, i) :: CallOfLayer(gens, op, i);
    }
  }

  /** A pass moves nothing and draws layer `i` at `i * d` above where it starts. */
  lemma {:induction false} PassShape(gens: seq<Generator>, i: nat, d: real, z: real, top: real)
    requires top == z + i as real * d
    ensures NetTranslation(Pass(gens, i, d)) == 0.0
    ensures Marks(Pass(gens, i, d), z) == AllAt(top, LayerCalls(gens, i))
  {
    var cs, lift := LayerCalls(gens, i), i as real * d;
    LayerCallsShape(gens, i);
    assert forall k | 0 <= k < |cs| :: cs[k].Invoke? by {
      forall k | 0 <= k < |cs| ensures cs[k].Invoke? {
        assert CallOfLayer(gens, cs[k], i);
      }
    }
    CallsStayAtDepth(cs, top);
    Bracketed(cs, lift, z);
    assert Pass(gens, i, d) == [Translate(lift)] + cs + [Translate(-lift)];
  }

  /** The passes for layers below `n` end where they started and draw layer `i` at depth `(i + 1) * d`. */
  lemma {:induction false} PassesPlaceLayers(gens: seq<Generator>, n: nat, d: real)
    ensures NetTranslation(Passes(gens, n, d)) == 0.0
    ensures Marks(Passes(gens, n, d), d) == LayeredCalls(gens, n, d)
  {
    if n > 0 {
      var before, pass := Passes(gens, n - 1, d), Pass(gens, n - 1, d);
      PassesPlaceLayers(gens, n - 1, d);
      PassShape(gens, n - 1, d, d, n as real * d);
      MarksAppend(before, pass, d);
      NetTranslationAppend(before, pass);
    }
  }

  /** The callbacks of a placed trace, without their depths. */
  function Callbacks(marks: seq<Placed>): (ops: seq<RenderOp>)
    ensures |ops| == |marks|
  {
    seq(|marks|, p requires 0 <= p < |marks| => marks[p].op)
  }

  /** Layer-major order: the first mark fires an earlier layer, or the same
      layer of an earlier generator. */
  predicate FiresBefore(a: Placed, b: Placed)
  {
    a.op.Invoke? && b.op.Invoke?
    && (a.op.layer < b.op.layer || (a.op.layer == b.op.layer && a.op.generator < b.op.generator))
  }

  /** A mark that fires layer `i` of a generator that has one, at depth `(i + 1) * d`. */
  predicate LayerCallback(gens: seq<Generator>, mark: Placed, d: real)
  {
    && mark.op.Invoke? && 0 <= mark.op.layer
    && 0 <= mark.op.generator < |gens| && mark.op.layer < |gens[mark.op.generator].layers|
    && mark.z == (mark.op.layer + 1) as real * d
  }

  predicate LayerMajorSorted(m: seq<Placed>)
  {
    forall p, q | 0 <= p < q < |m| :: FiresBefore(m[p], m[q])
  }

  /** Every callback fired by the passes for layers below `n` is the layer
      `i` of a generator that has one, drawn at depth `(i + 1) * d`. */
  lemma {:induction false} LayeredCallsPlaced(gens: seq<Generator>, n: nat, d: real)
    ensures forall mark | mark in LayeredCalls(gens, n, d) :: LayerCallback(gens, mark, d) && mark.op.layer < n
  {
    if n > 0 {
      var before := LayeredCalls(gens, n - 1, d);
      var cs := LayerCalls(gens, n - 1);
      LayeredCallsPlaced(gens, n - 1, d);
      LayerCallsShape(gens, n - 1);
      var m := LayeredCalls(gens, n, d);
      assert m == before + AllAt(n as real * d, cs);
      forall mark | mark in m
        ensures LayerCallback(gens, mark, d) && mark.op.layer < n
      {
        if mark !in before {
          var p :| 0 <= p < |cs| && mark == Placed(n as real * d, cs[p]);
          assert CallOfLayer(gens, cs[p], n - 1);
        }
      }
    }
  }

  /** Two layer-major runs, every mark of the first firing before every
      mark of the second, make one layer-major run. */
  lemma {:induction false} SortedConcat(before: seq<Placed>, after: seq<Placed>)
    requires LayerMajorSorted(before) && LayerMajorSorted(after)
    requires forall x, y | x in before && y in after :: FiresBefore(x, y)
    ensures LayerMajorSorted(before + after)
  {
    var m := before + after;
    forall p, q | 0 <= p < q < |m|
      ensures FiresBefore(m[p], m[q])
    {
      if q < |before| {
        assert m[p] == before[p] && m[q] == before[q];
      } else if p >= |before| {
        assert m[p] == after[p - |before|] && m[q] == after[q - |before|];
      } else {
        assert m[p] == before[p] && m[q] == after[q - |before|];
        assert before[p] in before && after[q - |before|] in after;
      }
    }
  }

  /** The callbacks of one layer, all at one depth, fire in array order. */
  lemma {:induction false} OneLayerSorted(gens: seq<Generator>, i: nat, z: real)
    ensures LayerMajorSorted(AllAt(z, LayerCalls(gens, i)))
    ensures forall mark | mark in AllAt(z, LayerCalls(gens, i)) :: mark.op.Invoke? && mark.op.layer == i
  {
    var cs := LayerCalls(gens, i);
    var m := AllAt(z, cs);
    LayerCallsShape(gens, i);
    forall p, q | 0 <= p < q < |m|
      ensures FiresBefore(m[p], m[q])
    {
      assert m[p].op == cs[p] && m[q].op == cs[q];
      assert CallOfLayer(gens, cs[p], i) && CallOfLayer(gens, cs[q], i);
    }
    forall mark | mark in m
      ensures mark.op.Invoke? && mark.op.layer == i
    {
      var p :| 0 <= p < |m| && m[p] == mark;
      assert CallOfLayer(gens, cs[p], i);
    }
  }

  /** The callbacks fire in layer-major order: all of layer `i`, in array
      order, before any of layer `i + 1`. */
  lemma {:induction false} LayerMajorOrder(gens: seq<Generator>, n: nat, d: real)
    ensures LayerMajorSorted(LayeredCalls(gens, n, d))
  {
    if n > 0 {
      var before := LayeredCalls(gens, n - 1, d);
      var after := AllAt(n as real * d, LayerCalls(gens, n - 1));
      LayerMajorOrder(gens, n - 1, d);
      LayeredCallsPlaced(gens, n - 1, d);
      OneLayerSorted(gens, n - 1, n as real * d);
      SortedConcat(before, after);
    }
  }

  /** Each layer below `n` of each generator that has it fires. */
  lemma {:induction false} LayeredCallsComplete(gens: seq<Generator>, n: nat, d: real)
    ensures forall k, i | 0 <= k < |gens| && 0 <= i ::
              Invoke(k, i) in Callbacks(LayeredCalls(gens, n, d)) <==> i < n && i < |gens[k].layers|
  {
    if n > 0 {
      var before := LayeredCalls(gens, n - 1, d);
      var cs := LayerCalls(gens, n - 1);
      var m := LayeredCalls(gens, n, d);
      LayeredCallsComplete(gens, n - 1, d);
      LayerCallsShape(gens, n - 1);
      assert m == before + AllAt(n as real * d, cs);
      assert Callbacks(m) == Callbacks(before) + cs;
      forall k, i | 0 <= k < |gens| && 0 <= i
        ensures Invoke(k, i) in Callbacks(m) <==> i < n && i < |gens[k].layers|
      {
        if Invoke(k, i) in cs {
          assert CallOfLayer(gens, Invoke(k, i), n - 1);
        }
      }
    }
  }

  /** The total number of layers of all generators. */
  function TotalLayers(gens: seq<Generator>): nat
  {
    if gens == [] then 0 else TotalLayers(gens[..|gens| - 1]) + |gens[|gens| - 1].layers|
  }

  /** The total, with every generator's count cut off at `n`. */
  function CappedLayers(gens: seq<Generator>, n: nat): nat
  {
    if gens == [] then 0
    else CappedLayers(gens[..|gens| - 1], n) + Min(|gens[|gens| - 1].layers|, n)
  }

  function Min(a: nat, b: nat): nat
  {
    if a < b then a else b
  }

  /** The number of callbacks fired by the passes for layers below `n`. */
  function CallCount(gens: seq<Generator>, n: nat): nat
  {
    if n == 0 then 0 else CallCount(gens, n - 1) + |LayerCalls(gens, n - 1)|
  }

  lemma {:induction false} LayeredCallsLength(gens: seq<Generator>, n: nat, d: real)
    ensures |LayeredCalls(gens, n, d)| == CallCount(gens, n)
  {
    if n > 0 {
      LayeredCallsLength(gens, n - 1, d);
    }
  }

  /** The last generator adds one callback to each of the first `n` passes it has a layer for. */
  lemma {:induction false} CallCountOfLast(gens: seq<Generator>, n: nat)
    requires gens != []
    ensures CallCount(gens, n) == CallCount(gens[..|gens| - 1], n) + Min(|gens[|gens| - 1].layers|, n)
  {
    if n > 0 {
      CallCountOfLast(gens, n - 1);
    }
  }

  lemma {:induction false} CallCountIsCapped(gens: seq<Generator>, n: nat)
    ensures CallCount(gens, n) == CappedLayers(gens, n)
  {
    if gens == [] {
      CallCountOfEmpty(n);
    } else {
      CallCountIsCapped(gens[..|gens| - 1], n);
      CallCountOfLast(gens, n);
    }
  }

  lemma {:induction false} CallCountOfEmpty(n: nat)
    ensures CallCount([], n) == 0
  {
    if n > 0 {
      CallCountOfEmpty(n - 1);
    }
  }

  lemma {:induction false} CapAboveAll(gens: seq<Generator>, n: nat)
    requires forall k | 0 <= k < |gens| :: |gens[k].layers| <= n
    ensures CappedLayers(gens, n) == TotalLayers(gens)
  {
    if gens != [] {
      var init := gens[..|gens| - 1];
      assert forall k | 0 <= k < |init| :: init[k] == gens[k];
      CapAboveAll(init, n);
    }
  }

  /** A generator lacking a layer is skipped, so the callbacks fired are
      exactly as many as all generators have layers; an empty list fires none. */
  lemma {:induction false} EveryLayerFiresOnce(gens: seq<Generator>, d: real)
    ensures |LayeredCalls(gens, HighestLayerIndex(gens), d)| == TotalLayers(gens)
    ensures gens == [] ==> LayeredCalls(gens, HighestLayerIndex(gens), d) == []
  {
    var h := HighestLayerIndex(gens);
    LayeredCallsLength(gens, h, d);
    CallCountIsCapped(gens, h);
    CapAboveAll(gens, h);
  }
}
