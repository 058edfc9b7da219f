/** The drawing calls the core makes, as a trace: depth translations, the
    marks drawn, and draw-callback invocations. A mark's depth is the sum of
    the translations before it. */
module Canvas {

  datatype RenderOp =
    | Translate(dz: real)
    | Dot(x: real, y: real)
    | Rect(x: real, y: real, width: real, height: real)
    /** The draw callback of layer `layer` of the `generator`-th generator. */
    | Invoke(generator: int, layer: int)

  /** A non-translation operation and the depth it happens at. */
  datatype Placed = Placed(z: real, op: RenderOp)

  /** The total depth translation of a trace. */
  function NetTranslation(ops: seq<RenderOp>): real
  {
    if ops == [] then 0.0
    else (if ops[0].Translate? then ops[0].dz else 0.0) + NetTranslation(ops[1..])
  }

  /** The non-translation operations of a trace started at depth `z`, each
      with the depth it happens at. */
  function Marks(ops: seq<RenderOp>, z: real): seq<Placed>
  {
    if ops == [] then []
    else if ops[0].Translate? then Marks(ops[1..], z + ops[0].dz)
    else [Placed(z, ops[0])] + Marks(ops[1..], z)
  }

  lemma {:induction false} NetTranslationAppend(a: seq<RenderOp>, b: seq<RenderOp>)
    ensures NetTranslation(a + b) == NetTranslation(a) + NetTranslation(b)
  {
    if a == [] {
      assert a + b == b;
    } else {
      assert (a + b)[1..] == a[1..] + b;
      NetTranslationAppend(a[1..], b);
    }
  }

  /** The marks of a concatenation: the second part starts at the depth the first ends at. */
  lemma {:induction false} MarksAppend(a: seq<RenderOp>, b: seq<RenderOp>, z: real)
    ensures Marks(a + b, z) == Marks(a, z) + Marks(b, z + NetTranslation(a))
  {
    if a == [] {
      assert a + b == b;
    } else {
      var ab := a + b;
      assert ab[0] == a[0] && ab[1..] == a[1..] + b;
      var rest := NetTranslation(a[1..]);
      if a[0].Translate? {
        var dz := a[0].dz;
        MarksAppend(a[1..], b, z + dz);
        calc {
          Marks(ab, z);
          Marks(a[1..] + b, z + dz);
          Marks(a[1..], z + dz) + Marks(b, z + dz + rest);
          { assert z + dz + rest == z + NetTranslation(a); }
          Marks(a, z) + Marks(b, z + NetTranslation(a));
        }
      } else {
        MarksAppend(a[1..], b, z);
        calc {
          Marks(ab, z);
          [Placed(z, a[0])] + Marks(a[1..] + b, z);
          [Placed(z, a[0])] + (Marks(a[1..], z) + Marks(b, z + rest));
          { assert NetTranslation(a) == rest; }
          Marks(a, z) + Marks(b, z + NetTranslation(a));
        }
      }
    }
  }

  /** One operation on its own. */
  lemma {:induction false} SingleOp(op: RenderOp, z: real)
    ensures NetTranslation([op]) == if op.Translate? then op.dz else 0.0
    ensures Marks([op], z) == if op.Translate? then [] else [Placed(z, op)]
  {
    assert [op][1..] == [];
  }
}
