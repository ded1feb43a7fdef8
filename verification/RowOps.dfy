/** The vector routines applied to one row of a flat buffer, in place. A buffer
    holds a list of rows; every routine replaces one row and leaves the others,
    which is what lets a loop over rows be stated row by row. */
module RowOps {
  import opened Numbers
  import opened Kernels
  import opened Activations
  import opened Forward

  /** Row `i` of the buffer holds `v`. */
  ghost predicate RowIs<T>(a: seq<T>, i: nat, width: nat, v: seq<T>) {
    (i + 1) * width <= |a| && Row(a, i, width) == v
  }

  /** Only row `i` may differ. */
  ghost predicate OnlyRow<T>(a: seq<T>, a': seq<T>, i: nat, width: nat) {
    |a| == |a'| && forall k | 0 <= k < |a| && !(i * width <= k < (i + 1) * width) :: a'[k] == a[k]
  }

  lemma OtherRow<T>(a: seq<T>, a': seq<T>, i: nat, width: nat, r: nat, v: seq<T>)
    requires OnlyRow(a, a', i, width) && r != i && RowIs(a, r, width, v)
    ensures RowIs(a', r, width, v)
  {
    RowOutside(a, a', i, r, width);
  }

  lemma RowFilled<T>(a: seq<T>, i: nat, width: nat, v: seq<T>)
    requires |v| == width && (i + 1) * width <= |a|
    requires forall j | 0 <= j < width :: RowStart(i, width) + j < |a| && a[RowStart(i, width) + j] == v[j]
    ensures RowIs(a, i, width, v)
  {
    MulStep(i, width);
    assert Row(a, i, width) == v;
  }

  /** Overwrite row `i` with `v`. */
  method SetRow<T>(a: array<T>, i: nat, width: nat, v: seq<T>)
    requires |v| == width && (i + 1) * width <= a.Length
    modifies a
    ensures RowIs(a[..], i, width, v) && OnlyRow(old(a[..]), a[..], i, width)
  {
    var s := RowStart(i, width);
    var j := 0;
    while j < width
      invariant 0 <= j <= width
      invariant forall k | 0 <= k < j :: a[s + k] == v[k]
      invariant forall k | 0 <= k < a.Length && !(s <= k < s + width) :: a[k] == old(a[k])
    {
      a[s + j] := v[j];
      j := j + 1;
    }
    RowFilled(a[..], i, width, v);
  }

  method GetRow<T>(a: array<T>, i: nat, width: nat) returns (v: seq<T>)
    requires (i + 1) * width <= a.Length
    ensures v == Row(a[..], i, width) && |v| == width
  {
    var s := RowStart(i, width);
    v := a[s..s + width];
  }

  /** The first rows of the buffer hold `vs`. */
  ghost predicate Holds<T>(a: seq<T>, width: nat, vs: seq<seq<T>>) {
    forall i | 0 <= i < |vs| :: RowIs(a, i, width, vs[i])
  }

  lemma HoldsGrow<T>(a: seq<T>, a': seq<T>, width: nat, vs: seq<seq<T>>, v: seq<T>)
    requires Holds(a, width, vs) && OnlyRow(a, a', |vs|, width) && RowIs(a', |vs|, width, v)
    ensures Holds(a', width, vs + [v])
  {
    hide RowIs;
    forall r | 0 <= r < |vs| ensures RowIs(a', r, width, vs[r]) {
      OtherRow(a, a', |vs|, width, r, vs[r]);
    }
  }

  lemma HoldsUpdate<T>(a: seq<T>, a': seq<T>, width: nat, vs: seq<seq<T>>, i: nat, v: seq<T>)
    requires i < |vs| && Holds(a, width, vs) && OnlyRow(a, a', i, width) && RowIs(a', i, width, v)
    ensures Holds(a', width, vs[i := v])
  {
    hide RowIs;
    forall r | 0 <= r < |vs| && r != i ensures RowIs(a', r, width, vs[r]) {
      OtherRow(a, a', i, width, r, vs[r]);
    }
  }

  /** Read row `i` of a buffer that holds `vs`. */
  method ReadRow<T>(a: array<T>, i: nat, width: nat, ghost vs: seq<seq<T>>) returns (v: seq<T>)
    requires i < |vs| && Holds(a[..], width, vs)
    ensures v == vs[i] && |v| == width
  {
    assert RowIs(a[..], i, width, vs[i]);
    v := GetRow(a, i, width);
  }

  /** Overwrite row `i` of a buffer that holds `vs`. */
  method ReplaceRow<T>(a: array<T>, i: nat, width: nat, v: seq<T>, ghost vs: seq<seq<T>>)
    requires i < |vs| && Holds(a[..], width, vs) && |v| == width
    modifies a
    ensures Holds(a[..], width, vs[i := v]) && OnlyRow(old(a[..]), a[..], i, width)
  {
    assert RowIs(a[..], i, width, vs[i]);
    SetRow(a, i, width, v);
    HoldsUpdate(old(a[..]), a[..], width, vs, i, v);
  }

  /** Write the next row of a buffer that holds `vs`. */
  method AppendRow<T>(a: array<T>, i: nat, width: nat, v: seq<T>, ghost vs: seq<seq<T>>)
    requires i == |vs| && Holds(a[..], width, vs) && |v| == width && (i + 1) * width <= a.Length
    modifies a
    ensures Holds(a[..], width, vs + [v])
  {
    SetRow(a, i, width, v);
    HoldsGrow(old(a[..]), a[..], width, vs, v);
  }

  function RmsAll(o: Ops, xs: seq<Vector>, w: Vector): (ys: seq<Vector>)
    ensures |ys| == |xs| && forall i | 0 <= i < |xs| :: ys[i] == Rms(o, xs[i], w)
  {
    seq(|xs|, i requires 0 <= i < |xs| => Rms(o, xs[i], w))
  }

  ghost predicate SameShape(xs: seq<Vector>, ys: seq<Vector>) {
    |xs| == |ys| && forall i | 0 <= i < |xs| :: |xs[i]| == |ys[i]|
  }

  function ResidualAll(o: Ops, ys: seq<Vector>, xs: seq<Vector>): (zs: seq<Vector>)
    requires SameShape(xs, ys)
    ensures |zs| == |ys| && forall i | 0 <= i < |ys| :: zs[i] == Residual(o, ys[i], xs[i])
  {
    seq(|ys|, i requires 0 <= i < |ys| => Residual(o, ys[i], xs[i]))
  }

  function SwigluAll(o: Ops, gs: seq<Vector>, us: seq<Vector>): (zs: seq<Vector>)
    requires SameShape(us, gs)
    ensures |zs| == |gs| && forall i | 0 <= i < |gs| :: zs[i] == Swiglu(o, gs[i], us[i])
  {
    seq(|gs|, i requires 0 <= i < |gs| => Swiglu(o, gs[i], us[i]))
  }

  /** Embedding rows of a chunk. */
  method EmbedRows(c: Config, out: array<Float>, tokens: seq<nat>)
    requires Shaped(c.embed, c.d.vocab, c.d.dim) && |tokens| * c.d.dim <= out.Length
    requires forall i | 0 <= i < |tokens| :: tokens[i] < c.d.vocab
    modifies out
    ensures Holds(out[..], c.d.dim, EmbedAll(c, tokens))
  {
    hide Embed, Holds;
    ghost var all := EmbedAll(c, tokens);
    HoldsNone(out[..], c.d.dim);
    var i := 0;
    while i < |tokens|
      invariant 0 <= i <= |tokens| && Holds(out[..], c.d.dim, all[..i])
    {
      RowFits(i, |tokens|, c.d.dim, out.Length);
      AppendRow(out, i, c.d.dim, Embed(c, tokens[i]), all[..i]);
      assert all[..i] + [all[i]] == all[..i + 1];
      i := i + 1;
    }
    assert all[..i] == all;
  }

  lemma HoldsNone<T>(a: seq<T>, width: nat)
    ensures Holds(a, width, [])
  {
  }

  /** rmsnorm row by row. */
  method RmsRows(o: Ops, out: array<Float>, x: array<Float>, w: Vector, batch: nat, width: nat, ghost xs: seq<Vector>)
    requires out != x && batch == |xs| && batch * width <= out.Length && Holds(x[..], width, xs)
    modifies out
    ensures Holds(out[..], width, RmsAll(o, xs, w))
  {
    hide Rms, Holds;
    ghost var all := RmsAll(o, xs, w);
    HoldsNone(out[..], width);
    var i := 0;
    while i < batch
      invariant 0 <= i <= batch && x[..] == old(x[..]) && Holds(out[..], width, all[..i])
    {
      RowFits(i, batch, width, out.Length);
      var row := ReadRow(x, i, width, xs);
      AppendRow(out, i, width, Rms(o, row, w), all[..i]);
      assert all[..i] + [all[i]] == all[..i + 1];
      i := i + 1;
    }
    assert all[..i] == all;
  }

  /** `y += scale * x` row by row. */
  method ResidualRows(o: Ops, y: array<Float>, x: array<Float>, batch: nat, width: nat, ghost ys: seq<Vector>, ghost xs: seq<Vector>)
    requires y != x && batch == |xs| && SameShape(xs, ys) && Holds(y[..], width, ys) && Holds(x[..], width, xs)
    modifies y
    ensures Holds(y[..], width, ResidualAll(o, ys, xs))
  {
    hide Residual, Holds;
    ghost var all := ResidualAll(o, ys, xs);
    assert all[..0] + ys[0..] == ys;
    var i := 0;
    while i < batch
      invariant 0 <= i <= batch && x[..] == old(x[..]) && Holds(y[..], width, all[..i] + ys[i..])
    {
      ghost var now := all[..i] + ys[i..];
      var a := ReadRow(y, i, width, now);
      var b := ReadRow(x, i, width, xs);
      ReplaceRow(y, i, width, Residual(o, a, b), now);
      assert now[i := all[i]] == all[..i + 1] + ys[i + 1..];
      i := i + 1;
    }
    assert all[..i] + ys[i..] == all;
  }

  /** The SwiGLU gate row by row. */
  method SwigluRows(o: Ops, g: array<Float>, u: array<Float>, batch: nat, width: nat, ghost gs: seq<Vector>, ghost us: seq<Vector>)
    requires g != u && batch == |us| && SameShape(us, gs) && Holds(g[..], width, gs) && Holds(u[..], width, us)
    modifies g
    ensures Holds(g[..], width, SwigluAll(o, gs, us))
  {
    hide Swiglu, Holds;
    ghost var all := SwigluAll(o, gs, us);
    assert all[..0] + gs[0..] == gs;
    var i := 0;
    while i < batch
      invariant 0 <= i <= batch && u[..] == old(u[..]) && Holds(g[..], width, all[..i] + gs[i..])
    {
      ghost var now := all[..i] + gs[i..];
      var a := ReadRow(g, i, width, now);
      var b := ReadRow(u, i, width, us);
      ReplaceRow(g, i, width, Swiglu(o, a, b), now);
      assert now[i := all[i]] == all[..i + 1] + gs[i + 1..];
      i := i + 1;
    }
    assert all[..i] + gs[i..] == all;
  }
}
