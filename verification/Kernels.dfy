/** The quantized matrix products: row by row, and batched in tiles of four
    with rows split across the pool. */
module Kernels {
  import opened Numbers

  /** A row-major weight matrix, `cols / BlockSize` blocks per row. */
  datatype Mat = Mat(dtype: Dtype, blocks: seq<Block>)

  ghost predicate Shaped(m: Mat, rows: nat, cols: nat) {
    && cols % BlockSize(m.dtype) == 0
    && |m.blocks| >= rows * (cols / BlockSize(m.dtype))
  }

  /** The quantized form of `x`: one activation block per `FormatSize` values. */
  function Quantized(o: Ops, f: Format, x: seq<Float>): (a: seq<Act>)
    ensures |a| == |x| / FormatSize(f)
  {
    seq(|x| / FormatSize(f), k requires 0 <= k < |x| / FormatSize(f) => QuantizeBlock(o, f, x, k))
  }

  function QuantizeBlock(o: Ops, f: Format, x: seq<Float>, k: nat): Act
    requires k < |x| / FormatSize(f)
  {
    BlockEnd(k, |x|, FormatSize(f));
    o.quantize(f, x[k * FormatSize(f)..(k + 1) * FormatSize(f)])
  }

  lemma BlockEnd(k: nat, n: nat, size: nat)
    requires size > 0 && k < n / size
    ensures k * size <= (k + 1) * size <= n
  {
    MulMono(k + 1, n / size, size);
  }

  /** The block-by-block fold of a dot kernel. */
  function DotAcc(o: Ops, t: Dtype, w: seq<Block>, x: seq<Act>, n: nat): Acc
    requires n <= |w| && n <= |x|
  {
    if n == 0 then o.accZero(t) else o.accStep(t, DotAcc(o, t, w, x, n - 1), w[n - 1], x[n - 1])
  }

  function Dot(o: Ops, t: Dtype, w: seq<Block>, x: seq<Act>): Float
    requires |w| == |x|
  {
    o.accFinish(t, DotAcc(o, t, w, x, |w|))
  }

  /** Blocks `r * bpr .. (r + 1) * bpr`. */
  function Row<T>(a: seq<T>, r: nat, width: nat): (s: seq<T>)
    requires (r + 1) * width <= |a|
    ensures |s| == width
  {
    MulStep(r, width);
    MulNat(r, width);
    a[r * width..(r + 1) * width]
  }

  lemma RowFits(r: nat, rows: nat, width: nat, len: nat)
    requires r < rows && rows * width <= len
    ensures 0 <= r * width <= (r + 1) * width <= len
  {
    MulMono(r + 1, rows, width);
    MulStep(r, width);
    MulNat(r, width);
  }

  /** Entry `r` of the product with an already quantized vector. */
  function RowDot(o: Ops, m: Mat, r: nat, x: seq<Act>): Float
    requires (r + 1) * |x| <= |m.blocks|
  {
    Dot(o, m.dtype, Row(m.blocks, r, |x|), x)
  }

  /** The product of `m` with `x`, quantized to the format `m` needs. */
  function MatVec(o: Ops, m: Mat, rows: nat, x: seq<Float>): (y: seq<Float>)
    requires Shaped(m, rows, |x|)
    ensures |y| == rows
  {
    var a := Quantized(o, FormatOf(m.dtype), x);
    seq(rows, r requires 0 <= r < rows => RowFits(r, rows, |a|, |m.blocks|); RowDot(o, m, r, a))
  }

  // ---- Kernels over buffers ----------------------------------------------------------

  /** Index of output `(b, r)` in a `[batch][rows]` buffer. */
  function At(b: nat, r: nat, rows: nat): (i: nat)
    ensures i == b * rows + r
  {
    MulNat(b, rows);
    b * rows + r
  }

  lemma AtBound(b: nat, r: nat, rows: nat, batch: nat)
    requires b < batch && r < rows
    ensures At(b, r, rows) < batch * rows
  {
    MulMono(b + 1, batch, rows);
    MulStep(b, rows);
  }

  lemma AtInjective(b: nat, r: nat, b': nat, r': nat, rows: nat)
    requires r < rows && r' < rows && At(b, r, rows) == At(b', r', rows)
    ensures b == b' && r == r'
  {
    MulStep(b, rows);
    MulStep(b', rows);
    if b < b' {
      MulMono(b + 1, b', rows);
    } else if b' < b {
      MulMono(b' + 1, b, rows);
    }
  }

  /** One weight block against the four lanes. */
  method StepFour(o: Ops, t: Dtype, acc: seq<Acc>, b: Block, x: seq<Act>) returns (r: seq<Acc>)
    requires |acc| == |x| == 4
    ensures |r| == 4 && forall i | 0 <= i < 4 :: r[i] == o.accStep(t, acc[i], b, x[i])
  {
    r := acc;
    var lane := 0;
    while lane < 4
      invariant 0 <= lane <= 4 && |r| == 4
      invariant forall i | 0 <= i < 4 :: r[i] == if i < lane then o.accStep(t, acc[i], b, x[i]) else acc[i]
    {
      r := r[lane := o.accStep(t, r[lane], b, x[lane])];
      lane := lane + 1;
    }
  }

  /** Four activation vectors against one weight row, block by block. */
  method DotX4(o: Ops, t: Dtype, w: seq<Block>, xs: seq<seq<Act>>) returns (vs: seq<Float>)
    requires |xs| == 4 && forall i | 0 <= i < 4 :: |xs[i]| == |w|
    ensures |vs| == 4 && forall i | 0 <= i < 4 :: vs[i] == Dot(o, t, w, xs[i])
  {
    var acc := [o.accZero(t), o.accZero(t), o.accZero(t), o.accZero(t)];
    var k := 0;
    while k < |w|
      invariant 0 <= k <= |w| && |acc| == 4
      invariant forall i | 0 <= i < 4 :: acc[i] == DotAcc(o, t, w, xs[i], k)
    {
      acc := StepFour(o, t, acc, w[k], [xs[0][k], xs[1][k], xs[2][k], xs[3][k]]);
      k := k + 1;
    }
    vs := [o.accFinish(t, acc[0]), o.accFinish(t, acc[1]), o.accFinish(t, acc[2]), o.accFinish(t, acc[3])];
  }

  method DotOne(o: Ops, t: Dtype, w: seq<Block>, x: seq<Act>) returns (v: Float)
    requires |w| == |x|
    ensures v == Dot(o, t, w, x)
  {
    var acc := o.accZero(t);
    var k := 0;
    while k < |w|
      invariant 0 <= k <= |w| && acc == DotAcc(o, t, w, x, k)
    {
      acc := o.accStep(t, acc, w[k], x[k]);
      k := k + 1;
    }
    v := o.accFinish(t, acc);
  }

  /** Output `(b, r)` of the batched product. */
  function Cell(o: Ops, m: Mat, xs: seq<Act>, bpr: nat, b: nat, r: nat): Float
    requires (r + 1) * bpr <= |m.blocks| && (b + 1) * bpr <= |xs|
  {
    RowDot(o, m, r, Row(xs, b, bpr))
  }

  ghost predicate BatchShape(m: Mat, xs: seq<Act>, rows: nat, bpr: nat, batch: nat) {
    rows * bpr <= |m.blocks| && |xs| == batch * bpr
  }

  lemma CellFits(m: Mat, xs: seq<Act>, rows: nat, bpr: nat, batch: nat, b: nat, r: nat)
    requires BatchShape(m, xs, rows, bpr, batch) && b < batch && r < rows
    ensures (r + 1) * bpr <= |m.blocks| && (b + 1) * bpr <= |xs|
  {
    RowFits(r, rows, bpr, |m.blocks|);
    RowFits(b, batch, bpr, |xs|);
  }

  /** Output `(b, r)` has been written. */
  ghost predicate Done(o: Ops, y: seq<Float>, m: Mat, xs: seq<Act>, rows: nat, bpr: nat, batch: nat, b: nat, r: nat)
    requires BatchShape(m, xs, rows, bpr, batch) && |y| >= batch * rows && b < batch && r < rows
  {
    AtBound(b, r, rows, batch);
    CellFits(m, xs, rows, bpr, batch, b, r);
    y[At(b, r, rows)] == Cell(o, m, xs, bpr, b, r)
  }

  ghost predicate RowDone(o: Ops, y: seq<Float>, m: Mat, xs: seq<Act>, rows: nat, bpr: nat, batch: nat, r: nat)
    requires BatchShape(m, xs, rows, bpr, batch) && |y| >= batch * rows && r < rows
  {
    forall b | 0 <= b < batch :: Done(o, y, m, xs, rows, bpr, batch, b, r)
  }

  lemma CellIsDot(o: Ops, m: Mat, xs: seq<Act>, bpr: nat, b: nat, r: nat)
    requires (r + 1) * bpr <= |m.blocks| && (b + 1) * bpr <= |xs|
    ensures Cell(o, m, xs, bpr, b, r) == Dot(o, m.dtype, Row(m.blocks, r, bpr), Row(xs, b, bpr))
  {
  }

  /** Work on other cells keeps finished cells and everything past the end. */
  ghost predicate Keeps(o: Ops, y: seq<Float>, y': seq<Float>, m: Mat, xs: seq<Act>, rows: nat, bpr: nat, batch: nat)
    requires BatchShape(m, xs, rows, bpr, batch) && |y| == |y'| >= batch * rows
  {
    && (forall c, s | 0 <= c < batch && 0 <= s < rows && Done(o, y, m, xs, rows, bpr, batch, c, s) ::
          Done(o, y', m, xs, rows, bpr, batch, c, s))
    && (forall i: nat | batch * rows <= i < |y| :: y'[i] == y[i])
  }

  lemma KeepsRows(o: Ops, y: seq<Float>, y': seq<Float>, m: Mat, xs: seq<Act>, rows: nat, bpr: nat, batch: nat)
    requires BatchShape(m, xs, rows, bpr, batch) && |y| == |y'| >= batch * rows && Keeps(o, y, y', m, xs, rows, bpr, batch)
    ensures forall r | 0 <= r < rows && RowDone(o, y, m, xs, rows, bpr, batch, r) ::
      RowDone(o, y', m, xs, rows, bpr, batch, r)
  {
  }

  /** All outputs of weight row `r`: tiles of four, then the rest one by one. */
  method MatmulRow(o: Ops, y: array<Float>, m: Mat, xs: seq<Act>, rows: nat, bpr: nat, batch: nat, r: nat, fast: bool)
    requires BatchShape(m, xs, rows, bpr, batch) && y.Length >= batch * rows && r < rows
    modifies y
    ensures forall b | 0 <= b < batch :: Done(o, y[..], m, xs, rows, bpr, batch, b, r)
    ensures Keeps(o, old(y[..]), y[..], m, xs, rows, bpr, batch)
  {
    hide Done, Cell, Row, Dot, RowDot, BatchShape;
    RowInMatrix(m, xs, rows, bpr, batch, r);
    var row := Row(m.blocks, r, bpr);
    var b := 0;
    while fast && b + 4 <= batch
      invariant 0 <= b <= batch
      invariant forall c | 0 <= c < b :: Done(o, y[..], m, xs, rows, bpr, batch, c, r)
      invariant Keeps(o, old(y[..]), y[..], m, xs, rows, bpr, batch)
    {
      CellFits(m, xs, rows, bpr, batch, b, r);
      CellFits(m, xs, rows, bpr, batch, b + 1, r);
      CellFits(m, xs, rows, bpr, batch, b + 2, r);
      CellFits(m, xs, rows, bpr, batch, b + 3, r);
      var vs := DotX4(o, m.dtype, row, [Row(xs, b, bpr), Row(xs, b + 1, bpr), Row(xs, b + 2, bpr), Row(xs, b + 3, bpr)]);
      var i := 0;
      while i < 4
        invariant 0 <= i <= 4
        invariant forall c | 0 <= c < b + i :: Done(o, y[..], m, xs, rows, bpr, batch, c, r)
        invariant Keeps(o, old(y[..]), y[..], m, xs, rows, bpr, batch)
      {
        CellFits(m, xs, rows, bpr, batch, b + i, r);
        CellIsDot(o, m, xs, bpr, b + i, r);
        WriteCell(o, y, m, xs, rows, bpr, batch, b + i, r, vs[i]);
        i := i + 1;
      }
      b := b + 4;
    }
    while b < batch
      invariant 0 <= b <= batch
      invariant forall c | 0 <= c < b :: Done(o, y[..], m, xs, rows, bpr, batch, c, r)
      invariant Keeps(o, old(y[..]), y[..], m, xs, rows, bpr, batch)
    {
      CellFits(m, xs, rows, bpr, batch, b, r);
      CellIsDot(o, m, xs, bpr, b, r);
      var v := DotOne(o, m.dtype, row, Row(xs, b, bpr));
      WriteCell(o, y, m, xs, rows, bpr, batch, b, r, v);
      b := b + 1;
    }
  }

  lemma RowInMatrix(m: Mat, xs: seq<Act>, rows: nat, bpr: nat, batch: nat, r: nat)
    requires BatchShape(m, xs, rows, bpr, batch) && r < rows
    ensures (r + 1) * bpr <= |m.blocks|
  {
    RowFits(r, rows, bpr, |m.blocks|);
  }

  /** One store through the shared output pointer. */
  method WriteCell(o: Ops, y: array<Float>, m: Mat, xs: seq<Act>, rows: nat, bpr: nat, batch: nat, b: nat, r: nat, v: Float)
    requires BatchShape(m, xs, rows, bpr, batch) && y.Length >= batch * rows && b < batch && r < rows
    requires (r + 1) * bpr <= |m.blocks| && (b + 1) * bpr <= |xs| && v == Cell(o, m, xs, bpr, b, r)
    modifies y
    ensures Done(o, y[..], m, xs, rows, bpr, batch, b, r)
    ensures Keeps(o, old(y[..]), y[..], m, xs, rows, bpr, batch)
  {
    hide Done, Keeps, Cell, BatchShape;
    AtBound(b, r, rows, batch);
    y[At(b, r, rows)] := v;
    StoreKeeps(o, old(y[..]), m, xs, rows, bpr, batch, b, r);
    assert y[..] == old(y[..])[At(b, r, rows) := v];
  }

  /** The job closure: rows `r0..r1`. */
  method MatmulRange(o: Ops, y: array<Float>, m: Mat, xs: seq<Act>, rows: nat, bpr: nat, batch: nat, r0: nat, r1: nat, fast: bool)
    requires BatchShape(m, xs, rows, bpr, batch) && y.Length >= batch * rows && r0 <= r1 <= rows
    modifies y
    ensures forall r | r0 <= r < r1 :: RowDone(o, y[..], m, xs, rows, bpr, batch, r)
    ensures Keeps(o, old(y[..]), y[..], m, xs, rows, bpr, batch)
  {
    hide Done, BatchShape;
    var r := r0;
    while r < r1
      invariant r0 <= r <= r1
      invariant forall s | r0 <= s < r :: RowDone(o, y[..], m, xs, rows, bpr, batch, s)
      invariant Keeps(o, old(y[..]), y[..], m, xs, rows, bpr, batch)
    {
      ghost var before := y[..];
      MatmulRow(o, y, m, xs, rows, bpr, batch, r, fast);
      KeepsRows(o, before, y[..], m, xs, rows, bpr, batch);
      r := r + 1;
    }
  }

  predicate InRange(range: (nat, nat), r: nat) {
    range.0 <= r < range.1
  }

  predicate InSome(ranges: seq<(nat, nat)>, r: nat) {
    exists i :: 0 <= i < |ranges| && InRange(ranges[i], r)
  }

  /** A division of the rows among the pool's threads: every row is in some
      range (each in exactly one, see `Pool.ExactlyOnce`). */
  ghost predicate Covers(ranges: seq<(nat, nat)>, rows: nat) {
    && (forall i | 0 <= i < |ranges| :: ranges[i].0 <= ranges[i].1 <= rows)
    && (forall r | 0 <= r < rows :: InSome(ranges, r))
  }

  /** The batched product, its rows executed in whatever ranges the pool hands
      out. Nothing past `batch * rows` changes. */
  method Matmul(o: Ops, y: array<Float>, m: Mat, xs: seq<Act>, rows: nat, bpr: nat, batch: nat, ranges: seq<(nat, nat)>, fast: bool)
    requires BatchShape(m, xs, rows, bpr, batch) && y.Length >= batch * rows && Covers(ranges, rows)
    modifies y
    ensures forall r | 0 <= r < rows :: RowDone(o, y[..], m, xs, rows, bpr, batch, r)
    ensures forall i | batch * rows <= i < y.Length :: y[i] == old(y[i])
  {
    hide Done, BatchShape;
    var k := 0;
    while k < |ranges|
      invariant 0 <= k <= |ranges|
      invariant forall j, r | 0 <= j < k && 0 <= r < rows && InRange(ranges[j], r) :: RowDone(o, y[..], m, xs, rows, bpr, batch, r)
      invariant forall i | batch * rows <= i < y.Length :: y[i] == old(y[i])
    {
      ghost var before := y[..];
      MatmulRange(o, y, m, xs, rows, bpr, batch, ranges[k].0, ranges[k].1, fast);
      KeepsRows(o, before, y[..], m, xs, rows, bpr, batch);
      k := k + 1;
    }
    forall r | 0 <= r < rows ensures RowDone(o, y[..], m, xs, rows, bpr, batch, r) {
      assert InSome(ranges, r);
    }
  }

  // ---- Any interleaving of the threads' stores ----------------------------------------------

  ghost predicate InGrid(cells: seq<(nat, nat)>, rows: nat, batch: nat) {
    forall k | 0 <= k < |cells| :: cells[k].0 < batch && cells[k].1 < rows
  }

  /** The output after the cells `(b, r)` have been stored in this order, by
      whichever threads. Each cell is computed from operands nobody writes. */
  function Stored(o: Ops, y: seq<Float>, m: Mat, xs: seq<Act>, rows: nat, bpr: nat, batch: nat, cells: seq<(nat, nat)>): (y': seq<Float>)
    requires BatchShape(m, xs, rows, bpr, batch) && |y| >= batch * rows && InGrid(cells, rows, batch)
    ensures |y'| == |y|
  {
    if cells == [] then y
    else
      var n := |cells| - 1;
      var (b, r) := cells[n];
      AtBound(b, r, rows, batch);
      CellFits(m, xs, rows, bpr, batch, b, r);
      Stored(o, y, m, xs, rows, bpr, batch, cells[..n])[At(b, r, rows) := Cell(o, m, xs, bpr, b, r)]
  }

  /** One store, as `WriteCell` makes it. */
  lemma StoreKeeps(o: Ops, y: seq<Float>, m: Mat, xs: seq<Act>, rows: nat, bpr: nat, batch: nat, b: nat, r: nat)
    requires BatchShape(m, xs, rows, bpr, batch) && |y| >= batch * rows && b < batch && r < rows
    requires At(b, r, rows) < |y| && (r + 1) * bpr <= |m.blocks| && (b + 1) * bpr <= |xs|
    ensures var y' := y[At(b, r, rows) := Cell(o, m, xs, bpr, b, r)];
      Done(o, y', m, xs, rows, bpr, batch, b, r) && Keeps(o, y, y', m, xs, rows, bpr, batch)
  {
    hide Cell, BatchShape;
    AtBound(b, r, rows, batch);
    var y' := y[At(b, r, rows) := Cell(o, m, xs, bpr, b, r)];
    forall c, s | 0 <= c < batch && 0 <= s < rows && Done(o, y, m, xs, rows, bpr, batch, c, s)
      ensures Done(o, y', m, xs, rows, bpr, batch, c, s)
    {
      AtBound(c, s, rows, batch);
      if At(c, s, rows) == At(b, r, rows) {
        AtInjective(c, s, b, r, rows);
      }
    }
  }

  lemma {:induction false} StoredCells(o: Ops, y: seq<Float>, m: Mat, xs: seq<Act>, rows: nat, bpr: nat, batch: nat, cells: seq<(nat, nat)>)
    requires BatchShape(m, xs, rows, bpr, batch) && |y| >= batch * rows && InGrid(cells, rows, batch)
    ensures var y' := Stored(o, y, m, xs, rows, bpr, batch, cells);
      && (forall k | 0 <= k < |cells| :: Done(o, y', m, xs, rows, bpr, batch, cells[k].0, cells[k].1))
      && (forall i: nat | batch * rows <= i < |y| :: y'[i] == y[i])
    decreases |cells|
  {
    hide Done, Cell, BatchShape;
    if cells != [] {
      var n := |cells| - 1;
      var (b, r) := cells[n];
      StoredCells(o, y, m, xs, rows, bpr, batch, cells[..n]);
      AtBound(b, r, rows, batch);
      CellFits(m, xs, rows, bpr, batch, b, r);
      var before, after := Stored(o, y, m, xs, rows, bpr, batch, cells[..n]), Stored(o, y, m, xs, rows, bpr, batch, cells);
      StoreKeeps(o, before, m, xs, rows, bpr, batch, b, r);
      forall k | 0 <= k < |cells| ensures Done(o, after, m, xs, rows, bpr, batch, cells[k].0, cells[k].1) {
        if k < n {
          var c := cells[..n][k];
          assert Done(o, before, m, xs, rows, bpr, batch, c.0, c.1);
        }
      }
    }
  }

  /** However the threads' stores interleave, and even if some are repeated, the
      output is the one that `Matmul` leaves: once every cell has been stored,
      every cell is done and nothing past the product has changed. */
  lemma AnyInterleaving(o: Ops, y: seq<Float>, m: Mat, xs: seq<Act>, rows: nat, bpr: nat, batch: nat, cells: seq<(nat, nat)>)
    requires BatchShape(m, xs, rows, bpr, batch) && |y| >= batch * rows && InGrid(cells, rows, batch)
    requires forall b: nat, r: nat | b < batch && r < rows :: (b, r) in cells
    ensures var y' := Stored(o, y, m, xs, rows, bpr, batch, cells);
      && (forall r: nat | r < rows :: RowDone(o, y', m, xs, rows, bpr, batch, r))
      && (forall i: nat | batch * rows <= i < |y| :: y'[i] == y[i])
  {
    hide Done, BatchShape;
    StoredCells(o, y, m, xs, rows, bpr, batch, cells);
    var y' := Stored(o, y, m, xs, rows, bpr, batch, cells);
    forall r: nat, b: nat | r < rows && b < batch ensures Done(o, y', m, xs, rows, bpr, batch, b, r) {
      assert (b, r) in cells;
    }
  }

  /** Two finished outputs over the same buffer are equal. */
  lemma DoneDetermines(o: Ops, y: seq<Float>, z: seq<Float>, m: Mat, xs: seq<Act>, rows: nat, bpr: nat, batch: nat)
    requires BatchShape(m, xs, rows, bpr, batch) && |y| == |z| >= batch * rows
    requires forall r: nat | r < rows :: RowDone(o, y, m, xs, rows, bpr, batch, r) && RowDone(o, z, m, xs, rows, bpr, batch, r)
    requires forall i: nat | batch * rows <= i < |y| :: y[i] == z[i]
    ensures y == z
  {
    hide Cell, BatchShape;
    forall i: nat | i < batch * rows ensures y[i] == z[i] {
      var b, r := CellOf(i, rows, batch);
      assert RowDone(o, y, m, xs, rows, bpr, batch, r) && RowDone(o, z, m, xs, rows, bpr, batch, r);
      assert Done(o, y, m, xs, rows, bpr, batch, b, r) && Done(o, z, m, xs, rows, bpr, batch, b, r);
    }
  }

  lemma CellOf(i: nat, rows: nat, batch: nat) returns (b: nat, r: nat)
    requires i < batch * rows
    ensures b < batch && r < rows && i == At(b, r, rows)
  {
    if rows == 0 {
      MulNat(batch, rows);
      assert false;
    }
    b, r := i / rows, i % rows;
    if b >= batch {
      MulMono(batch, b, rows);
    }
  }

  /** In terms of whole vectors: row `b` of the output is the product of `m`
      with the vector that row `b` of `xs` quantizes. */
  lemma RowsAreProducts(o: Ops, y: seq<Float>, m: Mat, xs: seq<Act>, rows: nat, bpr: nat, batch: nat, b: nat, x: seq<Float>)
    requires BatchShape(m, xs, rows, bpr, batch) && |y| >= batch * rows && b < batch
    requires forall r | 0 <= r < rows :: RowDone(o, y, m, xs, rows, bpr, batch, r)
    requires Shaped(m, rows, |x|) && bpr == |x| / BlockSize(m.dtype)
    requires (b + 1) * bpr <= |xs| && Row(xs, b, bpr) == Quantized(o, FormatOf(m.dtype), x)
    ensures (b + 1) * rows <= |y|
    ensures Row(y, b, rows) == MatVec(o, m, rows, x)
  {
    RowFits(b, batch, rows, |y|);
    var out := Row(y, b, rows);
    forall r | 0 <= r < rows ensures out[r] == MatVec(o, m, rows, x)[r] {
      assert RowDone(o, y, m, xs, rows, bpr, batch, r) && Done(o, y, m, xs, rows, bpr, batch, b, r);
      AtBound(b, r, rows, batch);
      assert out[r] == y[At(b, r, rows)];
    }
  }

  /** Entry `r` of the product, for any `r`. */
  function Entry(o: Ops, m: Mat, r: nat, x: seq<Act>): Float {
    if (r + 1) * |x| <= |m.blocks| then RowDot(o, m, r, x) else o.zero
  }

  method EntryOf(o: Ops, m: Mat, r: nat, x: seq<Act>) returns (v: Float)
    requires (r + 1) * |x| <= |m.blocks|
    ensures v == Entry(o, m, r, x)
  {
    v := DotOne(o, m.dtype, Row(m.blocks, r, |x|), x);
  }

  /** The same for the unbatched product: any stores, in any order, of the right
      entries, covering all of them. */
  lemma AnyStores(o: Ops, y: seq<Float>, m: Mat, xs: seq<Act>, rows: nat, order: seq<nat>)
    requires rows * |xs| <= |m.blocks| && |y| == rows && forall k | 0 <= k < |order| :: order[k] < rows
    requires forall r: nat | r < rows :: r in order
    ensures EntriesStored(o, y, m, xs, order) == seq(rows, r requires 0 <= r < rows => Entry(o, m, r, xs))
  {
    hide Entry;
    StoredEntries(o, y, m, xs, order);
  }

  function EntriesStored(o: Ops, y: seq<Float>, m: Mat, xs: seq<Act>, order: seq<nat>): (y': seq<Float>)
    requires forall k | 0 <= k < |order| :: order[k] < |y|
    ensures |y'| == |y|
  {
    if order == [] then y
    else
      var n := |order| - 1;
      EntriesStored(o, y, m, xs, order[..n])[order[n] := Entry(o, m, order[n], xs)]
  }

  lemma {:induction false} StoredEntries(o: Ops, y: seq<Float>, m: Mat, xs: seq<Act>, order: seq<nat>)
    requires forall k | 0 <= k < |order| :: order[k] < |y|
    ensures forall r | r in order :: EntriesStored(o, y, m, xs, order)[r] == Entry(o, m, r, xs)
    decreases |order|
  {
    hide Entry;
    if order != [] {
      var n := |order| - 1;
      StoredEntries(o, y, m, xs, order[..n]);
      assert order == order[..n] + [order[n]];
    }
  }

  /** The unbatched product with an already quantized vector. */
  method Matvec(o: Ops, y: array<Float>, m: Mat, xs: seq<Act>, rows: nat, ranges: seq<(nat, nat)>)
    requires rows * |xs| <= |m.blocks| && y.Length == rows && Covers(ranges, rows)
    modifies y
    ensures forall r | 0 <= r < rows :: y[r] == Entry(o, m, r, xs)
  {
    hide Entry;
    var k := 0;
    while k < |ranges|
      invariant 0 <= k <= |ranges|
      invariant forall j, r | 0 <= j < k && 0 <= r < rows && InRange(ranges[j], r) :: y[r] == Entry(o, m, r, xs)
    {
      var r := ranges[k].0;
      while r < ranges[k].1
        invariant ranges[k].0 <= r <= ranges[k].1
        invariant forall j, s | 0 <= j < k && 0 <= s < rows && InRange(ranges[j], s) :: y[s] == Entry(o, m, s, xs)
        invariant forall s | ranges[k].0 <= s < r :: y[s] == Entry(o, m, s, xs)
      {
        RowFits(r, rows, |xs|, |m.blocks|);
        var v := EntryOf(o, m, r, xs);
        y[r] := v;
        r := r + 1;
      }
      k := k + 1;
    }
    forall r | 0 <= r < rows ensures y[r] == Entry(o, m, r, xs) {
      assert InSome(ranges, r);
    }
  }

  lemma VecIsProduct(o: Ops, y: seq<Float>, m: Mat, rows: nat, x: seq<Float>)
    requires Shaped(m, rows, |x|) && |y| == rows
    requires forall r | 0 <= r < rows :: y[r] == Entry(o, m, r, Quantized(o, FormatOf(m.dtype), x))
    ensures y == MatVec(o, m, rows, x)
  {
    var a := Quantized(o, FormatOf(m.dtype), x);
    forall r | 0 <= r < rows ensures y[r] == MatVec(o, m, rows, x)[r] {
      RowFits(r, rows, |a|, |m.blocks|);
    }
  }
}
