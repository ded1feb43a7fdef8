/** Batched prefill is decode exactly when the key heads divide the query heads;
    otherwise a head reads past its cache row. */
module Overlap {
  // For every pair of head counts that does not divide: a model and a prompt of
  // two tokens on which the two runs end with different logits.

  import opened Numbers
  import opened Kernels
  import opened Activations
  import opened RowOps
  import opened Forward
  import opened FlatForward
  import opened Wrappers

  // ---- The arithmetic of the model ------------------------------------------------------------

  /** Fixed point in halves: `Float(2)` is one. All scores are equal, so softmax gives
      equal shares; norms and rotations are the identity; a product adds up the first
      values of its blocks. This is arithmetic the theorems admit, not f32. */
  function Keep(x: seq<Float>, i: nat): Float { if i < |x| then x[i] else Float(0) }
  function RmsKept(x: seq<Float>, w: seq<Float>, i: nat): Float { Keep(x, i) }
  function NormKept(x: seq<Float>, w: seq<Float>, hd: nat, i: nat): Float { Keep(x, i) }
  function RopeKept(x: seq<Float>, hd: nat, pos: nat, i: nat): Float { Keep(x, i) }
  function HalfKept(x: Float): Half { Half(x.bits) }
  function ScoreNone(k: seq<Half>, q: seq<Float>): Float { Float(0) }
  function Share(n: nat): int { if n == 0 then 0 else 2 / n }
  function SoftmaxEven(s: seq<Float>, i: nat): Float { Float(Share(|s|)) }
  function AxpyFixed(a: seq<Float>, p: Float, v: seq<Half>, i: nat): Float {
    Float(Keep(a, i).bits + if i < |v| then Scaled(p.bits, v[i].bits) else 0)
  }
  function Scaled(p: int, v: int): int { p * v / 2 }
  function SumFixed(y: Float, x: Float): Float { Float(y.bits + x.bits) }
  function GateKept(g: Float, u: Float): Float { g }
  function DequantTwo(t: Dtype, b: Block, i: nat): Float { Float(4) }
  function ScaleKept(x: Float): Float { x }
  function QuantizeFirst(f: Format, x: seq<Float>): Act { Act([Keep(x, 0).bits]) }
  function AccNone(t: Dtype): Acc { Acc([0]) }
  function Head(s: seq<int>): int { if s == [] then 0 else s[0] }
  function AccNext(t: Dtype, a: Acc, b: Block, x: Act): Acc { Acc([Head(a.lanes) + Head(x.data)]) }
  function AccEnd(t: Dtype, a: Acc): Float { Float(Head(a.lanes)) }

  const OPS: Ops := Ops(RmsKept, NormKept, RopeKept, HalfKept, ScoreNone, SoftmaxEven, Float(0), AxpyFixed, SumFixed, GateKept,
                        DequantTwo, ScaleKept, ScaleKept, QuantizeFirst, AccNone, AccNext, AccEnd)

  // ---- The model ----------------------------------------------------------------------------------

  function Mats(rows: nat, blocks: nat): (m: Mat)
    ensures |m.blocks| == rows * blocks
  {
    MulNat(rows, blocks);
    Mat(Q8, seq(rows * blocks, _ => Block([])))
  }

  /** Two layers of `nh` query heads over `nk` key heads of width 32; no gated part;
      three positions. */
  function DimsOf(nh: nat, nk: nat): Dims {
    Dims(32, 2, nh, nk, 32, 0, 1, 3)
  }

  function LayerOfHeads(nh: nat, nk: nat): Layer {
    Layer([], None, Mats(nh * 32, 1), Mats(nk * 32, 1), Mats(nk * 32, 1), Mats(32, nh), [], Mats(0, 1), Mats(0, 1), Mats(32, 0))
  }

  function ModelOf(nh: nat, nk: nat): Config {
    Config(OPS, DimsOf(nh, nk), Mats(1, 1), [LayerOfHeads(nh, nk), LayerOfHeads(nh, nk)], [], Mats(1, 1))
  }

  lemma ModelShapes(nh: nat, nk: nat)
    requires 0 < nk <= nh
    ensures var c := ModelOf(nh, nk); Shapes(c) && c.d.AttDim() == nh * 32 && c.d.KvDim() == nk * 32
  {
    assert (nh * 32) / 32 == nh && (nh * 32) % 32 == 0;
  }

  function Same(n: nat, v: int): (x: Vector)
    ensures |x| == n
  {
    seq(n, _ => Float(v))
  }

  function SameHalf(n: nat, v: int): (x: CacheRow)
    ensures |x| == n
  {
    seq(n, _ => Half(v))
  }

  // ---- Its routines on vectors that repeat one number --------------------------------------------

  /** The first values of the blocks of 32, added up. */
  function BlockSum(x: Vector, n: nat): int
    requires 32 * n <= |x|
  {
    if n == 0 then 0 else BlockSum(x, n - 1) + x[32 * (n - 1)].bits
  }

  lemma {:induction false} DotBlocks(w: seq<Block>, a: seq<Act>, x: Vector, n: nat)
    requires n <= |w| == |a| && 32 * |w| == |x|
    requires forall k | 0 <= k < |a| :: a[k] == Act([x[32 * k].bits])
    ensures DotAcc(OPS, Q8, w, a, n) == Acc([BlockSum(x, n)])
    decreases n
  {
    if n > 0 {
      DotBlocks(w, a, x, n - 1);
    }
  }

  lemma ProductIs(rows: nat, blocks: nat, x: Vector)
    requires |x| == 32 * blocks
    ensures Shaped(Mats(rows, blocks), rows, |x|)
    ensures MatVec(OPS, Mats(rows, blocks), rows, x) == Same(rows, BlockSum(x, blocks))
  {
    var m := Mats(rows, blocks);
    var a := Quantized(OPS, ActQ8, x);
    forall k | 0 <= k < blocks ensures a[k] == Act([x[32 * k].bits]) {
      BlockEnd(k, |x|, 32);
    }
    forall r | 0 <= r < rows ensures MatVec(OPS, m, rows, x)[r] == Float(BlockSum(x, blocks)) {
      RowFits(r, rows, blocks, |m.blocks|);
      DotBlocks(Row(m.blocks, r, blocks), a, x, blocks);
    }
  }

  lemma RmsKeeps(x: Vector, w: Vector)
    ensures Rms(OPS, x, w) == x
  {
    forall i | 0 <= i < |x| ensures Rms(OPS, x, w)[i] == x[i] {
      assert Rms(OPS, x, w)[i] == OPS.rms(x, w, i) == RmsKept(x, w, i);
    }
  }

  lemma RopeKeeps(x: Vector, hd: nat, pos: nat)
    ensures Rope(OPS, x, hd, pos) == x
  {
    forall i | 0 <= i < |x| ensures Rope(OPS, x, hd, pos)[i] == x[i] {
      assert Rope(OPS, x, hd, pos)[i] == OPS.rope(x, hd, pos, i) == RopeKept(x, hd, pos, i);
    }
  }

  lemma HalfKeeps(n: nat, v: int)
    ensures ToHalf(OPS, Same(n, v)) == SameHalf(n, v)
  {
    forall i | 0 <= i < n ensures ToHalf(OPS, Same(n, v))[i] == Half(v) {
    }
  }

  lemma SumKeeps(n: nat, x: int, y: int)
    ensures Residual(OPS, Same(n, x), Same(n, y)) == Same(n, x + y)
  {
    forall i | 0 <= i < n ensures Residual(OPS, Same(n, x), Same(n, y))[i] == Float(x + y) {
      assert Residual(OPS, Same(n, x), Same(n, y))[i] == OPS.residual(Float(x), Float(y)) == SumFixed(Float(x), Float(y));
    }
  }

  lemma AxpyKeeps(x: int, p: int, y: int)
    ensures Axpy(OPS, Same(32, x), Float(p), SameHalf(32, y)) == Same(32, x + Scaled(p, y))
  {
    var a, v := Same(32, x), SameHalf(32, y);
    forall i | 0 <= i < 32 ensures Axpy(OPS, a, Float(p), v)[i] == Float(x + Scaled(p, y)) {
      assert Axpy(OPS, a, Float(p), v)[i] == OPS.axpy(a, Float(p), v, i) == AxpyFixed(a, Float(p), v, i);
    }
  }

  lemma OneBlock(v: int)
    ensures BlockSum(Same(32, v), 1) == v
  {
    assert BlockSum(Same(32, v), 0) == 0;
  }

  lemma SoftmaxKeeps(s: Vector)
    ensures Softmax(OPS, s) == Same(|s|, Share(|s|))
  {
    forall i | 0 <= i < |s| ensures Softmax(OPS, s)[i] == Float(Share(|s|)) {
      assert Softmax(OPS, s)[i] == OPS.softmax(s, i) == SoftmaxEven(s, i);
    }
  }

  // ---- A cache whose rows each repeat one number --------------------------------------------------

  ghost predicate Repeats(flat: seq<Half>, width: nat, rows: seq<int>) {
    && |flat| == |rows| * width
    && forall r: nat | r < |rows| :: RowIs(flat, r, width, SameHalf(width, rows[r]))
  }

  lemma StoreRepeats(flat: seq<Half>, width: nat, rows: seq<int>, r: nat, v: int)
    requires Repeats(flat, width, rows) && r < |rows|
    ensures Repeats(WithRow(flat, RowStart(r, width), SameHalf(width, v)), width, rows[r := v])
  {
    hide RowIs, SameHalf;
    RowFits(r, |rows|, width, |flat|);
    var row := SameHalf(width, v);
    var flat' := WithRow(flat, RowStart(r, width), row);
    SpliceOnly(flat, r, width, row);
    var rows' := rows[r := v];
    forall k: nat | k < |rows'| ensures RowIs(flat', k, width, SameHalf(width, rows'[k])) {
      if k != r {
        OtherRow(flat, flat', r, width, k, SameHalf(width, rows[k]));
      }
    }
  }

  lemma FreshRepeats(width: nat)
    ensures Repeats(seq(6 * width, _ => Half(0)), width, [0, 0, 0, 0, 0, 0])
  {
    var flat: seq<Half> := seq(6 * width, _ => Half(0));
    forall r: nat | r < 6 ensures RowIs(flat, r, width, SameHalf(width, 0)) {
      RowFits(r, 6, width, |flat|);
    }
  }

  /** A window of 32 inside row `r`. */
  lemma InsideRow(flat: seq<Half>, width: nat, rows: seq<int>, r: nat, off: nat)
    requires Repeats(flat, width, rows) && r < |rows| && off + 32 <= width
    ensures Window(flat, RowStart(r, width) + off, 32) == SameHalf(32, rows[r])
  {
    hide Row, RowStart;
    RowFits(r, |rows|, width, |flat|);
    assert RowIs(flat, r, width, SameHalf(width, rows[r]));
    RowIsSlice(flat, r, width);
    SliceOfSlice(flat, RowStart(r, width), width, off, 32);
    assert SameHalf(width, rows[r])[off..off + 32] == SameHalf(32, rows[r]);
  }

  /** The window of key head number `q`, which may not exist: it then lies in the
      next row. */
  lemma WindowRepeats(flat: seq<Half>, nk: nat, rows: seq<int>, r: nat, q: nat)
    requires Repeats(flat, nk * 32, rows) && q < 2 * nk && r + Past(q, nk) < |rows|
    ensures Window(flat, RowStart(r, nk * 32) + q * 32, 32) == SameHalf(32, rows[r + Past(q, nk)])
  {
    if q < nk {
      InsideRow(flat, nk * 32, rows, r, q * 32);
    } else {
      InsideRow(flat, nk * 32, rows, r + 1, (q - nk) * 32);
      MulStep(r, nk * 32);
    }
  }

  function Past(q: nat, nk: nat): nat {
    if q >= nk then 1 else 0
  }

  // ---- Which heads read past their row ----------------------------------------------------------------

  /** 1 for a head that reads the next row. */
  function Over(nh: nat, nk: nat, h: nat): (o: nat)
    requires 0 < nk <= nh
    ensures o <= 1
  {
    GroupPositive(DimsOf(nh, nk));
    Past(h / (nh / nk), nk)
  }

  /** How many of the first `n` heads do. */
  function Overs(nh: nat, nk: nat, n: nat): (b: nat)
    requires 0 < nk <= nh
    ensures b <= n
  {
    if n == 0 then 0 else Overs(nh, nk, n - 1) + Over(nh, nk, n - 1)
  }

  lemma QuotientBound(nh: nat, nk: nat, h: nat)
    requires 0 < nk <= nh && h < nh
    ensures nh / nk > 0 && h / (nh / nk) < 2 * nk
  {
    GroupPositive(DimsOf(nh, nk));
    var g, m := nh / nk, nh % nk;
    assert nh == g * nk + m;
    var q := h / g;
    assert q * g <= h by { assert h == q * g + h % g; }
    if q >= 2 * nk {
      MulMono(2 * nk, q, g);
      MulMono(1, g, nk);
      TwiceProduct(g, nk);
    }
  }

  lemma TwiceProduct(g: nat, k: nat)
    ensures (2 * k) * g == 2 * (g * k)
  {
  }

  lemma {:induction false} OversGrow(nh: nat, nk: nat, m: nat, n: nat)
    requires 0 < nk <= nh && m <= n
    ensures Overs(nh, nk, m) <= Overs(nh, nk, n) && Overs(nh, nk, n) - Overs(nh, nk, m) <= n - m
    decreases n
  {
    hide Over;
    if m < n {
      OversGrow(nh, nk, m, n - 1);
    }
  }

  /** If the key heads do not divide the query heads, some heads do and some do not. */
  lemma OversBetween(nh: nat, nk: nat)
    requires 0 < nk <= nh && nh % nk != 0
    ensures 0 < Overs(nh, nk, nh) < nh
  {
    GroupPositive(DimsOf(nh, nk));
    var g := nh / nk;
    assert nh == g * nk + nh % nk;
    MulNat(g, nk);
    var h := g * nk;
    MultipleOf(g, nk);
    assert Over(nh, nk, h) == 1 && Over(nh, nk, 0) == 0;
    OversGrow(nh, nk, h + 1, nh);
    OversGrow(nh, nk, 1, nh);
    assert Overs(nh, nk, 1) == Overs(nh, nk, 0) + Over(nh, nk, 0);
  }

  // ---- One layer of the model ----------------------------------------------------------------------------

  /** Shares `p` of the first `n` rows of layer `l`, one row further on if `o` is 1. */
  function Mixed(rows: seq<int>, l: nat, n: nat, o: nat, p: int): int
    requires n > 0 ==> 3 * l + n - 1 + o < |rows|
  {
    if n == 0 then 0 else Mixed(rows, l, n - 1, o, p) + Scaled(p, rows[3 * l + n - 1 + o])
  }

  lemma {:induction false} MixIs(nh: nat, nk: nat, v: seq<Half>, rows: seq<int>, len: nat, p: int, l: nat, n: nat, h: nat)
    requires 0 < nk <= nh && h < nh && n <= len && Repeats(v, nk * 32, rows)
    requires n > 0 ==> 3 * l + n < |rows|
    ensures FlatMix(ModelOf(nh, nk), Same(len, p), v, l, n, h) == Same(32, Mixed(rows, l, n, Over(nh, nk, h), p))
    decreases n
  {
    hide Repeats, Axpy, Window, LayerOfHeads, RowStart, Scaled;
    if n > 0 {
      MixIs(nh, nk, v, rows, len, p, l, n - 1, h);
      QuotientBound(nh, nk, h);
      var q := h / (nh / nk);
      WindowRepeats(v, nk, rows, 3 * l + n - 1, q);
      AxpyKeeps(Mixed(rows, l, n - 1, Over(nh, nk, h), p), p, rows[3 * l + n - 1 + Over(nh, nk, h)]);
    }
  }

  lemma HeadIs(nh: nat, nk: nat, q: Vector, kv: FlatCache, rows: seq<int>, l: nat, pos: nat, h: nat)
    requires 0 < nk <= nh && h < nh && |q| == nh * 32 && Repeats(kv.v, nk * 32, rows) && 3 * l + pos + 1 < |rows|
    ensures (h + 1) * 32 <= |q|
    ensures FlatHead(ModelOf(nh, nk), q, kv, l, pos, h) == Same(32, Mixed(rows, l, pos + 1, Over(nh, nk, h), Share(pos + 1)))
  {
    hide Repeats, FlatMix, FlatScores, Softmax, Mixed, LayerOfHeads, Over;
    SoftmaxKeeps(FlatScores(ModelOf(nh, nk), q, kv.k, l, pos + 1, h));
    MixIs(nh, nk, kv.v, rows, pos + 1, Share(pos + 1), l, pos + 1, h);
  }

  lemma {:induction false} BlockSumPrefix(a: Vector, b: Vector, n: nat)
    requires 32 * n <= |a|
    ensures BlockSum(a + b, n) == BlockSum(a, n)
    decreases n
  {
    if n > 0 {
      BlockSumPrefix(a, b, n - 1);
    }
  }

  lemma BlockSumNext(a: Vector, n: nat, v: int)
    requires |a| == 32 * n
    ensures BlockSum(a + Same(32, v), n + 1) == BlockSum(a, n) + v
  {
    BlockSumPrefix(a, Same(32, v), n);
  }

  /** The heads that stay in their row, and those that do not. */
  lemma {:induction false} HeadsIs(nh: nat, nk: nat, q: Vector, kv: FlatCache, rows: seq<int>, l: nat, pos: nat, n: nat)
    requires 0 < nk <= nh && n <= nh && |q| == nh * 32 && Repeats(kv.v, nk * 32, rows) && 3 * l + pos + 1 < |rows|
    ensures var a, p := FlatHeads(ModelOf(nh, nk), q, kv, l, pos, n), Share(pos + 1);
      BlockSum(a, n) == (n - Overs(nh, nk, n)) * Mixed(rows, l, pos + 1, 0, p) + Overs(nh, nk, n) * Mixed(rows, l, pos + 1, 1, p)
    decreases n
  {
    hide Repeats, FlatHead, Mixed, LayerOfHeads, Over, BlockSum, Share;
    var m0, m1 := Mixed(rows, l, pos + 1, 0, Share(pos + 1)), Mixed(rows, l, pos + 1, 1, Share(pos + 1));
    if n == 0 {
      NoBlocks();
    } else {
      HeadsIs(nh, nk, q, kv, rows, l, pos, n - 1);
      HeadIs(nh, nk, q, kv, rows, l, pos, n - 1);
      var a := FlatHeads(ModelOf(nh, nk), q, kv, l, pos, n - 1);
      BlockSumNext(a, n - 1, Mixed(rows, l, pos + 1, Over(nh, nk, n - 1), Share(pos + 1)));
      OneMoreHead(n - 1 - Overs(nh, nk, n - 1), Overs(nh, nk, n - 1), m0, m1);
    }
  }

  lemma NoBlocks()
    ensures BlockSum([], 0) == 0
  {
  }

  lemma OneMoreHead(a: nat, b: nat, x: int, y: int)
    ensures (a + 1) * x + b * y == a * x + b * y + x && a * x + (b + 1) * y == a * x + b * y + y
  {
  }

  /** What all heads together add. */
  function Total(nh: nat, nk: nat, rows: seq<int>, l: nat, pos: nat): int
    requires 0 < nk <= nh && 3 * l + pos + 1 < |rows|
  {
    var b, p := Overs(nh, nk, nh), Share(pos + 1);
    (nh - b) * Mixed(rows, l, pos + 1, 0, p) + b * Mixed(rows, l, pos + 1, 1, p)
  }

  lemma MlpKeeps(nh: nat, nk: nat, x: int)
    requires 0 < nk <= nh
    ensures ValidLayer(DimsOf(nh, nk), LayerOfHeads(nh, nk))
    ensures AfterMlp(ModelOf(nh, nk), LayerOfHeads(nh, nk), Same(32, x)) == Same(32, x)
  {
    hide Mats, MatVec, Rms, Residual, ValidLayer;
    ModelLayers(nh, nk);
    RmsKeeps(Same(32, x), []);
    ProductIs(0, 1, Same(32, x));
    ProductIs(32, 0, []);
    SumKeeps(32, x, 0);
  }

  lemma ModelLayers(nh: nat, nk: nat)
    requires 0 < nk <= nh
    ensures ValidLayer(DimsOf(nh, nk), LayerOfHeads(nh, nk))
  {
    ModelShapes(nh, nk);
    assert ModelOf(nh, nk).layers[0] == LayerOfHeads(nh, nk);
  }

  lemma LayerIs(nh: nat, nk: nat, l: nat, kv: FlatCache, rows: seq<int>, x: int, pos: nat)
    requires 0 < nk <= nh && l < 2 && |rows| == 6 && 3 * l + pos + 1 < 6 && Repeats(kv.v, nk * 32, rows)
    ensures Shapes(ModelOf(nh, nk))
    ensures FlatLayer(ModelOf(nh, nk), l, kv, Same(32, x), pos) == Same(32, x + Total(nh, nk, rows, l, pos))
  {
    hide Mats, MatVec, Query, FlatHeads, Mixed, AfterMlp, Residual, Repeats, Overs;
    ModelShapes(nh, nk);
    ModelLayers(nh, nk);
    var c := ModelOf(nh, nk);
    var q := Query(c, LayerOfHeads(nh, nk), Same(32, x), pos);
    HeadsIs(nh, nk, q, kv, rows, l, pos, nh);
    var a := FlatHeads(c, q, kv, l, pos, nh);
    ProductIs(32, nh, a);
    SumKeeps(32, x, Total(nh, nk, rows, l, pos));
    MlpKeeps(nh, nk, x + Total(nh, nk, rows, l, pos));
  }

  lemma ValueIs(nh: nat, nk: nat, x: int)
    requires 0 < nk <= nh
    ensures ValidLayer(DimsOf(nh, nk), LayerOfHeads(nh, nk))
    ensures ToHalf(OPS, Value(ModelOf(nh, nk), LayerOfHeads(nh, nk), Same(32, x))) == SameHalf(nk * 32, x)
  {
    hide Mats, MatVec, Rms, ToHalf, ValidLayer;
    ModelLayers(nh, nk);
    RmsKeeps(Same(32, x), []);
    OneBlock(x);
    ProductIs(nk * 32, 1, Same(32, x));
    HalfKeeps(nk * 32, x);
  }

  lemma StoreIs(nh: nat, nk: nat, l: nat, kv: FlatCache, rows: seq<int>, x: int, pos: nat)
    requires 0 < nk <= nh && l < 2 && |rows| == 6 && pos < 3 && Repeats(kv.v, nk * 32, rows)
    ensures Shapes(ModelOf(nh, nk))
    ensures Repeats(FlatStore(ModelOf(nh, nk), l, kv, Same(32, x), pos).v, nk * 32, rows[3 * l + pos := x])
  {
    hide Repeats, WithRow, Key, Value, RowStart, LayerOfHeads;
    ModelShapes(nh, nk);
    ValueIs(nh, nk, x);
    StoreRepeats(kv.v, nk * 32, rows, 3 * l + pos, x);
  }

  // ---- The two runs ------------------------------------------------------------------------------------------

  lemma EmbedIs(nh: nat, nk: nat)
    requires 0 < nk <= nh
    ensures Shapes(ModelOf(nh, nk)) && Embed(ModelOf(nh, nk), 0) == Same(32, 4)
  {
    ModelShapes(nh, nk);
    var e := Embed(ModelOf(nh, nk), 0);
    forall i | 0 <= i < 32 ensures e[i] == Float(4) {
      BlockIndex(i, 32, 32);
    }
  }

  lemma ClassifyIs(nh: nat, nk: nat, x: int)
    requires 0 < nk <= nh
    ensures Shapes(ModelOf(nh, nk)) && Classify(ModelOf(nh, nk), Same(32, x)) == Same(1, x)
  {
    hide Mats, MatVec, Rms, LayerOfHeads;
    ModelShapes(nh, nk);
    RmsKeeps(Same(32, x), []);
    OneBlock(x);
    ProductIs(1, 1, Same(32, x));
    var y := Classify(ModelOf(nh, nk), Same(32, x));
    assert y[0] == OPS.logitScale(Float(x)) == ScaleKept(Float(x));
  }

  /** A token through both layers. */
  lemma TokenIs(nh: nat, nk: nat, kv: FlatCache, rows: seq<int>, pos: nat, x: int)
    requires 0 < nk <= nh && |rows| == 6 && pos < 2 && Repeats(kv.v, nk * 32, rows)
    ensures Shapes(ModelOf(nh, nk))
    ensures var r0 := rows[pos := x]; var y := x + Total(nh, nk, r0, 0, pos);
      var r1 := r0[3 + pos := y]; var z := y + Total(nh, nk, r1, 1, pos);
      var r := FlatToken(ModelOf(nh, nk), kv, Same(32, x), pos, 2);
      r.0 == Same(32, z) && Repeats(r.1.v, nk * 32, r1)
  {
    hide FlatLayer, FlatStore, Total, Shapes, Repeats, LayerOfHeads;
    ModelShapes(nh, nk);
    var c := ModelOf(nh, nk);
    var r0 := rows[pos := x];
    StoreIs(nh, nk, 0, kv, rows, x, pos);
    var kv1 := FlatStore(c, 0, kv, Same(32, x), pos);
    LayerIs(nh, nk, 0, kv1, r0, x, pos);
    var y := x + Total(nh, nk, r0, 0, pos);
    assert FlatToken(c, kv, Same(32, x), pos, 0) == (Same(32, x), kv);
    assert FlatToken(c, kv, Same(32, x), pos, 1) == (Same(32, y), kv1);
    StoreIs(nh, nk, 1, kv1, r0, y, pos);
    LayerIs(nh, nk, 1, FlatStore(c, 1, kv1, Same(32, y), pos), r0[3 + pos := y], y, pos);
  }

  /** A batch of two through one layer. */
  lemma PairIs(nh: nat, nk: nat, l: nat, kv: FlatCache, rows: seq<int>, x: int, y: int)
    requires 0 < nk <= nh && l < 2 && |rows| == 6 && Repeats(kv.v, nk * 32, rows)
    ensures Shapes(ModelOf(nh, nk)) && Rows(ModelOf(nh, nk), [Same(32, x), Same(32, y)])
    ensures var r := rows[3 * l := x][3 * l + 1 := y]; var xs := [Same(32, x), Same(32, y)];
      var kv' := FlatStoreAll(ModelOf(nh, nk), l, kv, xs, 0, 2);
      && Repeats(kv'.v, nk * 32, r)
      && FlatLayerAll(ModelOf(nh, nk), l, kv', xs, 0) == [Same(32, x + Total(nh, nk, r, l, 0)), Same(32, y + Total(nh, nk, r, l, 1))]
  {
    hide FlatLayer, FlatStore, Total, Shapes, Repeats, LayerOfHeads;
    ModelShapes(nh, nk);
    var c, xs := ModelOf(nh, nk), [Same(32, x), Same(32, y)];
    StoreIs(nh, nk, l, kv, rows, x, 0);
    var kv1 := FlatStore(c, l, kv, xs[0], 0);
    assert FlatStoreAll(c, l, kv, xs, 0, 0) == kv;
    assert FlatStoreAll(c, l, kv, xs, 0, 1) == kv1;
    StoreIs(nh, nk, l, kv1, rows[3 * l := x], y, 1);
    var r := rows[3 * l := x][3 * l + 1 := y];
    var kv2 := FlatStore(c, l, kv1, xs[1], 1);
    LayerIs(nh, nk, l, kv2, r, x, 0);
    LayerIs(nh, nk, l, kv2, r, y, 1);
  }

  lemma MixedIs(r: seq<int>, l: nat, o: nat)
    requires l < 2 && |r| == 6 && o <= 1
    ensures Mixed(r, l, 1, o, 2) == r[3 * l + o]
    ensures Mixed(r, l, 2, o, 1) == r[3 * l + o] / 2 + r[3 * l + 1 + o] / 2
  {
    assert Mixed(r, l, 0, o, 2) == 0 && Mixed(r, l, 0, o, 1) == 0;
    assert Mixed(r, l, 1, o, 1) == r[3 * l + o] / 2;
  }

  lemma TotalIs(nh: nat, nk: nat, r: seq<int>, l: nat)
    requires 0 < nk <= nh && l < 2 && |r| == 6
    ensures var b := Overs(nh, nk, nh);
      && Total(nh, nk, r, l, 0) == (nh - b) * r[3 * l] + b * r[3 * l + 1]
      && Total(nh, nk, r, l, 1) == (nh - b) * (r[3 * l] / 2 + r[3 * l + 1] / 2) + b * (r[3 * l + 1] / 2 + r[3 * l + 2] / 2)
  {
    hide Mixed, Overs;
    MixedIs(r, l, 0);
    MixedIs(r, l, 1);
  }

  const NO_ROWS: seq<int> := [0, 0, 0, 0, 0, 0]

  /** An empty cache. */
  function Fresh(nk: nat): FlatCache {
    FlatCache(seq(6 * (nk * 32), _ => Half(0)), seq(6 * (nk * 32), _ => Half(0)))
  }

  /** The second token's hidden state after the first layer, the same in both runs. */
  function Second(a: nat, b: nat): int { 4 + a * 4 + b * 2 }

  /** Its logit, given the first token's hidden state after the first layer. */
  function Logit(a: nat, b: nat, first: int): int {
    Second(a, b) + a * (first / 2 + Second(a, b) / 2) + b * (Second(a, b) / 2)
  }

  lemma DecodeIs(nh: nat, nk: nat)
    requires 0 < nk <= nh
    ensures Shapes(ModelOf(nh, nk))
    ensures var b := Overs(nh, nk, nh);
      FlatDecode(ModelOf(nh, nk), Fresh(nk), 0, [0, 0]).0 == Same(1, Logit(nh - b, b, 4 + (nh - b) * 4))
  {
    hide FlatToken, Total, Shapes, Embed, Classify, Overs, Repeats, LayerOfHeads, Same;
    var c, kv, b := ModelOf(nh, nk), Fresh(nk), Overs(nh, nk, nh);
    EmbedIs(nh, nk);
    FreshRepeats(nk * 32);
    var first, second := 4 + (nh - b) * 4, Second(nh - b, b);
    var e, f := [4, 0, 0, 0, 0, 0], [4, 0, 0, first, 0, 0];
    TotalIs(nh, nk, e, 0);
    assert NO_ROWS[0 := 4] == e && e[3 := first] == f;
    TokenIs(nh, nk, kv, NO_ROWS, 0, 4);
    OneDecoded(nh, nk);
    var kv1 := FlatToken(c, kv, Embed(c, 0), 0, 2).1;
    var g, h := [4, 4, 0, first, 0, 0], [4, 4, 0, first, second, 0];
    TotalIs(nh, nk, g, 0);
    TotalIs(nh, nk, h, 1);
    assert f[1 := 4] == g && g[4 := second] == h;
    TokenIs(nh, nk, kv1, f, 1, 4);
    ClassifyIs(nh, nk, Logit(nh - b, b, first));
    assert [0, 0][..1] == [0];
  }

  lemma OneDecoded(nh: nat, nk: nat)
    requires 0 < nk <= nh
    ensures Shapes(ModelOf(nh, nk))
    ensures var c := ModelOf(nh, nk); FlatDecode(c, Fresh(nk), 0, [0]).1 == FlatToken(c, Fresh(nk), Embed(c, 0), 0, 2).1
  {
    hide FlatToken, Shapes, Embed, Classify, LayerOfHeads;
    ModelShapes(nh, nk);
    assert [0][..0] == [];
    assert FlatDecode(ModelOf(nh, nk), Fresh(nk), 0, []) == ([], Fresh(nk));
  }

  lemma ChunkIs(nh: nat, nk: nat)
    requires 0 < nk <= nh
    ensures Shapes(ModelOf(nh, nk))
    ensures var b := Overs(nh, nk, nh);
      FlatChunk(ModelOf(nh, nk), Fresh(nk), 0, [0, 0]).0 == Same(1, Logit(nh - b, b, 4 + (nh - b) * 4 + b * 4))
  {
    hide FlatStoreAll, FlatLayerAll, Total, Shapes, Embed, Classify, Overs, Repeats, LayerOfHeads, Same;
    var c, kv, b := ModelOf(nh, nk), Fresh(nk), Overs(nh, nk, nh);
    EmbedIs(nh, nk);
    FreshRepeats(nk * 32);
    var xs := [Same(32, 4), Same(32, 4)];
    assert EmbedAll(c, [0, 0]) == xs;
    var first, second := 4 + (nh - b) * 4 + b * 4, Second(nh - b, b);
    var e, f := [4, 4, 0, 0, 0, 0], [4, 4, 0, first, second, 0];
    assert NO_ROWS[0 := 4][1 := 4] == e && e[3 := first][4 := second] == f;
    TotalIs(nh, nk, e, 0);
    PairIs(nh, nk, 0, kv, NO_ROWS, 4, 4);
    var b1 := FlatBatch(c, kv, xs, 0, 1);
    assert FlatBatch(c, kv, xs, 0, 0) == (xs, kv);
    assert b1.0 == [Same(32, first), Same(32, second)];
    TotalIs(nh, nk, f, 1);
    PairIs(nh, nk, 1, b1.1, e, first, second);
    ClassifyIs(nh, nk, Logit(nh - b, b, first));
  }

  lemma LogitsDiffer(a: nat, b: nat)
    requires a > 0 && b > 0
    ensures Logit(a, b, 4 + a * 4 + b * 4) == Logit(a, b, 4 + a * 4) + 2 * (a * b)
    ensures a * b > 0
  {
    var s := Second(a, b) / 2;
    var x, y := 2 + 2 * a, 2 + 2 * a + 2 * b;
    assert (4 + a * 4) / 2 == x && (4 + a * 4 + b * 4) / 2 == y;
    assert a * (y + s) == a * (x + s) + 2 * (a * b);
  }

  predicate WindowInside(nh: nat, nk: nat, l: nat, t: nat, h: nat)
    requires 0 < nk <= nh
  {
    RowAt(DimsOf(nh, nk), l, t) + HeadOffset(DimsOf(nh, nk), h) + 32 <= |Fresh(nk).k|
  }

  lemma EveryWindow(nh: nat, nk: nat, l: nat, t: nat, h: nat)
    requires 0 < nk <= nh && l < 2 && t < 2 && h < nh
    ensures WindowInside(nh, nk, l, t, h)
  {
    QuotientBound(nh, nk, h);
    var r := At(l, t, 3);
    assert r <= 4;
    MulMono(r, 4, nk * 32);
  }

  /** For all head counts that do not divide: the model, an empty cache and a prompt
      of two tokens, for which every window lies inside the cache, end with different
      logits in a batch and one by one. A head of the first token reads the second
      token's row, which only the batch has already written. */
  lemma ChunkDiffers(nh: nat, nk: nat)
    requires 0 < nk <= nh && nh % nk != 0
    ensures PromptFits(ModelOf(nh, nk), Fresh(nk), 0, [0, 0])
    ensures forall l: nat, t: nat, h: nat | l < 2 && t < 2 && h < nh :: WindowInside(nh, nk, l, t, h)
    ensures FlatChunk(ModelOf(nh, nk), Fresh(nk), 0, [0, 0]).0 != FlatDecode(ModelOf(nh, nk), Fresh(nk), 0, [0, 0]).0
  {
    hide FlatChunk, FlatDecode, Overs, LayerOfHeads, WindowInside;
    ModelShapes(nh, nk);
    forall l: nat, t: nat, h: nat | l < 2 && t < 2 && h < nh ensures WindowInside(nh, nk, l, t, h) {
      EveryWindow(nh, nk, l, t, h);
    }
    var b := Overs(nh, nk, nh);
    OversBetween(nh, nk);
    DecodeIs(nh, nk);
    ChunkIs(nh, nk);
    LogitsDiffer(nh - b, b);
    assert Same(1, Logit(nh - b, b, 4 + (nh - b) * 4))[0] != Same(1, Logit(nh - b, b, 4 + (nh - b) * 4 + b * 4))[0];
  }

  /** For which head counts batched prefill is decode, whatever the model, the cache
      and the prompt: exactly where the key heads divide the query heads. */
  lemma ChunkIsDecodeIff(nh: nat, nk: nat)
    requires 0 < nk <= nh
    ensures (forall c: Config, kv: FlatCache, pos: nat, tokens: seq<nat> ::
               c.d.nHeads == nh && c.d.nKvHeads == nk && PromptFits(c, kv, pos, tokens) && tokens != [] ==>
                 FlatChunk(c, kv, pos, tokens).0 == FlatDecode(c, kv, pos, tokens).0)
         <==> nh % nk == 0
  {
    hide FlatChunk, FlatDecode;
    if nh % nk == 0 {
      forall c: Config, kv: FlatCache, pos: nat, tokens: seq<nat>
        | c.d.nHeads == nh && c.d.nKvHeads == nk && PromptFits(c, kv, pos, tokens) && tokens != []
        ensures FlatChunk(c, kv, pos, tokens).0 == FlatDecode(c, kv, pos, tokens).0
      {
        FlatChunkIsDecode(c, kv, pos, tokens);
      }
    } else {
      ChunkDiffers(nh, nk);
    }
  }
}
