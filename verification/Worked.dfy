/** What a forward pass computes, on models small enough to follow by hand: one number
    per head and per layer, under whole-number arithmetic in which no two operands may
    change places. */
module Worked {
  // Every vector of such a model repeats one number in blocks of 32, so the model
  // computes what the definitions over lists of integers below compute.

  import opened Numbers
  import opened Kernels
  import opened Forward
  import opened Wrappers

  // ---- Whole-number arithmetic --------------------------------------------------------------

  function Keep(x: seq<Float>, i: nat): int { if i < |x| then x[i].bits else 0 }
  function Cell(x: seq<Half>, i: nat): int { if i < |x| then x[i].bits else 0 }
  function Head(s: seq<int>): int { if s == [] then 0 else s[0] }
  function Times(a: int, b: int): int { a * b }

  function NormOf(x: seq<Float>, w: seq<Float>, i: nat): Float { Float(Times(Keep(x, i), Keep(w, i))) }
  function HeadNormOf(x: seq<Float>, w: seq<Float>, hd: nat, i: nat): Float {
    Float(Keep(x, i) + if hd > 0 then Keep(w, i % hd) else 0)
  }
  function RopeOf(x: seq<Float>, hd: nat, pos: nat, i: nat): Float { Float(Turned(Keep(x, i), hd, pos)) }
  function Turned(x: int, hd: nat, pos: nat): int { Times(x, pos + 2) + hd / 32 }
  function HalfOf(x: Float): Half { Half(x.bits) }
  function ScoreOf(k: seq<Half>, q: seq<Float>): Float { Float(3 * Cell(k, 0) - Keep(q, 0)) }
  function ShareOf(s: seq<Float>, i: nat): Float { Float(Keep(s, i) % 5 + |s|) }
  function AxpyOf(a: seq<Float>, p: Float, v: seq<Half>, i: nat): Float { Float(Keep(a, i) + Times(p.bits, Cell(v, i))) }
  function SumOf(y: Float, x: Float): Float { Float(y.bits + 2 * x.bits) }
  function GateOf(g: Float, u: Float): Float { Float(Gated(g.bits, u.bits)) }
  function Gated(g: int, u: int): int { 3 * g - u }
  function DequantOf(t: Dtype, b: Block, i: nat): Float { Float(Head(b.data)) }
  function EmbedScaleOf(x: Float): Float { Float(2 * x.bits) }
  function LogitScaleOf(x: Float): Float { Float(x.bits - 1) }
  function QuantizeOf(f: Format, x: seq<Float>): Act { Act([Keep(x, 0)]) }
  function AccNone(t: Dtype): Acc { Acc([0]) }
  function AccNext(t: Dtype, a: Acc, b: Block, x: Act): Acc { Acc([Head(a.lanes) + Times(Head(b.data), Head(x.data))]) }
  function AccEnd(t: Dtype, a: Acc): Float { Float(Head(a.lanes)) }

  const OPS: Ops := Ops(NormOf, HeadNormOf, RopeOf, HalfOf, ScoreOf, ShareOf, Float(0), AxpyOf, SumOf, GateOf,
                        DequantOf, EmbedScaleOf, LogitScaleOf, QuantizeOf, AccNone, AccNext, AccEnd)

  // ---- Small models ------------------------------------------------------------------------------

  /** Four query heads over two key heads, all of width 32, as is everything else. */
  datatype Weights = Weights(
    norm: int, queryNorm: int, keyNorm: int, query: seq<int>, key: seq<int>, value: seq<int>, out: seq<int>,
    mlpNorm: int, gate: int, up: int, down: int)

  datatype Small = Small(embed: seq<int>, layers: seq<Weights>, norm: int, output: seq<int>, ctx: nat)

  predicate Whole(w: Weights) {
    |w.query| == 4 && |w.key| == 2 && |w.value| == 2 && |w.out| == 4
  }

  predicate WholeModel(m: Small) {
    |m.output| == |m.embed| && forall l | 0 <= l < |m.layers| :: Whole(m.layers[l])
  }

  /** Each number 32 times. */
  function Spread(vals: seq<int>): (x: Vector)
    ensures |x| == 32 * |vals|
  {
    seq(32 * |vals|, i requires 0 <= i < 32 * |vals| => Float(vals[i / 32]))
  }

  function SpreadHalf(vals: seq<int>): (x: CacheRow)
    ensures |x| == 32 * |vals|
  {
    seq(32 * |vals|, i requires 0 <= i < 32 * |vals| => Half(vals[i / 32]))
  }

  /** One block a row. */
  function Column(vals: seq<int>): (m: Mat)
    ensures |m.blocks| == |vals|
  {
    Mat(Q8, seq(|vals|, i requires 0 <= i < |vals| => Block([vals[i]])))
  }

  /** One block a row, 32 rows alike. */
  function Column32(vals: seq<int>): (m: Mat)
    ensures |m.blocks| == 32 * |vals|
  {
    Mat(Q8, seq(32 * |vals|, i requires 0 <= i < 32 * |vals| => Block([vals[i / 32]])))
  }

  /** 32 rows of the same four blocks. */
  function Rows4(vals: seq<int>): (m: Mat)
    requires |vals| == 4
    ensures |m.blocks| == 128
  {
    Mat(Q8, seq(128, i requires 0 <= i < 128 => Block([vals[i % 4]])))
  }

  function LayerOf(w: Weights): Layer
    requires Whole(w)
  {
    Layer(Spread([w.norm]), Some((Spread([w.queryNorm]), Spread([w.keyNorm]))),
          Column32(w.query), Column32(w.key), Column32(w.value), Rows4(w.out),
          Spread([w.mlpNorm]), Column32([w.gate]), Column32([w.up]), Column32([w.down]))
  }

  function ConfigOf(m: Small): Config
    requires WholeModel(m)
  {
    Config(OPS, Dims(32, |m.layers|, 4, 2, 32, 32, |m.embed|, m.ctx), Column(m.embed),
           seq(|m.layers|, l requires 0 <= l < |m.layers| => LayerOf(m.layers[l])), Spread([m.norm]), Column(m.output))
  }

  lemma WholeIsValid(m: Small)
    requires WholeModel(m)
    ensures ValidConfig(ConfigOf(m)) && ConfigOf(m).d.AttDim() == 128 && ConfigOf(m).d.KvDim() == 64
  {
  }

  // ---- The same over integers ----------------------------------------------------------------------

  /** What a layer remembers: two keys and two values a position. */
  datatype Past = Past(keys: seq<seq<int>>, values: seq<seq<int>>)

  ghost predicate Pairs(rows: seq<seq<int>>) {
    forall t | 0 <= t < |rows| :: |rows[t]| == 2
  }

  ghost predicate Remembers(p: Past, n: nat) {
    |p.keys| == |p.values| == n && Pairs(p.keys) && Pairs(p.values)
  }

  /** Head `h` reads key head `h / 2`: its scores against all `n` positions, modulo five
      and raised by the number of positions, weigh the values. */
  function HeadInt(q: int, p: Past, g: nat, len: nat, n: nat): int
    requires n <= len <= |p.keys| == |p.values| && g < 2 && Pairs(p.keys) && Pairs(p.values)
  {
    if n == 0 then 0
    else HeadInt(q, p, g, len, n - 1) + Times((3 * p.keys[n - 1][g] - q) % 5 + len, p.values[n - 1][g])
  }

  function QueryInt(w: Weights, x: int, pos: nat, h: nat): int
    requires Whole(w) && h < 4
  {
    Turned(Times(w.query[h], Times(x, w.norm)) + w.queryNorm, 32, pos)
  }

  function KeyInt(w: Weights, x: int, pos: nat): seq<int>
    requires Whole(w)
  {
    [Turned(Times(w.key[0], Times(x, w.norm)) + w.keyNorm, 32, pos), Turned(Times(w.key[1], Times(x, w.norm)) + w.keyNorm, 32, pos)]
  }

  function ValueInt(w: Weights, x: int): seq<int>
    requires Whole(w)
  {
    [Times(w.value[0], Times(x, w.norm)), Times(w.value[1], Times(x, w.norm))]
  }

  function Remember(w: Weights, p: Past, x: int): Past
    requires Whole(w)
  {
    Past(p.keys + [KeyInt(w, x, |p.keys|)], p.values + [ValueInt(w, x)])
  }

  /** The past already holds the position itself. */
  function AttendInt(w: Weights, p: Past, x: int): int
    requires Whole(w) && |p.keys| > 0 && Remembers(p, |p.keys|)
  {
    var n := |p.keys|;
    var a, b := HeadInt(QueryInt(w, x, n - 1, 0), p, 0, n, n), HeadInt(QueryInt(w, x, n - 1, 1), p, 0, n, n);
    var c, d := HeadInt(QueryInt(w, x, n - 1, 2), p, 1, n, n), HeadInt(QueryInt(w, x, n - 1, 3), p, 1, n, n);
    x + 2 * (Times(w.out[0], a) + Times(w.out[1], b) + Times(w.out[2], c) + Times(w.out[3], d))
  }

  function MlpInt(w: Weights, x: int): int {
    var n := Times(x, w.mlpNorm);
    x + 2 * Times(w.down, Gated(Times(w.gate, n), Times(w.up, n)))
  }

  function LayerInt(w: Weights, p: Past, x: int): int
    requires Whole(w) && |p.keys| > 0 && Remembers(p, |p.keys|)
  {
    MlpInt(w, AttendInt(w, p, x))
  }

  ghost predicate AllRemember(m: Small, ps: seq<Past>, pos: nat) {
    |ps| == |m.layers| && forall l | 0 <= l < |ps| :: Remembers(ps[l], pos)
  }

  /** The first `n` layers of one token. */
  function TokenInt(m: Small, ps: seq<Past>, x: int, pos: nat, n: nat): (r: (int, seq<Past>))
    requires WholeModel(m) && AllRemember(m, ps, pos) && n <= |m.layers|
    ensures |r.1| == |ps| && forall l | 0 <= l < |ps| :: Remembers(r.1[l], if l < n then pos + 1 else pos)
  {
    if n == 0 then (x, ps)
    else
      var (y, qs) := TokenInt(m, ps, x, pos, n - 1);
      var p := Remember(m.layers[n - 1], qs[n - 1], y);
      (LayerInt(m.layers[n - 1], p, y), qs[n - 1 := p])
  }

  function LogitsInt(m: Small, x: int): (y: seq<int>)
    ensures |y| == |m.output|
  {
    seq(|m.output|, i requires 0 <= i < |m.output| => Times(m.output[i], Times(x, m.norm)) - 1)
  }

  /** The memory a prompt leaves and the number that enters the classifier last. */
  function PromptInt(m: Small, tokens: seq<nat>): (r: (int, seq<Past>))
    requires WholeModel(m) && forall i | 0 <= i < |tokens| :: tokens[i] < |m.embed|
    ensures AllRemember(m, r.1, |tokens|)
  {
    if tokens == [] then (0, seq(|m.layers|, _ => Past([], [])))
    else
      var n := |tokens| - 1;
      TokenInt(m, PromptInt(m, tokens[..n]).1, 2 * m.embed[tokens[n]], n, |m.layers|)
  }

  // ---- The routines on spread numbers -----------------------------------------------------------------

  lemma RmsIs(x: int, w: int)
    ensures Rms(OPS, Spread([x]), Spread([w])) == Spread([Times(x, w)])
  {
    hide Times;
    var a, b := Spread([x]), Spread([w]);
    forall i | 0 <= i < 32 ensures Rms(OPS, a, b)[i] == Float(Times(x, w)) {
      assert Rms(OPS, a, b)[i] == OPS.rms(a, b, i) == NormOf(a, b, i);
    }
  }

  lemma HeadNormIs(vals: seq<int>, w: int)
    ensures HeadNorm(OPS, Spread(vals), Spread([w]), 32) == Spread(Raised(vals, w))
  {
    var a, b := Spread(vals), Spread([w]);
    forall i | 0 <= i < |a| ensures HeadNorm(OPS, a, b, 32)[i] == Float(vals[i / 32] + w) {
      assert HeadNorm(OPS, a, b, 32)[i] == OPS.headNorm(a, b, 32, i) == HeadNormOf(a, b, 32, i);
    }
  }

  function Raised(vals: seq<int>, w: int): (r: seq<int>)
    ensures |r| == |vals|
  {
    seq(|vals|, i requires 0 <= i < |vals| => vals[i] + w)
  }

  lemma RopeIs(vals: seq<int>, pos: nat)
    ensures Rope(OPS, Spread(vals), 32, pos) == Spread(TurnedAll(vals, pos))
  {
    hide Turned;
    var a := Spread(vals);
    forall i | 0 <= i < |a| ensures Rope(OPS, a, 32, pos)[i] == Float(Turned(vals[i / 32], 32, pos)) {
      assert Rope(OPS, a, 32, pos)[i] == OPS.rope(a, 32, pos, i) == RopeOf(a, 32, pos, i);
    }
  }

  function TurnedAll(vals: seq<int>, pos: nat): (r: seq<int>)
    ensures |r| == |vals|
  {
    seq(|vals|, i requires 0 <= i < |vals| => Turned(vals[i], 32, pos))
  }

  lemma HalfIs(vals: seq<int>)
    ensures ToHalf(OPS, Spread(vals)) == SpreadHalf(vals)
  {
    forall i | 0 <= i < 32 * |vals| ensures ToHalf(OPS, Spread(vals))[i] == Half(vals[i / 32]) {
      assert ToHalf(OPS, Spread(vals))[i] == OPS.toHalf(Float(vals[i / 32])) == HalfOf(Float(vals[i / 32]));
    }
  }

  lemma ResidualIs(y: int, x: int)
    ensures Residual(OPS, Spread([y]), Spread([x])) == Spread([y + 2 * x])
  {
    var a, b := Spread([y]), Spread([x]);
    forall i | 0 <= i < 32 ensures Residual(OPS, a, b)[i] == Float(y + 2 * x) {
      assert Residual(OPS, a, b)[i] == OPS.residual(Float(y), Float(x)) == SumOf(Float(y), Float(x));
    }
  }

  lemma SwigluIs(g: int, u: int)
    ensures Swiglu(OPS, Spread([g]), Spread([u])) == Spread([Gated(g, u)])
  {
    hide Gated;
    var a, b := Spread([g]), Spread([u]);
    forall i | 0 <= i < 32 ensures Swiglu(OPS, a, b)[i] == Float(Gated(g, u)) {
      assert Swiglu(OPS, a, b)[i] == OPS.swiglu(Float(g), Float(u)) == GateOf(Float(g), Float(u));
    }
  }

  lemma AxpyIs(x: int, p: int, v: int)
    ensures Axpy(OPS, Spread([x]), Float(p), SpreadHalf([v])) == Spread([x + Times(p, v)])
  {
    hide Times;
    var a, b := Spread([x]), SpreadHalf([v]);
    forall i | 0 <= i < 32 ensures Axpy(OPS, a, Float(p), b)[i] == Float(x + Times(p, v)) {
      assert Axpy(OPS, a, Float(p), b)[i] == OPS.axpy(a, Float(p), b, i) == AxpyOf(a, Float(p), b, i);
    }
  }

  // ---- Products -------------------------------------------------------------------------------------------

  function Ints(n: nat, f: nat -> int): seq<int> { seq(n, f) }

  /** The dot of blocks and activations that hold one number each. */
  function DotInt(w: seq<int>, x: seq<int>, n: nat): int
    requires n <= |w| && n <= |x|
  {
    if n == 0 then 0 else DotInt(w, x, n - 1) + Times(w[n - 1], x[n - 1])
  }

  lemma {:induction false} DotIs(bs: seq<Block>, xs: seq<Act>, w: seq<int>, x: seq<int>, n: nat)
    requires n <= |bs| == |w| && n <= |xs| == |x|
    requires (forall k | 0 <= k < |w| :: bs[k] == Block([w[k]])) && forall k | 0 <= k < |x| :: xs[k] == Act([x[k]])
    ensures DotAcc(OPS, Q8, bs, xs, n) == Acc([DotInt(w, x, n)])
    decreases n
  {
    hide Times;
    if n > 0 {
      DotIs(bs, xs, w, x, n - 1);
      assert DotAcc(OPS, Q8, bs, xs, n) == AccNext(Q8, DotAcc(OPS, Q8, bs, xs, n - 1), bs[n - 1], xs[n - 1]);
    }
  }

  lemma QuantizedIs(vals: seq<int>)
    ensures Quantized(OPS, ActQ8, Spread(vals)) == seq(|vals|, i requires 0 <= i < |vals| => Act([vals[i]]))
  {
    var x := Spread(vals);
    forall k | 0 <= k < |vals| ensures Quantized(OPS, ActQ8, x)[k] == Act([vals[k]]) {
      BlockEnd(k, |x|, 32);
      assert x[k * 32..(k + 1) * 32][0] == Float(vals[k]);
      assert QuantizeBlock(OPS, ActQ8, x, k) == QuantizeOf(ActQ8, x[k * 32..(k + 1) * 32]);
    }
  }

  /** Row `r` of a product, if its blocks hold `w`. */
  lemma EntryIs(m: Mat, rows: nat, vals: seq<int>, w: seq<int>, r: nat)
    requires m.dtype == Q8 && |w| == |vals| && r < rows && rows * |vals| <= |m.blocks|
    requires forall k | 0 <= k < |w| :: r * |vals| + k < |m.blocks| && m.blocks[r * |vals| + k] == Block([w[k]])
    ensures Shaped(m, rows, 32 * |vals|)
    ensures MatVec(OPS, m, rows, Spread(vals))[r] == Float(DotInt(w, vals, |w|))
  {
    hide DotInt;
    QuantizedIs(vals);
    var a := Quantized(OPS, ActQ8, Spread(vals));
    RowFits(r, rows, |vals|, |m.blocks|);
    var row := Row(m.blocks, r, |vals|);
    DotIs(row, a, w, vals, |w|);
    assert MatVec(OPS, m, rows, Spread(vals))[r] == RowDot(OPS, m, r, a);
    assert Dot(OPS, Q8, row, a) == AccEnd(Q8, DotAcc(OPS, Q8, row, a, |row|));
  }

  lemma DotOne(w: int, x: int)
    ensures DotInt([w], [x], 1) == Times(w, x)
  {
    assert DotInt([w], [x], 0) == 0;
  }

  function Scaled(vals: seq<int>, x: int): (r: seq<int>)
    ensures |r| == |vals|
  {
    seq(|vals|, i requires 0 <= i < |vals| => Times(vals[i], x))
  }

  lemma ColumnIs(vals: seq<int>, x: int)
    ensures Shaped(Column32(vals), 32 * |vals|, 32)
    ensures MatVec(OPS, Column32(vals), 32 * |vals|, Spread([x])) == Spread(Scaled(vals, x))
  {
    hide MatVec, Times, DotInt;
    var m, n := Column32(vals), 32 * |vals|;
    forall r | 0 <= r < n ensures MatVec(OPS, m, n, Spread([x]))[r] == Float(Times(vals[r / 32], x)) {
      EntryIs(m, n, [x], [vals[r / 32]], r);
      DotOne(vals[r / 32], x);
    }
  }

  lemma FourIs(w: seq<int>, x: seq<int>)
    requires |w| == |x| == 4
    ensures DotInt(w, x, 4) == Times(w[0], x[0]) + Times(w[1], x[1]) + Times(w[2], x[2]) + Times(w[3], x[3])
  {
    hide Times;
    assert DotInt(w, x, 0) == 0;
    assert DotInt(w, x, 2) == Times(w[0], x[0]) + Times(w[1], x[1]) by { assert DotInt(w, x, 1) == Times(w[0], x[0]); }
    assert DotInt(w, x, 3) == DotInt(w, x, 2) + Times(w[2], x[2]);
  }

  lemma FourBlocks(w: seq<int>, r: nat)
    requires |w| == 4 && r < 32
    ensures forall k | 0 <= k < 4 :: r * 4 + k < |Rows4(w).blocks| && Rows4(w).blocks[r * 4 + k] == Block([w[k]])
  {
    hide Rows4;
    RowsShaped(w);
    OneBlock(w, r, 0);
    OneBlock(w, r, 1);
    OneBlock(w, r, 2);
    OneBlock(w, r, 3);
  }

  lemma OneBlock(w: seq<int>, r: nat, k: nat)
    requires |w| == 4 && r < 32 && k < 4
    ensures Rows4(w).blocks[r * 4 + k] == Block([w[k]])
  {
    FourthPlace(r, k);
    var i := r * 4 + k;
    assert Rows4(w).blocks[i] == Block([w[i % 4]]);
  }

  lemma FourthPlace(r: nat, k: nat)
    requires k < 4
    ensures (r * 4 + k) % 4 == k
  {
  }

  lemma RowsIs(w: seq<int>, x: seq<int>)
    requires |w| == |x| == 4
    ensures Shaped(Rows4(w), 32, 128)
    ensures MatVec(OPS, Rows4(w), 32, Spread(x)) == Spread([Times(w[0], x[0]) + Times(w[1], x[1]) + Times(w[2], x[2]) + Times(w[3], x[3])])
  {
    hide MatVec, Times, DotInt, Rows4, Spread;
    FourIs(w, x);
    RowsShaped(w);
    var v := DotInt(w, x, 4);
    forall r | 0 <= r < 32 ensures MatVec(OPS, Rows4(w), 32, Spread(x))[r] == Float(v) {
      FourBlocks(w, r);
      EntryIs(Rows4(w), 32, x, w, r);
    }
    AllAlike(MatVec(OPS, Rows4(w), 32, Spread(x)), v);
  }

  lemma RowsShaped(w: seq<int>)
    requires |w| == 4
    ensures Rows4(w).dtype == Q8 && |Rows4(w).blocks| == 128
  {
  }

  lemma AllAlike(x: Vector, v: int)
    requires |x| == 32 && forall i | 0 <= i < 32 :: x[i] == Float(v)
    ensures x == Spread([v])
  {
  }

  lemma ColumnEntries(vals: seq<int>, x: int)
    ensures Shaped(Column(vals), |vals|, 32)
    ensures MatVec(OPS, Column(vals), |vals|, Spread([x])) == seq(|vals|, r requires 0 <= r < |vals| => Float(Times(vals[r], x)))
  {
    hide MatVec, Times, DotInt, Spread;
    forall r | 0 <= r < |vals| ensures MatVec(OPS, Column(vals), |vals|, Spread([x]))[r] == Float(Times(vals[r], x)) {
      EntryIs(Column(vals), |vals|, [x], [vals[r]], r);
      DotOne(vals[r], x);
    }
  }

  // ---- One layer ----------------------------------------------------------------------------------------------

  /** The cache of a layer holds what the layer remembers. */
  ghost predicate Holds(kv: LayerCache, p: Past) {
    && |p.keys| == |p.values| <= |kv.k| && |kv.k| == |kv.v| && Pairs(p.keys) && Pairs(p.values)
    && (forall t | 0 <= t < |kv.k| :: |kv.k[t]| == 64) && (forall t | 0 <= t < |kv.v| :: |kv.v[t]| == 64)
    && (forall t | 0 <= t < |p.keys| :: kv.k[t] == SpreadHalf(p.keys[t]))
    && (forall t | 0 <= t < |p.values| :: kv.v[t] == SpreadHalf(p.values[t]))
  }

  lemma WindowIs(vals: seq<int>, g: nat)
    requires |vals| == 2 && g < 2
    ensures SpreadHalf(vals)[g * 32..g * 32 + 32] == SpreadHalf([vals[g]])
  {
  }

  lemma QueryWindow(vals: seq<int>, h: nat)
    requires |vals| == 4 && h < 4
    ensures Row(Spread(vals), h, 32) == Spread([vals[h]])
  {
  }

  lemma OffsetIs(m: Small, h: nat)
    requires WholeModel(m) && h < 4
    ensures HeadOffset(ConfigOf(m).d, h) == (h / 2) * 32
  {
  }

  function ScoresInt(q: int, p: Past, g: nat, n: nat): (s: seq<int>)
    requires n <= |p.keys| && g < 2 && Pairs(p.keys)
    ensures |s| == n
  {
    seq(n, t requires 0 <= t < n => 3 * p.keys[t][g] - q)
  }

  lemma ScoresIs(m: Small, q: seq<int>, kv: LayerCache, p: Past, n: nat, h: nat)
    requires WholeModel(m) && |q| == 4 && h < 4 && Holds(kv, p) && n <= |p.keys|
    ensures ValidConfig(ConfigOf(m)) && ConfigOf(m).d.AttDim() == 128 && ConfigOf(m).d.KvDim() == 64
    ensures var s := Scores(ConfigOf(m), Spread(q), kv.k, n, h);
      |s| == n && forall t | 0 <= t < n :: s[t] == Float(3 * p.keys[t][h / 2] - q[h])
  {
    hide ValidConfig, ConfigOf, Spread, SpreadHalf, Row;
    WholeIsValid(m);
    SmallParts(m);
    OffsetIs(m, h);
    QueryWindow(q, h);
    forall t | 0 <= t < n ensures Scores(ConfigOf(m), Spread(q), kv.k, n, h)[t] == Float(3 * p.keys[t][h / 2] - q[h]) {
      WindowIs(p.keys[t], h / 2);
      ScoreIs(p.keys[t][h / 2], q[h]);
    }
  }

  lemma ScoreIs(k: int, q: int)
    ensures OPS.score(SpreadHalf([k]), Spread([q])) == Float(3 * k - q)
  {
    assert OPS.score(SpreadHalf([k]), Spread([q])) == ScoreOf(SpreadHalf([k]), Spread([q]));
  }

  lemma SmallParts(m: Small)
    requires WholeModel(m)
    ensures ConfigOf(m).o == OPS && ConfigOf(m).d == Dims(32, |m.layers|, 4, 2, 32, 32, |m.embed|, m.ctx)
    ensures |ConfigOf(m).layers| == |m.layers| && forall l | 0 <= l < |m.layers| :: ConfigOf(m).layers[l] == LayerOf(m.layers[l])
    ensures ConfigOf(m).embed == Column(m.embed) && ConfigOf(m).outNorm == Spread([m.norm]) && ConfigOf(m).output == Column(m.output)
  {
  }

  lemma {:induction false} MixIs(m: Small, q: int, probs: Vector, kv: LayerCache, p: Past, len: nat, n: nat, h: nat)
    requires WholeModel(m) && h < 4 && Holds(kv, p) && n <= len == |probs| == |p.keys|
    requires forall t | 0 <= t < len :: probs[t] == Float((3 * p.keys[t][h / 2] - q) % 5 + len)
    ensures ValidConfig(ConfigOf(m)) && ConfigOf(m).d.KvDim() == 64
    ensures Mix(ConfigOf(m), probs, kv.v, n, h) == Spread([HeadInt(q, p, h / 2, len, n)])
    decreases n
  {
    hide ValidConfig, ConfigOf, Spread, SpreadHalf, Axpy, Times;
    WholeIsValid(m);
    SmallParts(m);
    OffsetIs(m, h);
    if n == 0 {
      ZeroSpread();
    } else {
      MixIs(m, q, probs, kv, p, len, n - 1, h);
      WindowIs(p.values[n - 1], h / 2);
      AxpyIs(HeadInt(q, p, h / 2, len, n - 1), (3 * p.keys[n - 1][h / 2] - q) % 5 + len, p.values[n - 1][h / 2]);
    }
  }

  lemma ZeroSpread()
    ensures seq(32, _ => OPS.zero) == Spread([0])
  {
  }

  lemma HeadIs(m: Small, q: seq<int>, kv: LayerCache, p: Past, h: nat)
    requires WholeModel(m) && |q| == 4 && h < 4 && Holds(kv, p) && 0 < |p.keys| <= m.ctx == |kv.k|
    ensures ValidConfig(ConfigOf(m)) && ConfigOf(m).d.AttDim() == 128 && ValidLayerCache(ConfigOf(m).d, kv)
    ensures HeadOut(ConfigOf(m), Spread(q), kv, |p.keys| - 1, h) == Spread([HeadInt(q[h], p, h / 2, |p.keys|, |p.keys|)])
  {
    hide ValidConfig, ConfigOf, Spread, SpreadHalf, Scores, Mix;
    WholeIsValid(m);
    SmallParts(m);
    var n := |p.keys|;
    ScoresIs(m, q, kv, p, n, h);
    var s := Scores(ConfigOf(m), Spread(q), kv.k, n, h);
    SharesIs(s);
    MixIs(m, q[h], Softmax(OPS, s), kv, p, n, n, h);
  }

  lemma SharesIs(s: Vector)
    ensures forall t | 0 <= t < |s| :: Softmax(OPS, s)[t] == Float(s[t].bits % 5 + |s|)
  {
    forall t | 0 <= t < |s| ensures Softmax(OPS, s)[t] == Float(s[t].bits % 5 + |s|) {
      assert Softmax(OPS, s)[t] == OPS.softmax(s, t) == ShareOf(s, t);
    }
  }

  lemma SpreadAppend(a: seq<int>, b: int)
    ensures Spread(a) + Spread([b]) == Spread(a + [b])
  {
    var x, y := Spread(a) + Spread([b]), Spread(a + [b]);
    forall i | 0 <= i < |y| ensures x[i] == y[i] {
      if i < 32 * |a| {
        assert (a + [b])[i / 32] == a[i / 32];
      } else {
        assert i / 32 == |a| && (i - 32 * |a|) / 32 == 0;
      }
    }
  }

  function HeadsInt(q: seq<int>, p: Past): (s: seq<int>)
    requires |q| == 4 && Remembers(p, |p.keys|)
    ensures |s| == 4
  {
    var n := |p.keys|;
    [HeadInt(q[0], p, 0, n, n), HeadInt(q[1], p, 0, n, n), HeadInt(q[2], p, 1, n, n), HeadInt(q[3], p, 1, n, n)]
  }

  lemma {:induction false} HeadsIs(m: Small, q: seq<int>, kv: LayerCache, p: Past, n: nat)
    requires WholeModel(m) && |q| == 4 && n <= 4 && Holds(kv, p) && 0 < |p.keys| <= m.ctx == |kv.k|
    ensures ValidConfig(ConfigOf(m)) && ConfigOf(m).d.AttDim() == 128 && ValidLayerCache(ConfigOf(m).d, kv)
    ensures Heads(ConfigOf(m), Spread(q), kv, |p.keys| - 1, n) == Spread(HeadsInt(q, p)[..n])
    decreases n
  {
    hide ValidConfig, ConfigOf, Spread, SpreadHalf, HeadOut, HeadInt, Holds;
    WholeIsValid(m);
    SmallParts(m);
    HoldsValid(m, kv, p);
    if n == 0 {
      assert HeadsInt(q, p)[..0] == [];
      NoSpread();
    } else {
      HeadsIs(m, q, kv, p, n - 1);
      HeadIs(m, q, kv, p, n - 1);
      SpreadAppend(HeadsInt(q, p)[..n - 1], HeadsInt(q, p)[n - 1]);
      assert HeadsInt(q, p)[..n] == HeadsInt(q, p)[..n - 1] + [HeadsInt(q, p)[n - 1]];
    }
  }

  lemma NoSpread()
    ensures Spread([]) == []
  {
  }

  lemma HoldsValid(m: Small, kv: LayerCache, p: Past)
    requires WholeModel(m) && Holds(kv, p) && |kv.k| == m.ctx
    ensures ValidLayerCache(ConfigOf(m).d, kv) && Remembers(p, |p.keys|)
  {
  }

  lemma NormedIs(w: Weights, x: int)
    requires Whole(w)
    ensures Rms(OPS, Spread([x]), LayerOf(w).attnNorm) == Spread([Times(x, w.norm)])
    ensures Rms(OPS, Spread([x]), LayerOf(w).ffnNorm) == Spread([Times(x, w.mlpNorm)])
  {
    hide Spread, Times;
    RmsIs(x, w.norm);
    RmsIs(x, w.mlpNorm);
  }

  function QueriesInt(w: Weights, x: int, pos: nat): (q: seq<int>)
    requires Whole(w)
    ensures |q| == 4
  {
    [QueryInt(w, x, pos, 0), QueryInt(w, x, pos, 1), QueryInt(w, x, pos, 2), QueryInt(w, x, pos, 3)]
  }

  lemma LayerValid(m: Small, w: Weights)
    requires WholeModel(m) && Whole(w)
    ensures ValidLayer(ConfigOf(m).d, LayerOf(w))
  {
  }

  lemma QueryIs(m: Small, w: Weights, x: int, pos: nat)
    requires WholeModel(m) && Whole(w)
    ensures ValidLayer(ConfigOf(m).d, LayerOf(w))
    ensures Query(ConfigOf(m), LayerOf(w), Spread([x]), pos) == Spread(QueriesInt(w, x, pos))
  {
    hide ConfigOf, Spread, Times, Turned, MatVec, Rms, HeadNorm, Rope, ValidLayer;
    LayerValid(m, w);
    SmallParts(m);
    NormedIs(w, x);
    var n := Times(x, w.norm);
    ColumnIs(w.query, n);
    HeadNormIs(Scaled(w.query, n), w.queryNorm);
    RopeIs(Raised(Scaled(w.query, n), w.queryNorm), pos);
    assert TurnedAll(Raised(Scaled(w.query, n), w.queryNorm), pos) == QueriesInt(w, x, pos);
  }

  lemma KeyIs(m: Small, w: Weights, x: int, pos: nat)
    requires WholeModel(m) && Whole(w)
    ensures ValidLayer(ConfigOf(m).d, LayerOf(w))
    ensures ToHalf(OPS, Key(ConfigOf(m), LayerOf(w), Spread([x]), pos)) == SpreadHalf(KeyInt(w, x, pos))
  {
    hide ConfigOf, Spread, SpreadHalf, Times, Turned, MatVec, Rms, HeadNorm, Rope, ToHalf, ValidLayer;
    LayerValid(m, w);
    SmallParts(m);
    NormedIs(w, x);
    var n := Times(x, w.norm);
    ColumnIs(w.key, n);
    HeadNormIs(Scaled(w.key, n), w.keyNorm);
    RopeIs(Raised(Scaled(w.key, n), w.keyNorm), pos);
    assert TurnedAll(Raised(Scaled(w.key, n), w.keyNorm), pos) == KeyInt(w, x, pos);
    HalfIs(KeyInt(w, x, pos));
  }

  lemma ValueIs(m: Small, w: Weights, x: int)
    requires WholeModel(m) && Whole(w)
    ensures ValidLayer(ConfigOf(m).d, LayerOf(w))
    ensures ToHalf(OPS, Value(ConfigOf(m), LayerOf(w), Spread([x]))) == SpreadHalf(ValueInt(w, x))
  {
    hide ConfigOf, Spread, SpreadHalf, Times, MatVec, Rms, ToHalf, ValidLayer;
    LayerValid(m, w);
    SmallParts(m);
    NormedIs(w, x);
    var n := Times(x, w.norm);
    ColumnIs(w.value, n);
    assert Scaled(w.value, n) == ValueInt(w, x);
    HalfIs(ValueInt(w, x));
  }

  /** Storing the position's rows is remembering it. */
  lemma StoreIs(m: Small, w: Weights, kv: LayerCache, p: Past, x: int)
    requires WholeModel(m) && Whole(w) && Holds(kv, p) && |p.keys| < m.ctx == |kv.k|
    ensures ValidLayer(ConfigOf(m).d, LayerOf(w)) && ValidLayerCache(ConfigOf(m).d, kv)
    ensures var kv' := Store(ConfigOf(m), LayerOf(w), kv, Spread([x]), |p.keys|); Holds(kv', Remember(w, p, x)) && |kv'.k| == m.ctx
  {
    hide ConfigOf, Spread, SpreadHalf, Key, Value, ToHalf, ValidLayer, KeyInt, ValueInt;
    SmallParts(m);
    HoldsValid(m, kv, p);
    KeyIs(m, w, x, |p.keys|);
    ValueIs(m, w, x);
    RowSizes(w, x, |p.keys|);
  }

  lemma RowSizes(w: Weights, x: int, pos: nat)
    requires Whole(w)
    ensures |KeyInt(w, x, pos)| == 2 && |ValueInt(w, x)| == 2
  {
  }

  lemma AttendIs(m: Small, w: Weights, kv: LayerCache, p: Past, x: int)
    requires WholeModel(m) && Whole(w) && Holds(kv, p) && 0 < |p.keys| <= m.ctx == |kv.k|
    ensures ValidConfig(ConfigOf(m)) && ValidLayer(ConfigOf(m).d, LayerOf(w)) && ValidLayerCache(ConfigOf(m).d, kv)
    ensures Remembers(p, |p.keys|)
    ensures AfterAttention(ConfigOf(m), LayerOf(w), kv, Spread([x]), |p.keys| - 1) == Spread([AttendInt(w, p, x)])
  {
    hide ConfigOf, Spread, Times, MatVec, Query, Heads, HeadInt, Residual, ValidLayer, ValidConfig, Holds, QueryInt;
    WholeIsValid(m);
    SmallParts(m);
    HoldsValid(m, kv, p);
    LayerValid(m, w);
    var q := QueriesInt(w, x, |p.keys| - 1);
    QueryIs(m, w, x, |p.keys| - 1);
    HeadsIs(m, q, kv, p, 4);
    var a := HeadsInt(q, p);
    assert a[..4] == a;
    RowsIs(w.out, a);
    ResidualIs(x, Times(w.out[0], a[0]) + Times(w.out[1], a[1]) + Times(w.out[2], a[2]) + Times(w.out[3], a[3]));
  }

  lemma MlpIs(m: Small, w: Weights, x: int)
    requires WholeModel(m) && Whole(w)
    ensures ValidLayer(ConfigOf(m).d, LayerOf(w))
    ensures AfterMlp(ConfigOf(m), LayerOf(w), Spread([x])) == Spread([MlpInt(w, x)])
  {
    hide ConfigOf, Spread, Times, Gated, MatVec, Rms, Swiglu, Residual, ValidLayer;
    LayerValid(m, w);
    SmallParts(m);
    NormedIs(w, x);
    var n := Times(x, w.mlpNorm);
    OneRow(w.gate, n);
    OneRow(w.up, n);
    SwigluIs(Times(w.gate, n), Times(w.up, n));
    OneRow(w.down, Gated(Times(w.gate, n), Times(w.up, n)));
    ResidualIs(x, Times(w.down, Gated(Times(w.gate, n), Times(w.up, n))));
  }

  lemma OneRow(w: int, x: int)
    ensures Shaped(Column32([w]), 32, 32)
    ensures MatVec(OPS, Column32([w]), 32, Spread([x])) == Spread([Times(w, x)])
  {
    hide Spread, Times, MatVec, Column32;
    ColumnIs([w], x);
    assert Scaled([w], x) == [Times(w, x)];
  }

  // ---- Prompts ----------------------------------------------------------------------------------------------------

  /** The caches of all layers hold what the layers remember. */
  ghost predicate AllHold(m: Small, kv: seq<LayerCache>, ps: seq<Past>, n: nat, pos: nat) {
    && |kv| == |ps| == |m.layers|
    && forall l | 0 <= l < |ps| :: Holds(kv[l], ps[l]) && |kv[l].k| == m.ctx && |ps[l].keys| == if l < n then pos + 1 else pos
  }

  lemma HoldValid(m: Small, kv: seq<LayerCache>, ps: seq<Past>, n: nat, pos: nat)
    requires WholeModel(m) && AllHold(m, kv, ps, n, pos)
    ensures ValidCache(ConfigOf(m).d, kv)
    ensures n == 0 ==> AllRemember(m, ps, pos)
  {
    hide ConfigOf, Holds;
    SmallParts(m);
    forall l | 0 <= l < |kv| ensures ValidLayerCache(ConfigOf(m).d, kv[l]) && Remembers(ps[l], |ps[l].keys|) {
      HoldsValid(m, kv[l], ps[l]);
    }
  }

  lemma {:induction false} TokenIs(m: Small, kv: seq<LayerCache>, ps: seq<Past>, x: int, pos: nat, n: nat)
    requires WholeModel(m) && AllHold(m, kv, ps, 0, pos) && pos < m.ctx && n <= |m.layers|
    ensures ValidConfig(ConfigOf(m)) && ValidCache(ConfigOf(m).d, kv) && AllRemember(m, ps, pos)
    ensures var (y, kv') := TokenLayers(ConfigOf(m), kv, Spread([x]), pos, n); var (z, qs) := TokenInt(m, ps, x, pos, n);
      y == Spread([z]) && AllHold(m, kv', qs, n, pos)
    decreases n
  {
    hide ConfigOf, Spread, Holds, ValidConfig, ValidCache, AllRemember, Store, LayerOut, LayerInt, Remember, WholeModel;
    WholeIsValid(m);
    SmallParts(m);
    HoldValid(m, kv, ps, 0, pos);
    if n > 0 {
      TokenIs(m, kv, ps, x, pos, n - 1);
      var (y, kv1) := TokenLayers(ConfigOf(m), kv, Spread([x]), pos, n - 1);
      var (z, qs) := TokenInt(m, ps, x, pos, n - 1);
      OneLayer(m, n - 1, kv1[n - 1], qs[n - 1], z, pos);
    }
  }

  lemma OneLayer(m: Small, l: nat, kv: LayerCache, p: Past, x: int, pos: nat)
    requires WholeModel(m) && l < |m.layers| && Holds(kv, p) && |p.keys| == pos < m.ctx == |kv.k|
    ensures ValidConfig(ConfigOf(m)) && ValidLayer(ConfigOf(m).d, LayerOf(m.layers[l])) && ValidLayerCache(ConfigOf(m).d, kv)
    ensures Remembers(p, pos) && Remembers(Remember(m.layers[l], p, x), pos + 1)
    ensures var c, w := ConfigOf(m), m.layers[l]; var kv' := Store(c, LayerOf(w), kv, Spread([x]), pos); var q := Remember(w, p, x);
      Holds(kv', q) && |kv'.k| == m.ctx && LayerOut(c, LayerOf(w), kv', Spread([x]), pos) == Spread([LayerInt(w, q, x)])
  {
    hide ConfigOf, Spread, Holds, ValidConfig, ValidLayer, ValidLayerCache, Store, AfterAttention, AfterMlp, AttendInt, MlpInt, LayerOf;
    var w := m.layers[l];
    WholeIsValid(m);
    SmallParts(m);
    LayerValid(m, w);
    HoldsValid(m, kv, p);
    StoreIs(m, w, kv, p, x);
    var kv' := Store(ConfigOf(m), LayerOf(w), kv, Spread([x]), pos);
    var q := Remember(w, p, x);
    AttendIs(m, w, kv', q, x);
    MlpIs(m, w, AttendInt(w, q, x));
  }

  lemma EmbedIs(m: Small, t: nat)
    requires WholeModel(m) && t < |m.embed|
    ensures ValidConfig(ConfigOf(m)) && ConfigOf(m).d.vocab == |m.embed|
    ensures Embed(ConfigOf(m), t) == Spread([2 * m.embed[t]])
  {
    WholeIsValid(m);
    var e := Embed(ConfigOf(m), t);
    forall i | 0 <= i < 32 ensures e[i] == Float(2 * m.embed[t]) {
      BlockIndex(i, 32, 32);
      assert e[i] == OPS.embedScale(OPS.dequant(Q8, Block([m.embed[t]]), i));
      assert OPS.dequant(Q8, Block([m.embed[t]]), i) == DequantOf(Q8, Block([m.embed[t]]), i);
    }
  }

  function Floats(vals: seq<int>): (x: Vector)
    ensures |x| == |vals|
  {
    seq(|vals|, i requires 0 <= i < |vals| => Float(vals[i]))
  }

  lemma ClassifyIs(m: Small, x: int)
    requires WholeModel(m)
    ensures ValidConfig(ConfigOf(m)) && Classify(ConfigOf(m), Spread([x])) == Floats(LogitsInt(m, x))
  {
    hide Spread, MatVec, Times, Rms, ConfigOf, ValidConfig;
    WholeIsValid(m);
    SmallParts(m);
    ClassifyShaped(m);
    RmsIs(x, m.norm);
    ColumnEntries(m.output, Times(x, m.norm));
    var y := Classify(ConfigOf(m), Spread([x]));
    forall i | 0 <= i < |y| ensures y[i] == Float(Times(m.output[i], Times(x, m.norm)) - 1) {
      LogitScaled(Times(m.output[i], Times(x, m.norm)));
    }
  }

  lemma ClassifyShaped(m: Small)
    requires WholeModel(m)
    ensures Shaped(ConfigOf(m).output, ConfigOf(m).d.vocab, ConfigOf(m).d.dim)
  {
  }

  lemma LogitScaled(v: int)
    ensures OPS.logitScale(Float(v)) == Float(v - 1)
  {
    assert OPS.logitScale(Float(v)) == LogitScaleOf(Float(v));
  }

  /** A context without a past, whatever its cache rows hold. */
  ghost predicate Empty(m: Small, s: Session) {
    && s.pos == 0 && |s.kv| == |m.layers|
    && forall l | 0 <= l < |s.kv| :: Holds(s.kv[l], Past([], [])) && |s.kv[l].k| == m.ctx
  }

  /** Decoding a prompt on a small model is the computation over integers: for all
      weights, any number of layers and every prompt that fits. */
  lemma {:induction false} PromptIs(m: Small, s: Session, tokens: seq<nat>)
    requires WholeModel(m) && Empty(m, s) && |tokens| <= m.ctx && forall i | 0 <= i < |tokens| :: tokens[i] < |m.embed|
    ensures Fits(ConfigOf(m), s, tokens)
    ensures var s', r := Decode(ConfigOf(m), s, tokens), PromptInt(m, tokens);
      AllHold(m, s'.kv, r.1, 0, |tokens|) && (tokens != [] ==> s'.logits == Floats(LogitsInt(m, r.0)))
    decreases |tokens|
  {
    hide ConfigOf, Spread, Holds, ValidConfig, WholeModel, TokenLayers, TokenInt, Embed, Classify, LogitsInt;
    WholeIsValid(m);
    SmallParts(m);
    HoldValid(m, s.kv, seq(|m.layers|, _ => Past([], [])), 0, 0);
    if tokens != [] {
      var n := |tokens| - 1;
      PromptIs(m, s, tokens[..n]);
      var kv := Decode(ConfigOf(m), s, tokens[..n]).kv;
      var ps := PromptInt(m, tokens[..n]).1;
      var x := 2 * m.embed[tokens[n]];
      EmbedIs(m, tokens[n]);
      TokenIs(m, kv, ps, x, n, |m.layers|);
      ClassifyIs(m, TokenInt(m, ps, x, n, |m.layers|).0);
    }
  }

  // ---- Written numbers ----------------------------------------------------------------------------------------------

  const FIRST: Weights := Weights(-2, -2, 2, [-1, -3, -2, 2], [-3, -1], [-1, -2], [-3, 2, 3, -2], 1, -1, -2, 1)
  const SECOND: Weights := Weights(-1, -1, 1, [3, 2, -1, -2], [3, 2], [3, -3], [2, -1, -2, 3], 1, 1, 2, -2)

  const SAMPLE: Small := Small([-1, -2], [FIRST, SECOND], 2, [1, -3], 4)

  lemma HeadOne(q: int, p: Past, g: nat)
    requires |p.keys| == |p.values| >= 1 && g < 2 && Pairs(p.keys) && Pairs(p.values)
    ensures HeadInt(q, p, g, 1, 1) == Times((3 * p.keys[0][g] - q) % 5 + 1, p.values[0][g])
  {
    assert HeadInt(q, p, g, 1, 0) == 0;
  }

  lemma HeadTwo(q: int, p: Past, g: nat)
    requires |p.keys| == |p.values| >= 2 && g < 2 && Pairs(p.keys) && Pairs(p.values)
    ensures HeadInt(q, p, g, 2, 2) ==
      Times((3 * p.keys[0][g] - q) % 5 + 2, p.values[0][g]) + Times((3 * p.keys[1][g] - q) % 5 + 2, p.values[1][g])
  {
    hide Times;
    assert HeadInt(q, p, g, 2, 0) == 0;
    assert HeadInt(q, p, g, 2, 1) == Times((3 * p.keys[0][g] - q) % 5 + 2, p.values[0][g]);
  }

  const A0: Past := Past([[-43, -11]], [[-8, -16]])
  const B0: Past := Past([[-501, -333]], [[-252, 252]])
  const A1: Past := Past([[-43, -11], [-29, -5]], [[-8, -16], [-4, -8]])
  const B1: Past := Past([[-501, -333], [-878, -584]], [[-252, 252], [-294, 294]])

  lemma FirstOfOne()
    ensures Remember(FIRST, Past([], []), -4) == A0 && LayerInt(FIRST, A0, -4) == 84
  {
    hide HeadInt;
    HeadOne(-19, A0, 0);
    HeadOne(-51, A0, 0);
    HeadOne(-35, A0, 1);
    HeadOne(29, A0, 1);
    assert AttendInt(FIRST, A0, -4) == -84;
  }

  lemma SecondOfOne()
    ensures Remember(SECOND, Past([], []), 84) == B0 && LayerInt(SECOND, B0, 84) == 7308
  {
    hide HeadInt;
    HeadOne(-505, B0, 0);
    HeadOne(-337, B0, 0);
    HeadOne(167, B0, 1);
    HeadOne(335, B0, 1);
    assert AttendInt(SECOND, B0, 84) == -2436;
  }

  lemma FirstOfTwo()
    ensures Remember(FIRST, A0, -2) == A1 && LayerInt(FIRST, A1, -2) == 98
  {
    hide HeadInt;
    HeadTwo(-17, A1, 0);
    HeadTwo(-41, A1, 0);
    HeadTwo(-29, A1, 1);
    HeadTwo(19, A1, 1);
    assert AttendInt(FIRST, A1, -2) == -98;
  }

  lemma SecondOfTwo()
    ensures Remember(SECOND, B0, 98) == B1 && LayerInt(SECOND, B1, 98) == 2982
  {
    hide HeadInt;
    HeadTwo(-884, B1, 0);
    HeadTwo(-590, B1, 0);
    HeadTwo(292, B1, 1);
    HeadTwo(586, B1, 1);
    assert AttendInt(SECOND, B1, 98) == -994;
  }

  lemma TwoLayers(ps: seq<Past>, x: int, pos: nat, a: Past, y: int, b: Past, z: int)
    requires AllRemember(SAMPLE, ps, pos) && Remembers(a, pos + 1) && Remembers(b, pos + 1)
    requires Remember(FIRST, ps[0], x) == a && LayerInt(FIRST, a, x) == y
    requires Remember(SECOND, ps[1], y) == b && LayerInt(SECOND, b, y) == z
    ensures TokenInt(SAMPLE, ps, x, pos, 2) == (z, [a, b])
  {
    hide Remember, LayerInt;
    assert TokenInt(SAMPLE, ps, x, pos, 0) == (x, ps);
    assert ps[0 := a] == [a, ps[1]] && [a, ps[1]][1 := b] == [a, b];
    assert TokenInt(SAMPLE, ps, x, pos, 1) == (y, [a, ps[1]]);
  }

  lemma SampleOne()
    ensures PromptInt(SAMPLE, [1]) == (7308, [A0, B0])
  {
    hide Remember, LayerInt;
    FirstOfOne();
    SecondOfOne();
    var none := seq(2, _ => Past([], []));
    assert none == [Past([], []), Past([], [])];
    assert [1][..0] == [];
    assert PromptInt(SAMPLE, []).1 == none;
    var e := Past([], []);
    TwoLayers([e, e], -4, 0, A0, 84, B0, 7308);
  }

  lemma SampleTwo()
    ensures PromptInt(SAMPLE, [1, 0]).0 == 2982
  {
    hide Remember, LayerInt;
    FirstOfTwo();
    SecondOfTwo();
    SampleOne();
    assert [1, 0][..1] == [1];
    TwoLayers([A0, B0], -2, 1, A1, 98, B1, 2982);
  }

  /** The logits of one model after one token and after two. */
  lemma SampleLogits(s: Session)
    requires Empty(SAMPLE, s)
    ensures Fits(ConfigOf(SAMPLE), s, [1]) && Decode(ConfigOf(SAMPLE), s, [1]).logits == [Float(14615), Float(-43849)]
    ensures Fits(ConfigOf(SAMPLE), s, [1, 0]) && Decode(ConfigOf(SAMPLE), s, [1, 0]).logits == [Float(5963), Float(-17893)]
  {
    hide Decode, PromptInt, ConfigOf, Fits;
    SampleOne();
    SampleTwo();
    PromptIs(SAMPLE, s, [1]);
    PromptIs(SAMPLE, s, [1, 0]);
    assert Floats(LogitsInt(SAMPLE, 7308)) == [Float(14615), Float(-43849)];
    assert Floats(LogitsInt(SAMPLE, 2982)) == [Float(5963), Float(-17893)];
  }
}
