/** The two ways of running a prompt, as functions of values: token by token
    (all layers for one token) and batched (all tokens for one layer). The KV
    cache is seen as rows, one per layer and position. */
module Forward {
  import opened Numbers
  import opened Kernels
  import opened Wrappers

  datatype Dims = Dims(
    dim: nat, nLayers: nat, nHeads: nat, nKvHeads: nat, headDim: nat, ffnDim: nat, vocab: nat, ctx: nat)
  {
    function AttDim(): nat { nHeads * headDim }
    function KvDim(): nat { nKvHeads * headDim }
  }

  datatype Layer = Layer(
    attnNorm: seq<Float>, qkNorm: Option<(seq<Float>, seq<Float>)>,
    wq: Mat, wk: Mat, wv: Mat, wo: Mat,
    ffnNorm: seq<Float>, wGate: Mat, wUp: Mat, wDown: Mat)

  datatype Config = Config(o: Ops, d: Dims, embed: Mat, layers: seq<Layer>, outNorm: seq<Float>, output: Mat)

  type Vector = seq<Float>
  type CacheRow = seq<Half>
  /** Key and value rows of one layer, indexed by position. */
  datatype LayerCache = LayerCache(k: seq<CacheRow>, v: seq<CacheRow>)

  /** Shapes as checked when the context is built. */
  ghost predicate ValidLayer(d: Dims, w: Layer) {
    && Shaped(w.wq, d.AttDim(), d.dim) && Shaped(w.wk, d.KvDim(), d.dim) && Shaped(w.wv, d.KvDim(), d.dim)
    && Shaped(w.wo, d.dim, d.AttDim())
    && Shaped(w.wGate, d.ffnDim, d.dim) && Shaped(w.wUp, d.ffnDim, d.dim) && Shaped(w.wDown, d.dim, d.ffnDim)
  }

  /** Shapes agree, and the query heads divide evenly over the key heads, so
      that no head window leaves its cache row (see `HeadWindow`). */
  ghost predicate ValidConfig(c: Config) {
    && |c.layers| == c.d.nLayers
    && (forall l | 0 <= l < |c.layers| :: ValidLayer(c.d, c.layers[l]))
    && Shaped(c.embed, c.d.vocab, c.d.dim) && Shaped(c.output, c.d.vocab, c.d.dim)
    && c.d.nKvHeads > 0 && c.d.nHeads >= c.d.nKvHeads && c.d.nHeads % c.d.nKvHeads == 0
  }

  // ---- Element-wise routines ------------------------------------------------------

  function Rms(o: Ops, x: Vector, w: Vector): (y: Vector)
    ensures |y| == |x|
  {
    seq(|x|, i requires 0 <= i < |x| => o.rms(x, w, i))
  }

  function HeadNorm(o: Ops, x: Vector, w: Vector, hd: nat): (y: Vector)
    ensures |y| == |x|
  {
    seq(|x|, i requires 0 <= i < |x| => o.headNorm(x, w, hd, i))
  }

  function Rope(o: Ops, x: Vector, hd: nat, pos: nat): (y: Vector)
    ensures |y| == |x|
  {
    seq(|x|, i requires 0 <= i < |x| => o.rope(x, hd, pos, i))
  }

  function Residual(o: Ops, y: Vector, x: Vector): (z: Vector)
    requires |x| == |y|
    ensures |z| == |y|
  {
    seq(|y|, i requires 0 <= i < |y| => o.residual(y[i], x[i]))
  }

  function Swiglu(o: Ops, g: Vector, u: Vector): (z: Vector)
    requires |g| == |u|
    ensures |z| == |g|
  {
    seq(|g|, i requires 0 <= i < |g| => o.swiglu(g[i], u[i]))
  }

  function ToHalf(o: Ops, x: Vector): (y: CacheRow)
    ensures |y| == |x|
  {
    seq(|x|, i requires 0 <= i < |x| => o.toHalf(x[i]))
  }

  function Softmax(o: Ops, x: Vector): (y: Vector)
    ensures |y| == |x|
  {
    seq(|x|, i requires 0 <= i < |x| => o.softmax(x, i))
  }

  function Axpy(o: Ops, acc: Vector, a: Float, v: CacheRow): (y: Vector)
    ensures |y| == |acc|
  {
    seq(|acc|, i requires 0 <= i < |acc| => o.axpy(acc, a, v, i))
  }

  /** Token `t`'s embedding row, dequantized and scaled. */
  function Embed(c: Config, t: nat): (x: Vector)
    requires Shaped(c.embed, c.d.vocab, c.d.dim) && t < c.d.vocab
    ensures |x| == c.d.dim
  {
    var bpr := c.d.dim / BlockSize(c.embed.dtype);
    RowFits(t, c.d.vocab, bpr, |c.embed.blocks|);
    var blocks := Row(c.embed.blocks, t, bpr);
    seq(c.d.dim, i requires 0 <= i < c.d.dim =>
      BlockIndex(i, c.d.dim, BlockSize(c.embed.dtype));
      c.o.embedScale(c.o.dequant(c.embed.dtype, blocks[i / BlockSize(c.embed.dtype)], i % BlockSize(c.embed.dtype))))
  }

  lemma BlockIndex(i: nat, n: nat, size: nat)
    requires size > 0 && i < n && n % size == 0
    ensures i / size < n / size
  {
    var q, m := i / size, i % size;
    assert i == q * size + m;
    if q >= n / size {
      MulMono(n / size, q, size);
    }
  }

  // ---- Attention ---------------------------------------------------------------------

  /** Where head `h` reads inside a cache row. */
  function HeadOffset(d: Dims, h: nat): nat
    requires d.nKvHeads > 0 && d.nHeads >= d.nKvHeads
  {
    GroupPositive(d);
    (h / (d.nHeads / d.nKvHeads)) * d.headDim
  }

  lemma GroupPositive(d: Dims)
    requires d.nKvHeads > 0 && d.nHeads >= d.nKvHeads
    ensures d.nHeads / d.nKvHeads > 0
  {
    var q, m := d.nHeads / d.nKvHeads, d.nHeads % d.nKvHeads;
    assert d.nHeads == q * d.nKvHeads + m;
  }

  lemma HeadWindow(c: Config, h: nat)
    requires ValidConfig(c) && h < c.d.nHeads
    ensures HeadOffset(c.d, h) + c.d.headDim <= c.d.KvDim()
    ensures h * c.d.headDim <= (h + 1) * c.d.headDim <= c.d.AttDim()
  {
    var g := c.d.nHeads / c.d.nKvHeads;
    GroupPositive(c.d);
    assert c.d.nHeads == g * c.d.nKvHeads;
    BlockIndex(h, c.d.nHeads, g) by { MultipleOf(g, c.d.nKvHeads); }
    assert c.d.nHeads / g == c.d.nKvHeads by { MultipleOf(g, c.d.nKvHeads); }
    MulMono(h / g + 1, c.d.nKvHeads, c.d.headDim);
    MulStep(h / g, c.d.headDim);
    MulMono(h + 1, c.d.nHeads, c.d.headDim);
    MulMono(h, h + 1, c.d.headDim);
  }

  lemma MultipleOf(g: nat, k: nat)
    requires g > 0
    ensures (g * k) % g == 0 && (g * k) / g == k
  {
    var x := g * k;
    var q, m := x / g, x % g;
    assert x == g * q + m;
    assert q + 1 <= k ==> g * (q + 1) <= g * k;
    assert q >= k + 1 ==> g * q >= g * (k + 1);
  }

  /** Every head's window lies inside a cache row. */
  ghost predicate WindowsFit(d: Dims)
    requires d.nKvHeads > 0 && d.nHeads >= d.nKvHeads
  {
    forall h: nat | h < d.nHeads :: HeadOffset(d, h) + d.headDim <= d.KvDim()
  }

  /** Nothing in the source checks that the key heads divide the query heads,
      but without it some head reads past its row. */
  lemma WindowsFitIff(d: Dims)
    requires d.nKvHeads > 0 && d.nHeads >= d.nKvHeads && d.headDim > 0
    ensures WindowsFit(d) <==> d.nHeads % d.nKvHeads == 0
  {
    var g, m := d.nHeads / d.nKvHeads, d.nHeads % d.nKvHeads;
    GroupPositive(d);
    assert d.nHeads == g * d.nKvHeads + m;
    if m > 0 {
      var h := g * d.nKvHeads;
      MulNat(g, d.nKvHeads);
      MultipleOf(g, d.nKvHeads);
      assert HeadOffset(d, h) == d.nKvHeads * d.headDim;
    } else {
      forall h: nat | h < d.nHeads ensures HeadOffset(d, h) + d.headDim <= d.KvDim() {
        MultipleOf(g, d.nKvHeads);
        BlockIndex(h, d.nHeads, g);
        MulMono(h / g + 1, d.nKvHeads, d.headDim);
        MulStep(h / g, d.headDim);
      }
    }
  }

  ghost predicate ValidLayerCache(d: Dims, kv: LayerCache) {
    && |kv.k| == d.ctx && |kv.v| == d.ctx
    && (forall t | 0 <= t < d.ctx :: |kv.k[t]| == d.KvDim() && |kv.v[t]| == d.KvDim())
  }

  ghost predicate ValidCache(d: Dims, kv: seq<LayerCache>) {
    |kv| == d.nLayers && forall l | 0 <= l < |kv| :: ValidLayerCache(d, kv[l])
  }

  /** One head's query against the first `n` key rows. */
  function ScoreRows(o: Ops, k: seq<CacheRow>, off: nat, hd: nat, qh: Vector, n: nat): (s: Vector)
    requires n <= |k| && forall t | 0 <= t < |k| :: off + hd <= |k[t]|
    ensures |s| == n
  {
    seq(n, t requires 0 <= t < n => o.score(k[t][off..off + hd], qh))
  }

  /** Head `h`'s scores against positions `0..n` of the cache. */
  function Scores(c: Config, q: Vector, k: seq<CacheRow>, n: nat, h: nat): (s: Vector)
    requires ValidConfig(c) && |q| == c.d.AttDim() && h < c.d.nHeads
    requires n <= |k| && forall t | 0 <= t < |k| :: |k[t]| == c.d.KvDim()
    ensures |s| == n
  {
    HeadWindow(c, h);
    var off, hd := HeadOffset(c.d, h), c.d.headDim;
    ScoreRows(c.o, k, off, hd, Row(q, h, hd), n)
  }

  /** The weighted sum of the first `n` value rows, accumulated in order. */
  function Mix(c: Config, probs: Vector, v: seq<CacheRow>, n: nat, h: nat): (s: Vector)
    requires ValidConfig(c) && h < c.d.nHeads
    requires n <= |probs| && n <= |v| && forall t | 0 <= t < |v| :: |v[t]| == c.d.KvDim()
    ensures |s| == c.d.headDim
  {
    HeadWindow(c, h);
    var off, hd := HeadOffset(c.d, h), c.d.headDim;
    if n == 0 then seq(hd, _ => c.o.zero)
    else Axpy(c.o, Mix(c, probs, v, n - 1, h), probs[n - 1], v[n - 1][off..off + hd])
  }

  function HeadOut(c: Config, q: Vector, kv: LayerCache, pos: nat, h: nat): (s: Vector)
    requires ValidConfig(c) && |q| == c.d.AttDim() && h < c.d.nHeads
    requires ValidLayerCache(c.d, kv) && pos < c.d.ctx
    ensures |s| == c.d.headDim
  {
    Mix(c, Softmax(c.o, Scores(c, q, kv.k, pos + 1, h)), kv.v, pos + 1, h)
  }

  /** The outputs of the first `n` heads, side by side. */
  function Heads(c: Config, q: Vector, kv: LayerCache, pos: nat, n: nat): (s: Vector)
    requires ValidConfig(c) && |q| == c.d.AttDim() && n <= c.d.nHeads
    requires ValidLayerCache(c.d, kv) && pos < c.d.ctx
    ensures |s| == n * c.d.headDim
  {
    if n == 0 then []
    else MulStep(n - 1, c.d.headDim); Heads(c, q, kv, pos, n - 1) + HeadOut(c, q, kv, pos, n - 1)
  }

  // ---- One layer of one token ------------------------------------------------------------

  function Query(c: Config, w: Layer, x: Vector, pos: nat): (q: Vector)
    requires ValidLayer(c.d, w) && |x| == c.d.dim
    ensures |q| == c.d.AttDim()
  {
    var q := MatVec(c.o, w.wq, c.d.AttDim(), Rms(c.o, x, w.attnNorm));
    var q' := if w.qkNorm.Some? then HeadNorm(c.o, q, w.qkNorm.value.0, c.d.headDim) else q;
    Rope(c.o, q', c.d.headDim, pos)
  }

  function Key(c: Config, w: Layer, x: Vector, pos: nat): (k: Vector)
    requires ValidLayer(c.d, w) && |x| == c.d.dim
    ensures |k| == c.d.KvDim()
  {
    var k := MatVec(c.o, w.wk, c.d.KvDim(), Rms(c.o, x, w.attnNorm));
    var k' := if w.qkNorm.Some? then HeadNorm(c.o, k, w.qkNorm.value.1, c.d.headDim) else k;
    Rope(c.o, k', c.d.headDim, pos)
  }

  function Value(c: Config, w: Layer, x: Vector): (v: Vector)
    requires ValidLayer(c.d, w) && |x| == c.d.dim
    ensures |v| == c.d.KvDim()
  {
    MatVec(c.o, w.wv, c.d.KvDim(), Rms(c.o, x, w.attnNorm))
  }

  /** Write the token's key and value rows at `pos`. */
  function Store(c: Config, w: Layer, kv: LayerCache, x: Vector, pos: nat): (kv': LayerCache)
    requires ValidLayer(c.d, w) && |x| == c.d.dim && ValidLayerCache(c.d, kv) && pos < c.d.ctx
    ensures ValidLayerCache(c.d, kv')
  {
    LayerCache(kv.k[pos := ToHalf(c.o, Key(c, w, x, pos))], kv.v[pos := ToHalf(c.o, Value(c, w, x))])
  }

  function AfterAttention(c: Config, w: Layer, kv: LayerCache, x: Vector, pos: nat): (y: Vector)
    requires ValidConfig(c) && ValidLayer(c.d, w) && |x| == c.d.dim && ValidLayerCache(c.d, kv) && pos < c.d.ctx
    ensures |y| == c.d.dim
  {
    var a := Heads(c, Query(c, w, x, pos), kv, pos, c.d.nHeads);
    Residual(c.o, x, MatVec(c.o, w.wo, c.d.dim, a))
  }

  function AfterMlp(c: Config, w: Layer, x: Vector): (y: Vector)
    requires ValidLayer(c.d, w) && |x| == c.d.dim
    ensures |y| == c.d.dim
  {
    var n := Rms(c.o, x, w.ffnNorm);
    var g := Swiglu(c.o, MatVec(c.o, w.wGate, c.d.ffnDim, n), MatVec(c.o, w.wUp, c.d.ffnDim, n));
    Residual(c.o, x, MatVec(c.o, w.wDown, c.d.dim, g))
  }

  /** The hidden state a layer leaves, given a cache that already holds the
      token's own row. */
  function LayerOut(c: Config, w: Layer, kv: LayerCache, x: Vector, pos: nat): (y: Vector)
    requires ValidConfig(c) && ValidLayer(c.d, w) && |x| == c.d.dim && ValidLayerCache(c.d, kv) && pos < c.d.ctx
    ensures |y| == c.d.dim
  {
    AfterMlp(c, w, AfterAttention(c, w, kv, x, pos))
  }

  /** Final norm and classifier. */
  function Classify(c: Config, x: Vector): (y: Vector)
    requires Shaped(c.output, c.d.vocab, c.d.dim) && |x| == c.d.dim
    ensures |y| == c.d.vocab
  {
    var y := MatVec(c.o, c.output, c.d.vocab, Rms(c.o, x, c.outNorm));
    seq(c.d.vocab, i requires 0 <= i < c.d.vocab => c.o.logitScale(y[i]))
  }

  // ---- Token by token -----------------------------------------------------------------------

  /** What outlives a call: position, cache and logits. */
  datatype Session = Session(pos: nat, kv: seq<LayerCache>, logits: Vector)

  ghost predicate ValidSession(c: Config, s: Session) {
    ValidConfig(c) && ValidCache(c.d, s.kv) && s.pos <= c.d.ctx
  }

  /** Hidden state and cache after the first `n` layers of one token. */
  function TokenLayers(c: Config, kv: seq<LayerCache>, x: Vector, pos: nat, n: nat): (r: (Vector, seq<LayerCache>))
    requires ValidConfig(c) && ValidCache(c.d, kv) && |x| == c.d.dim && pos < c.d.ctx && n <= c.d.nLayers
    ensures |r.0| == c.d.dim && ValidCache(c.d, r.1)
  {
    if n == 0 then (x, kv)
    else
      var (y, kv1) := TokenLayers(c, kv, x, pos, n - 1);
      var w := c.layers[n - 1];
      var kv2 := Store(c, w, kv1[n - 1], y, pos);
      (LayerOut(c, w, kv2, y, pos), kv1[n - 1 := kv2])
  }

  function Step(c: Config, s: Session, token: nat): (s': Session)
    requires ValidSession(c, s) && s.pos < c.d.ctx && token < c.d.vocab
    ensures ValidSession(c, s') && s'.pos == s.pos + 1
  {
    var (x, kv) := TokenLayers(c, s.kv, Embed(c, token), s.pos, c.d.nLayers);
    Session(s.pos + 1, kv, Classify(c, x))
  }

  ghost predicate Fits(c: Config, s: Session, tokens: seq<nat>) {
    && ValidSession(c, s) && s.pos + |tokens| <= c.d.ctx
    && forall i | 0 <= i < |tokens| :: tokens[i] < c.d.vocab
  }

  /** Sequential decode of a prompt. */
  function Decode(c: Config, s: Session, tokens: seq<nat>): (s': Session)
    requires Fits(c, s, tokens)
    ensures ValidSession(c, s') && s'.pos == s.pos + |tokens|
  {
    if tokens == [] then s
    else
      var n := |tokens| - 1;
      Step(c, Decode(c, s, tokens[..n]), tokens[n])
  }

  // ---- Batched ---------------------------------------------------------------------------------

  ghost predicate Rows(c: Config, xs: seq<Vector>) {
    forall i | 0 <= i < |xs| :: |xs[i]| == c.d.dim
  }

  /** One layer's cache after the first `n` batch tokens have been appended. */
  function StoreAll(c: Config, w: Layer, kv: LayerCache, xs: seq<Vector>, base: nat, n: nat): (kv': LayerCache)
    requires ValidLayer(c.d, w) && Rows(c, xs) && ValidLayerCache(c.d, kv) && n <= |xs| && base + n <= c.d.ctx
    ensures ValidLayerCache(c.d, kv')
  {
    if n == 0 then kv else Store(c, w, StoreAll(c, w, kv, xs, base, n - 1), xs[n - 1], base + n - 1)
  }

  /** Every row through one layer, all keys and values written first. */
  function BatchLayer(c: Config, w: Layer, kv: LayerCache, xs: seq<Vector>, base: nat): (ys: seq<Vector>)
    requires ValidConfig(c) && ValidLayer(c.d, w) && Rows(c, xs) && ValidLayerCache(c.d, kv) && base + |xs| <= c.d.ctx
    ensures |ys| == |xs| && Rows(c, ys)
  {
    var kv' := StoreAll(c, w, kv, xs, base, |xs|);
    seq(|xs|, i requires 0 <= i < |xs| => LayerOut(c, w, kv', xs[i], base + i))
  }

  function BatchLayers(c: Config, kv: seq<LayerCache>, xs: seq<Vector>, base: nat, n: nat): (r: (seq<Vector>, seq<LayerCache>))
    requires ValidConfig(c) && ValidCache(c.d, kv) && Rows(c, xs) && base + |xs| <= c.d.ctx && n <= c.d.nLayers
    ensures |r.0| == |xs| && Rows(c, r.0) && ValidCache(c.d, r.1)
  {
    if n == 0 then (xs, kv)
    else
      var (ys, kv1) := BatchLayers(c, kv, xs, base, n - 1);
      var w := c.layers[n - 1];
      (BatchLayer(c, w, kv1[n - 1], ys, base), kv1[n - 1 := StoreAll(c, w, kv1[n - 1], ys, base, |ys|)])
  }

  function EmbedAll(c: Config, tokens: seq<nat>): (xs: seq<Vector>)
    requires Shaped(c.embed, c.d.vocab, c.d.dim) && forall i | 0 <= i < |tokens| :: tokens[i] < c.d.vocab
    ensures |xs| == |tokens| && Rows(c, xs)
  {
    seq(|tokens|, i requires 0 <= i < |tokens| => Embed(c, tokens[i]))
  }

  /** One batched chunk: layer by layer, logits of the last token only. */
  function Chunk(c: Config, s: Session, tokens: seq<nat>): (s': Session)
    requires Fits(c, s, tokens) && tokens != []
    ensures ValidSession(c, s') && s'.pos == s.pos + |tokens|
  {
    var (xs, kv) := BatchLayers(c, s.kv, EmbedAll(c, tokens), s.pos, c.d.nLayers);
    Session(s.pos + |tokens|, kv, Classify(c, xs[|tokens| - 1]))
  }

  // ---- Causality ---------------------------------------------------------------------------------

  /** Two layer caches that a token at `pos` cannot tell apart. */
  ghost predicate SamePast(a: LayerCache, b: LayerCache, pos: nat) {
    && |a.k| == |b.k| && |a.v| == |b.v|
    && (forall t | 0 <= t <= pos && t < |a.k| :: a.k[t] == b.k[t])
    && (forall t | 0 <= t <= pos && t < |a.v| :: a.v[t] == b.v[t])
  }

  lemma {:induction false} MixFrame(c: Config, probs: Vector, v: seq<CacheRow>, v': seq<CacheRow>, n: nat, h: nat)
    requires ValidConfig(c) && h < c.d.nHeads && n <= |probs| && n <= |v| == |v'|
    requires forall t | 0 <= t < |v| :: |v[t]| == |v'[t]| == c.d.KvDim()
    requires forall t | 0 <= t < n :: v[t] == v'[t]
    ensures Mix(c, probs, v, n, h) == Mix(c, probs, v', n, h)
    decreases n
  {
    if n > 0 {
      MixFrame(c, probs, v, v', n - 1, h);
    }
  }

  lemma HeadFrame(c: Config, q: Vector, a: LayerCache, b: LayerCache, pos: nat, h: nat)
    requires ValidConfig(c) && |q| == c.d.AttDim() && h < c.d.nHeads && pos < c.d.ctx
    requires ValidLayerCache(c.d, a) && ValidLayerCache(c.d, b) && SamePast(a, b, pos)
    ensures HeadOut(c, q, a, pos, h) == HeadOut(c, q, b, pos, h)
  {
    var s, s' := Scores(c, q, a.k, pos + 1, h), Scores(c, q, b.k, pos + 1, h);
    assert forall t | 0 <= t < pos + 1 :: a.k[t] == b.k[t];
    assert s == s';
    MixFrame(c, Softmax(c.o, s), a.v, b.v, pos + 1, h);
  }

  lemma {:induction false} HeadsFrame(c: Config, q: Vector, a: LayerCache, b: LayerCache, pos: nat, n: nat)
    requires ValidConfig(c) && |q| == c.d.AttDim() && n <= c.d.nHeads && pos < c.d.ctx
    requires ValidLayerCache(c.d, a) && ValidLayerCache(c.d, b) && SamePast(a, b, pos)
    ensures Heads(c, q, a, pos, n) == Heads(c, q, b, pos, n)
    decreases n
  {
    if n > 0 {
      HeadsFrame(c, q, a, b, pos, n - 1);
      HeadFrame(c, q, a, b, pos, n - 1);
    }
  }

  /** A token's layer output depends only on cache rows up to its own. */
  lemma Causal(c: Config, w: Layer, a: LayerCache, b: LayerCache, x: Vector, pos: nat)
    requires ValidConfig(c) && ValidLayer(c.d, w) && |x| == c.d.dim && pos < c.d.ctx
    requires ValidLayerCache(c.d, a) && ValidLayerCache(c.d, b) && SamePast(a, b, pos)
    ensures LayerOut(c, w, a, x, pos) == LayerOut(c, w, b, x, pos)
  {
    HeadsFrame(c, Query(c, w, x, pos), a, b, pos, c.d.nHeads);
  }
}
