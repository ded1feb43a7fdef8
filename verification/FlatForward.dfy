/** The two ways of running a prompt once more, on the flat cache and for any head
    counts; where the key heads divide the query heads they are those of `Forward`. */
module FlatForward {
  import opened Numbers
  import opened Kernels
  import opened Activations
  import opened RowOps
  import opened Forward
  import opened Wrappers
  import Infer
  import Interchange

  datatype FlatCache = FlatCache(k: seq<Half>, v: seq<Half>)

  /** Shapes agree; the head counts need not divide. */
  ghost predicate Shapes(c: Config) {
    && |c.layers| == c.d.nLayers
    && (forall l | 0 <= l < |c.layers| :: ValidLayer(c.d, c.layers[l]))
    && Shaped(c.embed, c.d.vocab, c.d.dim) && Shaped(c.output, c.d.vocab, c.d.dim)
    && c.d.nKvHeads > 0 && c.d.nHeads >= c.d.nKvHeads
  }

  /** Where row `t` of layer `l` starts. */
  function RowAt(d: Dims, l: nat, t: nat): nat {
    RowStart(At(l, t, d.ctx), d.KvDim())
  }

  /** `hd` values from `at` on; nothing where the source would stop. */
  function Window(flat: seq<Half>, at: nat, hd: nat): seq<Half> {
    if at + hd <= |flat| then flat[at..at + hd] else []
  }

  function FlatMix(c: Config, probs: Vector, v: seq<Half>, l: nat, n: nat, h: nat): (s: Vector)
    requires c.d.nKvHeads > 0 && c.d.nHeads >= c.d.nKvHeads && n <= |probs|
    ensures |s| == c.d.headDim
  {
    if n == 0 then seq(c.d.headDim, _ => c.o.zero)
    else
      Axpy(c.o, FlatMix(c, probs, v, l, n - 1, h), probs[n - 1],
           Window(v, RowAt(c.d, l, n - 1) + HeadOffset(c.d, h), c.d.headDim))
  }

  function FlatScores(c: Config, q: Vector, k: seq<Half>, l: nat, n: nat, h: nat): (s: Vector)
    requires c.d.nKvHeads > 0 && c.d.nHeads >= c.d.nKvHeads && (h + 1) * c.d.headDim <= |q|
    ensures |s| == n
  {
    seq(n, t requires 0 <= t < n =>
      c.o.score(Window(k, RowAt(c.d, l, t) + HeadOffset(c.d, h), c.d.headDim), Row(q, h, c.d.headDim)))
  }

  /** One head against the flat cache. */
  function FlatHead(c: Config, q: Vector, kv: FlatCache, l: nat, pos: nat, h: nat): (s: Vector)
    requires c.d.nKvHeads > 0 && c.d.nHeads >= c.d.nKvHeads && (h + 1) * c.d.headDim <= |q|
    ensures |s| == c.d.headDim
  {
    FlatMix(c, Softmax(c.o, FlatScores(c, q, kv.k, l, pos + 1, h)), kv.v, l, pos + 1, h)
  }

  function FlatHeads(c: Config, q: Vector, kv: FlatCache, l: nat, pos: nat, n: nat): (s: Vector)
    requires c.d.nKvHeads > 0 && c.d.nHeads >= c.d.nKvHeads && |q| == c.d.AttDim() && n <= c.d.nHeads
    ensures |s| == n * c.d.headDim
  {
    if n == 0 then []
    else
      MulStep(n - 1, c.d.headDim);
      MulMono(n, c.d.nHeads, c.d.headDim);
      FlatHeads(c, q, kv, l, pos, n - 1) + FlatHead(c, q, kv, l, pos, n - 1)
  }

  function WithRow(flat: seq<Half>, at: nat, row: CacheRow): (r: seq<Half>)
    ensures |r| == |flat|
  {
    if at + |row| <= |flat| then flat[..at] + row + flat[at + |row|..] else flat
  }

  function FlatStore(c: Config, l: nat, kv: FlatCache, x: Vector, pos: nat): FlatCache
    requires Shapes(c) && l < c.d.nLayers && |x| == c.d.dim
  {
    var w, at := c.layers[l], RowAt(c.d, l, pos);
    FlatCache(WithRow(kv.k, at, ToHalf(c.o, Key(c, w, x, pos))), WithRow(kv.v, at, ToHalf(c.o, Value(c, w, x))))
  }

  function FlatLayer(c: Config, l: nat, kv: FlatCache, x: Vector, pos: nat): (y: Vector)
    requires Shapes(c) && l < c.d.nLayers && |x| == c.d.dim
    ensures |y| == c.d.dim
  {
    var w := c.layers[l];
    var a := FlatHeads(c, Query(c, w, x, pos), kv, l, pos, c.d.nHeads);
    AfterMlp(c, w, Residual(c.o, x, MatVec(c.o, w.wo, c.d.dim, a)))
  }

  /** All layers for one token. */
  function FlatToken(c: Config, kv: FlatCache, x: Vector, pos: nat, n: nat): (r: (Vector, FlatCache))
    requires Shapes(c) && |x| == c.d.dim && n <= c.d.nLayers
    ensures |r.0| == c.d.dim
  {
    if n == 0 then (x, kv)
    else
      var (y, kv1) := FlatToken(c, kv, x, pos, n - 1);
      var kv2 := FlatStore(c, n - 1, kv1, y, pos);
      (FlatLayer(c, n - 1, kv2, y, pos), kv2)
  }

  /** Token by token: the last token's logits. */
  function FlatDecode(c: Config, kv: FlatCache, pos: nat, tokens: seq<nat>): (r: (Vector, FlatCache))
    requires Shapes(c) && forall i | 0 <= i < |tokens| :: tokens[i] < c.d.vocab
  {
    if tokens == [] then ([], kv)
    else
      var n := |tokens| - 1;
      var (x, kv') := FlatToken(c, FlatDecode(c, kv, pos, tokens[..n]).1, Embed(c, tokens[n]), pos + n, c.d.nLayers);
      (Classify(c, x), kv')
  }

  function FlatStoreAll(c: Config, l: nat, kv: FlatCache, xs: seq<Vector>, base: nat, n: nat): FlatCache
    requires Shapes(c) && l < c.d.nLayers && Rows(c, xs) && n <= |xs|
  {
    if n == 0 then kv else FlatStore(c, l, FlatStoreAll(c, l, kv, xs, base, n - 1), xs[n - 1], base + n - 1)
  }

  function FlatLayerAll(c: Config, l: nat, kv: FlatCache, xs: seq<Vector>, base: nat): (ys: seq<Vector>)
    requires Shapes(c) && l < c.d.nLayers && Rows(c, xs)
    ensures |ys| == |xs| && Rows(c, ys)
  {
    seq(|xs|, i requires 0 <= i < |xs| => FlatLayer(c, l, kv, xs[i], base + i))
  }

  /** All tokens for one layer, then the next. */
  function FlatBatch(c: Config, kv: FlatCache, xs: seq<Vector>, base: nat, n: nat): (r: (seq<Vector>, FlatCache))
    requires Shapes(c) && Rows(c, xs) && n <= c.d.nLayers
    ensures |r.0| == |xs| && Rows(c, r.0)
  {
    if n == 0 then (xs, kv)
    else
      var (ys, kv1) := FlatBatch(c, kv, xs, base, n - 1);
      var kv2 := FlatStoreAll(c, n - 1, kv1, ys, base, |ys|);
      (FlatLayerAll(c, n - 1, kv2, ys, base), kv2)
  }

  /** Batched: the last token's logits. */
  function FlatChunk(c: Config, kv: FlatCache, pos: nat, tokens: seq<nat>): (r: (Vector, FlatCache))
    requires Shapes(c) && tokens != [] && forall i | 0 <= i < |tokens| :: tokens[i] < c.d.vocab
  {
    var (xs, kv') := FlatBatch(c, kv, EmbedAll(c, tokens), pos, c.d.nLayers);
    (Classify(c, xs[|tokens| - 1]), kv')
  }

  // ---- When the windows fit, nothing is new ------------------------------------------------

  /** A window inside its row is the same window of the row. */
  lemma WindowInRow(d: Dims, flat: seq<Half>, l: nat, t: nat, off: nat)
    requires l < d.nLayers && t < d.ctx && |flat| == d.nLayers * d.ctx * d.KvDim() && off + d.headDim <= d.KvDim()
    ensures Window(flat, RowAt(d, l, t) + off, d.headDim) == Infer.LayerRows(d, flat, l)[t][off..off + d.headDim]
  {
    hide Row, At, RowStart;
    Infer.CacheIndex(d, l, t, |flat|);
    RowIsSlice(flat, At(l, t, d.ctx), d.KvDim());
    SliceOfSlice(flat, RowAt(d, l, t), d.KvDim(), off, d.headDim);
  }

  lemma RowIsSlice(flat: seq<Half>, r: nat, width: nat)
    requires (r + 1) * width <= |flat|
    ensures var s := RowStart(r, width); s + width <= |flat| && Row(flat, r, width) == flat[s..s + width]
  {
    RowSlice(flat, r, width);
  }

  lemma SliceOfSlice(flat: seq<Half>, s: nat, width: nat, off: nat, n: nat)
    requires s + width <= |flat| && off + n <= width
    ensures flat[s..s + width][off..off + n] == flat[s + off..s + off + n]
  {
    var row, w := flat[s..s + width], flat[s + off..s + off + n];
    forall k | 0 <= k < n ensures row[off..off + n][k] == w[k] {
      assert row[off + k] == flat[s + (off + k)];
    }
  }

  lemma {:induction false} MixAgrees(c: Config, probs: Vector, kv: FlatCache, l: nat, n: nat, h: nat)
    requires ValidConfig(c) && l < c.d.nLayers && h < c.d.nHeads && n <= |probs| && n <= c.d.ctx
    requires |kv.v| == c.d.nLayers * c.d.ctx * c.d.KvDim()
    ensures FlatMix(c, probs, kv.v, l, n, h) == Mix(c, probs, Infer.LayerRows(c.d, kv.v, l), n, h)
    decreases n
  {
    hide Infer.LayerRows, Axpy, Window;
    HeadWindow(c, h);
    if n > 0 {
      MixAgrees(c, probs, kv, l, n - 1, h);
      WindowInRow(c.d, kv.v, l, n - 1, HeadOffset(c.d, h));
    }
  }

  /** A head sees exactly what `Forward` gives it. */
  lemma HeadAgrees(c: Config, q: Vector, kv: FlatCache, l: nat, pos: nat, h: nat)
    requires ValidConfig(c) && |q| == c.d.AttDim() && l < c.d.nLayers && h < c.d.nHeads && pos < c.d.ctx
    requires |kv.k| == |kv.v| == c.d.nLayers * c.d.ctx * c.d.KvDim()
    ensures (h + 1) * c.d.headDim <= |q|
    ensures FlatHead(c, q, kv, l, pos, h) == HeadOut(c, q, Infer.LayerOf(c.d, kv.k, kv.v, l), pos, h)
  {
    hide Infer.LayerRows, Window, Softmax, Mix, FlatMix;
    HeadWindow(c, h);
    var rows := Infer.LayerRows(c.d, kv.k, l);
    var s := FlatScores(c, q, kv.k, l, pos + 1, h);
    forall t | 0 <= t < pos + 1 ensures s[t] == Scores(c, q, rows, pos + 1, h)[t] {
      WindowInRow(c.d, kv.k, l, t, HeadOffset(c.d, h));
    }
    assert s == Scores(c, q, rows, pos + 1, h);
    MixAgrees(c, Softmax(c.o, s), kv, l, pos + 1, h);
  }

  ghost predicate Sized(c: Config, kv: FlatCache) {
    |kv.k| == |kv.v| == c.d.nLayers * c.d.ctx * c.d.KvDim()
  }

  /** The flat cache as rows. */
  ghost function RowsOf(c: Config, kv: FlatCache): (r: seq<LayerCache>)
    requires Sized(c, kv)
    ensures ValidCache(c.d, r)
  {
    Infer.CacheOf(c.d, kv.k, kv.v)
  }

  /** One row written, and nothing else. */
  lemma RowWritten(d: Dims, flat: seq<Half>, l: nat, pos: nat, row: CacheRow)
    requires l < d.nLayers && pos < d.ctx && |flat| == d.nLayers * d.ctx * d.KvDim() && |row| == d.KvDim()
    ensures var flat' := WithRow(flat, RowAt(d, l, pos), row);
      && Infer.LayerRows(d, flat', l) == Infer.LayerRows(d, flat, l)[pos := row]
      && forall m | 0 <= m < d.nLayers && m != l :: Infer.LayerRows(d, flat', m) == Infer.LayerRows(d, flat, m)
  {
    hide Infer.LayerRows, Row, At;
    Infer.CacheIndex(d, l, pos, |flat|);
    var r, width := At(l, pos, d.ctx), d.KvDim();
    SpliceOnly(flat, r, width, row);
    Infer.StoreRow(d, flat, WithRow(flat, RowAt(d, l, pos), row), l, pos, row);
  }

  lemma SpliceOnly(flat: seq<Half>, r: nat, width: nat, row: CacheRow)
    requires (r + 1) * width <= |flat| && |row| == width
    ensures var flat' := WithRow(flat, RowStart(r, width), row); OnlyRow(flat, flat', r, width) && RowIs(flat', r, width, row)
  {
    hide Row;
    var s := RowStart(r, width);
    var flat' := WithRow(flat, s, row);
    RowIsSlice(flat', r, width);
    assert flat'[s..s + width] == row;
  }

  lemma StoreAgrees(c: Config, l: nat, kv: FlatCache, x: Vector, pos: nat)
    requires ValidConfig(c) && Sized(c, kv) && l < c.d.nLayers && |x| == c.d.dim && pos < c.d.ctx
    ensures Sized(c, FlatStore(c, l, kv, x, pos))
    ensures RowsOf(c, FlatStore(c, l, kv, x, pos)) == RowsOf(c, kv)[l := Store(c, c.layers[l], RowsOf(c, kv)[l], x, pos)]
  {
    hide Infer.LayerRows, Key, Value, Shaped, WithRow, RowAt;
    var w := c.layers[l];
    RowWritten(c.d, kv.k, l, pos, ToHalf(c.o, Key(c, w, x, pos)));
    RowWritten(c.d, kv.v, l, pos, ToHalf(c.o, Value(c, w, x)));
  }

  lemma {:induction false} HeadsAgree(c: Config, q: Vector, kv: FlatCache, l: nat, pos: nat, n: nat)
    requires ValidConfig(c) && Sized(c, kv) && |q| == c.d.AttDim() && l < c.d.nLayers && n <= c.d.nHeads && pos < c.d.ctx
    ensures FlatHeads(c, q, kv, l, pos, n) == Heads(c, q, RowsOf(c, kv)[l], pos, n)
    decreases n
  {
    hide FlatHead, HeadOut, Shaped, Infer.LayerRows;
    if n > 0 {
      HeadsAgree(c, q, kv, l, pos, n - 1);
      HeadAgrees(c, q, kv, l, pos, n - 1);
    }
  }

  lemma LayerAgrees(c: Config, l: nat, kv: FlatCache, x: Vector, pos: nat)
    requires ValidConfig(c) && Sized(c, kv) && l < c.d.nLayers && |x| == c.d.dim && pos < c.d.ctx
    ensures FlatLayer(c, l, kv, x, pos) == LayerOut(c, c.layers[l], RowsOf(c, kv)[l], x, pos)
  {
    hide FlatHeads, Heads, Shaped, MatVec, Query, AfterMlp, Infer.LayerRows;
    HeadsAgree(c, Query(c, c.layers[l], x, pos), kv, l, pos, c.d.nHeads);
  }

  lemma {:induction false} TokenAgrees(c: Config, kv: FlatCache, x: Vector, pos: nat, n: nat)
    requires ValidConfig(c) && Sized(c, kv) && |x| == c.d.dim && pos < c.d.ctx && n <= c.d.nLayers
    ensures Sized(c, FlatToken(c, kv, x, pos, n).1)
    ensures (FlatToken(c, kv, x, pos, n).0, RowsOf(c, FlatToken(c, kv, x, pos, n).1)) == TokenLayers(c, RowsOf(c, kv), x, pos, n)
    decreases n
  {
    hide FlatLayer, FlatStore, LayerOut, Store, ValidLayer, Shaped, RowsOf, Sized;
    if n > 0 {
      TokenAgrees(c, kv, x, pos, n - 1);
      var (y, kv1) := FlatToken(c, kv, x, pos, n - 1);
      StoreAgrees(c, n - 1, kv1, y, pos);
      LayerAgrees(c, n - 1, FlatStore(c, n - 1, kv1, y, pos), y, pos);
    }
  }

  /** The prompt fits behind `pos`. */
  ghost predicate PromptFits(c: Config, kv: FlatCache, pos: nat, tokens: seq<nat>) {
    && Shapes(c) && Sized(c, kv) && pos + |tokens| <= c.d.ctx
    && forall i | 0 <= i < |tokens| :: tokens[i] < c.d.vocab
  }

  lemma {:induction false} DecodeAgrees(c: Config, kv: FlatCache, pos: nat, tokens: seq<nat>, logits: Vector)
    requires ValidConfig(c) && PromptFits(c, kv, pos, tokens)
    ensures Fits(c, Session(pos, RowsOf(c, kv), logits), tokens)
    ensures Sized(c, FlatDecode(c, kv, pos, tokens).1)
    ensures var s := Decode(c, Session(pos, RowsOf(c, kv), logits), tokens);
      && s.kv == RowsOf(c, FlatDecode(c, kv, pos, tokens).1)
      && (tokens != [] ==> s.logits == FlatDecode(c, kv, pos, tokens).0)
    decreases |tokens|
  {
    hide FlatToken, TokenLayers, Embed, Classify, ValidLayer, Shaped, RowsOf, Sized;
    if tokens != [] {
      var n := |tokens| - 1;
      DecodeAgrees(c, kv, pos, tokens[..n], logits);
      TokenAgrees(c, FlatDecode(c, kv, pos, tokens[..n]).1, Embed(c, tokens[n]), pos + n, c.d.nLayers);
    }
  }

  lemma {:induction false} StoreAllAgrees(c: Config, l: nat, kv: FlatCache, xs: seq<Vector>, base: nat, n: nat)
    requires ValidConfig(c) && Sized(c, kv) && l < c.d.nLayers && Rows(c, xs) && n <= |xs| && base + n <= c.d.ctx
    ensures Sized(c, FlatStoreAll(c, l, kv, xs, base, n))
    ensures RowsOf(c, FlatStoreAll(c, l, kv, xs, base, n))
         == RowsOf(c, kv)[l := StoreAll(c, c.layers[l], RowsOf(c, kv)[l], xs, base, n)]
    decreases n
  {
    hide FlatStore, Store, ValidLayer, Shaped, RowsOf, Sized;
    if n > 0 {
      StoreAllAgrees(c, l, kv, xs, base, n - 1);
      StoreAgrees(c, l, FlatStoreAll(c, l, kv, xs, base, n - 1), xs[n - 1], base + n - 1);
    }
  }

  lemma LayerAllAgrees(c: Config, l: nat, kv: FlatCache, xs: seq<Vector>, base: nat, kv0: LayerCache)
    requires ValidConfig(c) && Sized(c, kv) && l < c.d.nLayers && Rows(c, xs) && base + |xs| <= c.d.ctx
    requires ValidLayerCache(c.d, kv0) && RowsOf(c, kv)[l] == StoreAll(c, c.layers[l], kv0, xs, base, |xs|)
    ensures FlatLayerAll(c, l, kv, xs, base) == BatchLayer(c, c.layers[l], kv0, xs, base)
  {
    hide FlatLayer, LayerOut, StoreAll, Shaped, RowsOf, Sized;
    forall i | 0 <= i < |xs| ensures FlatLayerAll(c, l, kv, xs, base)[i] == BatchLayer(c, c.layers[l], kv0, xs, base)[i] {
      LayerAgrees(c, l, kv, xs[i], base + i);
    }
  }

  lemma {:induction false} BatchAgrees(c: Config, kv: FlatCache, xs: seq<Vector>, base: nat, n: nat)
    requires ValidConfig(c) && Sized(c, kv) && Rows(c, xs) && base + |xs| <= c.d.ctx && n <= c.d.nLayers
    ensures Sized(c, FlatBatch(c, kv, xs, base, n).1)
    ensures (FlatBatch(c, kv, xs, base, n).0, RowsOf(c, FlatBatch(c, kv, xs, base, n).1)) == BatchLayers(c, RowsOf(c, kv), xs, base, n)
    decreases n
  {
    hide FlatLayerAll, BatchLayer, FlatStoreAll, StoreAll, ValidLayer, Shaped, RowsOf, Sized;
    if n > 0 {
      BatchAgrees(c, kv, xs, base, n - 1);
      var (ys, kv1) := FlatBatch(c, kv, xs, base, n - 1);
      StoreAllAgrees(c, n - 1, kv1, ys, base, |ys|);
      LayerAllAgrees(c, n - 1, FlatStoreAll(c, n - 1, kv1, ys, base, |ys|), ys, base, RowsOf(c, kv1)[n - 1]);
    }
  }

  /** Where the key heads divide the query heads, the flat batch and the flat decode
      leave the same logits and the same cache seen as rows. */
  lemma FlatChunkIsDecode(c: Config, kv: FlatCache, pos: nat, tokens: seq<nat>)
    requires ValidConfig(c) && PromptFits(c, kv, pos, tokens) && tokens != []
    ensures Sized(c, FlatChunk(c, kv, pos, tokens).1) && Sized(c, FlatDecode(c, kv, pos, tokens).1)
    ensures FlatChunk(c, kv, pos, tokens).0 == FlatDecode(c, kv, pos, tokens).0
    ensures RowsOf(c, FlatChunk(c, kv, pos, tokens).1) == RowsOf(c, FlatDecode(c, kv, pos, tokens).1)
  {
    hide FlatBatch, BatchLayers, FlatDecode, Decode, Embed, Classify, ValidLayer, Shaped, RowsOf, Sized;
    var s := Session(pos, RowsOf(c, kv), []);
    DecodeAgrees(c, kv, pos, tokens, []);
    BatchAgrees(c, kv, EmbedAll(c, tokens), pos, c.d.nLayers);
    Interchange.ChunkIsDecode(c, s, tokens);
  }

  /** Decoding a concatenation is decoding its parts, for any head counts. */
  lemma {:induction false} FlatDecodeAppend(c: Config, kv: FlatCache, pos: nat, p: seq<nat>, q: seq<nat>)
    requires Shapes(c) && forall i | 0 <= i < |p + q| :: (p + q)[i] < c.d.vocab
    ensures (forall i | 0 <= i < |p| :: p[i] < c.d.vocab) && forall i | 0 <= i < |q| :: q[i] < c.d.vocab
    ensures var first := FlatDecode(c, kv, pos, p);
      FlatDecode(c, kv, pos, p + q) == if q == [] then first else FlatDecode(c, first.1, pos + |p|, q)
    decreases |q|
  {
    hide FlatToken, Shapes, Embed, Classify;
    assert forall i | 0 <= i < |p| :: p[i] == (p + q)[i];
    assert forall i | 0 <= i < |q| :: q[i] == (p + q)[|p| + i];
    if q == [] {
      assert p + q == p;
    } else {
      var n := |q| - 1;
      assert (p + q)[..|p| + n] == p + q[..n];
      FlatDecodeAppend(c, kv, pos, p, q[..n]);
    }
  }
}
