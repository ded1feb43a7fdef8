/** The inference context: flat scratch buffers and a flat f16 KV cache, with
    `forward` (one token, all layers) and `prefill_chunk` (all tokens of a chunk,
    layer by layer). Both are proved against the functions of `Forward`. */
module Infer {
  import opened Numbers
  import opened Kernels
  import opened Activations
  import opened Forward
  import opened RowOps
  import opened Wrappers
  import Interchange

  const MAX_BATCH: nat := 64

  function Max(a: nat, b: nat): nat { if a < b then b else a }

  // ---- The flat cache as rows -----------------------------------------------------------

  lemma CacheIndex(d: Dims, l: nat, t: nat, len: nat)
    requires l < d.nLayers && t < d.ctx && len == d.nLayers * d.ctx * d.KvDim()
    ensures (At(l, t, d.ctx) + 1) * d.KvDim() <= len
  {
    AtBound(l, t, d.ctx, d.nLayers);
    RowFits(At(l, t, d.ctx), d.nLayers * d.ctx, d.KvDim(), len);
  }

  /** Layer `l` of a flat `[n_layers][ctx][kv_dim]` cache. */
  function LayerRows(d: Dims, flat: seq<Half>, l: nat): (rows: seq<CacheRow>)
    requires l < d.nLayers && |flat| == d.nLayers * d.ctx * d.KvDim()
    ensures |rows| == d.ctx && forall t | 0 <= t < d.ctx :: |rows[t]| == d.KvDim()
  {
    seq(d.ctx, t requires 0 <= t < d.ctx =>
      CacheIndex(d, l, t, |flat|);
      Row(flat, At(l, t, d.ctx), d.KvDim()))
  }

  function LayerOf(d: Dims, k: seq<Half>, v: seq<Half>, l: nat): (kv: LayerCache)
    requires l < d.nLayers && |k| == |v| == d.nLayers * d.ctx * d.KvDim()
    ensures ValidLayerCache(d, kv)
  {
    LayerCache(LayerRows(d, k, l), LayerRows(d, v, l))
  }

  function CacheOf(d: Dims, k: seq<Half>, v: seq<Half>): (kv: seq<LayerCache>)
    requires |k| == |v| == d.nLayers * d.ctx * d.KvDim()
    ensures ValidCache(d, kv) && forall l | 0 <= l < d.nLayers :: kv[l] == LayerOf(d, k, v, l)
  {
    seq(d.nLayers, l requires 0 <= l < d.nLayers => LayerOf(d, k, v, l))
  }

  /** Writing one flat row writes exactly one row of one layer. */
  lemma StoreRow(d: Dims, flat: seq<Half>, flat': seq<Half>, l: nat, pos: nat, row: CacheRow)
    requires l < d.nLayers && pos < d.ctx && |flat| == d.nLayers * d.ctx * d.KvDim()
    requires OnlyRow(flat, flat', At(l, pos, d.ctx), d.KvDim()) && RowIs(flat', At(l, pos, d.ctx), d.KvDim(), row)
    ensures LayerRows(d, flat', l) == LayerRows(d, flat, l)[pos := row]
    ensures forall m | 0 <= m < d.nLayers && m != l :: LayerRows(d, flat', m) == LayerRows(d, flat, m)
  {
    forall m, t | 0 <= m < d.nLayers && 0 <= t < d.ctx && (m != l || t != pos)
      ensures LayerRows(d, flat', m)[t] == LayerRows(d, flat, m)[t]
    {
      CacheIndex(d, m, t, |flat|);
      if At(m, t, d.ctx) == At(l, pos, d.ctx) {
        AtInjective(m, t, l, pos, d.ctx);
      }
      RowOutside(flat, flat', At(l, pos, d.ctx), At(m, t, d.ctx), d.KvDim());
    }
  }

  // ---- Products over lists of rows --------------------------------------------------------

  ghost predicate AllShaped(m: Mat, rows: nat, xs: seq<Vector>) {
    forall i | 0 <= i < |xs| :: Shaped(m, rows, |xs[i]|)
  }

  function MatVecAll(o: Ops, m: Mat, rows: nat, xs: seq<Vector>): (ys: seq<Vector>)
    requires AllShaped(m, rows, xs)
    ensures |ys| == |xs| && forall i | 0 <= i < |xs| :: ys[i] == MatVec(o, m, rows, xs[i])
  {
    seq(|xs|, i requires 0 <= i < |xs| => MatVec(o, m, rows, xs[i]))
  }

  lemma ProductsHold(o: Ops, y: seq<Float>, m: Mat, rows: nat, flat: seq<Float>, cols: nat, xs: seq<Vector>)
    requires Products(o, y, m, rows, flat, |xs|, cols) && Holds(flat, cols, xs) && AllShaped(m, rows, xs)
    ensures Holds(y, rows, MatVecAll(o, m, rows, xs))
  {
    hide MatVec, Row;
    forall i | 0 <= i < |xs| ensures RowIs(y, i, rows, MatVecAll(o, m, rows, xs)[i]) {
      assert Product(o, y, m, rows, flat, cols, i) && RowIs(flat, i, cols, xs[i]);
    }
  }

  function MaxDim(d: Dims): nat { Max(d.dim, Max(d.AttDim(), d.ffnDim)) }

  function BufferSizes(d: Dims): (s: seq<nat>)
    ensures |s| == 19
  {
    [d.dim, d.dim, d.dim, d.AttDim(), d.AttDim(), d.KvDim(), d.KvDim(), d.nHeads * d.ctx,
     d.ffnDim, d.ffnDim, d.vocab, MAX_BATCH * d.dim, MAX_BATCH * Max(d.dim, d.AttDim()),
     MAX_BATCH * d.AttDim(), MAX_BATCH * d.AttDim(), MAX_BATCH * d.KvDim(), MAX_BATCH * d.KvDim(),
     MAX_BATCH * d.ffnDim, MAX_BATCH * d.ffnDim]
  }

  function ActBlocks(d: Dims, size: nat): nat
    requires size > 0
  {
    MAX_BATCH * (MaxDim(d) / size)
  }

  function CacheSize(d: Dims): (n: nat)
    ensures n == d.nLayers * d.ctx * d.KvDim()
  {
    MulNat(d.nLayers * d.ctx, d.KvDim());
    d.nLayers * d.ctx * d.KvDim()
  }

  /** One buffer per size, all different. */
  method Allocate(sizes: seq<nat>) returns (bufs: seq<array<Float>>)
    ensures |bufs| == |sizes|
    ensures forall i | 0 <= i < |bufs| :: fresh(bufs[i]) && bufs[i].Length == sizes[i]
    ensures forall i, j | 0 <= i < j < |bufs| :: bufs[i] != bufs[j]
  {
    bufs := [];
    var n := 0;
    while n < |sizes|
      invariant 0 <= n <= |sizes| && |bufs| == n
      invariant forall i | 0 <= i < n :: fresh(bufs[i]) && bufs[i].Length == sizes[i]
      invariant forall i, j | 0 <= i < j < n :: bufs[i] != bufs[j]
    {
      var b := new Float[sizes[n]];
      bufs := bufs + [b];
      n := n + 1;
    }
  }

  /** The quantization scratch and the two caches. */
  method AllocateRest(d: Dims) returns (acts: Acts, kc: array<Half>, vc: array<Half>)
    ensures acts.q8 != acts.q8k && kc != vc
    ensures acts.q8.Length == ActBlocks(d, 32) && acts.q8k.Length == ActBlocks(d, 256)
    ensures kc.Length == vc.Length == CacheSize(d)
  {
    hide ActBlocks, CacheSize;
    var q8, q8k := new Act[ActBlocks(d, 32)], new Act[ActBlocks(d, 256)];
    kc, vc := new Half[CacheSize(d)], new Half[CacheSize(d)];
    acts := new Acts(q8, q8k);
  }

  ghost function Numbered(bufs: seq<array<Float>>): (m: map<array<Float>, nat>)
    requires forall i, j | 0 <= i < j < |bufs| :: bufs[i] != bufs[j]
    ensures forall i | 0 <= i < |bufs| :: bufs[i] in m && m[bufs[i]] == i
  {
    map b | b in bufs :: (var i: nat :| i < |bufs| && bufs[i] == b; i)
  }

  class InferCtx {
    const c: Config
    /** The pool's division of a row count, and whether the tiled kernels run. */
    const split: nat -> seq<(nat, nat)>
    const fast: bool
    const acts: Acts

    const x: array<Float>
    const xb: array<Float>
    const xb2: array<Float>
    const q: array<Float>
    const attnOut: array<Float>
    const k: array<Float>
    const v: array<Float>
    const att: array<Float>
    const gate: array<Float>
    const up: array<Float>
    const logits: array<Float>
    const bx: array<Float>
    const bxb: array<Float>
    const bq: array<Float>
    const battn: array<Float>
    const bk: array<Float>
    const bv: array<Float>
    const bgate: array<Float>
    const bup: array<Float>
    const keyCache: array<Half>
    const valCache: array<Half>
    var pos: nat

    /** Numbers the buffers, so that no two are the same. */
    ghost const slot: map<array<Float>, nat>

    ghost predicate Distinct() {
      && {x, xb, xb2, q, attnOut, k, v, att, gate, up, logits, bx, bxb, bq, battn, bk, bv, bgate, bup} <= slot.Keys
      && slot[x] == 0 && slot[xb] == 1 && slot[xb2] == 2 && slot[q] == 3 && slot[attnOut] == 4 && slot[k] == 5
      && slot[v] == 6 && slot[att] == 7 && slot[gate] == 8 && slot[up] == 9 && slot[logits] == 10 && slot[bx] == 11
      && slot[bxb] == 12 && slot[bq] == 13 && slot[battn] == 14 && slot[bk] == 15 && slot[bv] == 16
      && slot[bgate] == 17 && slot[bup] == 18
      && keyCache != valCache && acts.q8 != acts.q8k
    }

    /** The buffers in allocation order. */
    function Buffers(): (b: seq<array<Float>>)
      ensures |b| == 19
    {
      [x, xb, xb2, q, attnOut, k, v, att, gate, up, logits, bx, bxb, bq, battn, bk, bv, bgate, bup]
    }

    /** Buffer sizes as allocated. */
    ghost predicate Sized() {
      && (forall i | 0 <= i < 19 :: Buffers()[i].Length == BufferSizes(c.d)[i])
      && acts.q8.Length == ActBlocks(c.d, 32) && acts.q8k.Length == ActBlocks(c.d, 256)
      && keyCache.Length == valCache.Length == CacheSize(c.d)
    }

    ghost predicate Valid() {
      && ValidConfig(c) && Distinct() && Sized()
      && (forall n: nat :: Covers(split(n), n))
    }

    /** The cache, position and logits as values. */
    ghost function View(): Session
      requires Valid()
      reads this, keyCache, valCache, logits
    {
      Session(pos, CacheOf(c.d, keyCache[..], valCache[..]), logits[..])
    }

    ghost function LayerView(l: nat): LayerCache
      requires Valid() && l < c.d.nLayers
      reads keyCache, valCache
    {
      LayerOf(c.d, keyCache[..], valCache[..], l)
    }

    lemma Laid(b: seq<array<Float>>)
      requires Buffers() == b && |b| == 19 && forall i, j | 0 <= i < j < |b| :: b[i] != b[j]
      requires slot == Numbered(b) && keyCache != valCache && acts.q8 != acts.q8k
      ensures Distinct()
    {
      hide Numbered;
      var s := slot;
      assert x == b[0] && xb == b[1] && xb2 == b[2] && q == b[3] && attnOut == b[4] && k == b[5] && v == b[6] && att == b[7];
      assert gate == b[8] && up == b[9] && logits == b[10] && bx == b[11] && bxb == b[12] && bq == b[13] && battn == b[14];
      assert bk == b[15] && bv == b[16] && bgate == b[17] && bup == b[18];
    }

    lemma SameBuffers(b: seq<array<Float>>)
      requires |b| == 19
      requires x == b[0] && xb == b[1] && xb2 == b[2] && q == b[3] && attnOut == b[4] && k == b[5] && v == b[6] && att == b[7]
      requires gate == b[8] && up == b[9] && logits == b[10] && bx == b[11] && bxb == b[12] && bq == b[13] && battn == b[14]
      requires bk == b[15] && bv == b[16] && bgate == b[17] && bup == b[18]
      ensures Buffers() == b
    {
    }

    lemma Fitted(b: seq<array<Float>>)
      requires Buffers() == b && |b| == 19 && forall i | 0 <= i < |b| :: b[i].Length == BufferSizes(c.d)[i]
      requires acts.q8.Length == ActBlocks(c.d, 32) && acts.q8k.Length == ActBlocks(c.d, 256)
      requires keyCache.Length == valCache.Length == CacheSize(c.d)
      ensures Sized()
    {
      hide BufferSizes;
    }

    /** Allocates every buffer; generation never allocates again. */
    constructor (c: Config, split: nat -> seq<(nat, nat)>, fast: bool)
      requires ValidConfig(c) && forall n: nat :: Covers(split(n), n)
      ensures Valid() && this.c == c && pos == 0
    {
      hide *;
      var b := Allocate(BufferSizes(c.d));
      var scratch, kc, vc := AllocateRest(c.d);
      this.c, this.split, this.fast, this.acts := c, split, fast, scratch;
      x, xb, xb2, q, attnOut, k, v, att, gate, up, logits := b[0], b[1], b[2], b[3], b[4], b[5], b[6], b[7], b[8], b[9], b[10];
      bx, bxb, bq, battn, bk, bv, bgate, bup := b[11], b[12], b[13], b[14], b[15], b[16], b[17], b[18];
      keyCache, valCache, pos := kc, vc, 0;
      slot := Numbered(b);
      new;
      Ready(b);
    }

    lemma Ready(b: seq<array<Float>>)
      requires |b| == 19 && (forall i, j | 0 <= i < j < |b| :: b[i] != b[j]) && slot == Numbered(b)
      requires x == b[0] && xb == b[1] && xb2 == b[2] && q == b[3] && attnOut == b[4] && k == b[5] && v == b[6] && att == b[7]
      requires gate == b[8] && up == b[9] && logits == b[10] && bx == b[11] && bxb == b[12] && bq == b[13] && battn == b[14]
      requires bk == b[15] && bv == b[16] && bgate == b[17] && bup == b[18]
      requires keyCache != valCache && acts.q8 != acts.q8k
      requires forall i | 0 <= i < |b| :: b[i].Length == BufferSizes(c.d)[i]
      requires acts.q8.Length == ActBlocks(c.d, 32) && acts.q8k.Length == ActBlocks(c.d, 256)
      requires keyCache.Length == valCache.Length == CacheSize(c.d)
      requires ValidConfig(c) && forall n: nat :: Covers(split(n), n)
      ensures Valid()
    {
      hide ValidConfig, Covers, Numbered, BufferSizes, Distinct, Sized, Buffers, ActBlocks, CacheSize;
      SameBuffers(b);
      Laid(b);
      Fitted(b);
    }

    lemma ScratchRoom(f: Format, cols: nat, batch: nat)
      requires Valid() && cols <= MaxDim(c.d) && batch <= MAX_BATCH
      ensures batch * (cols / FormatSize(f)) <= acts.Buffer(f).Length
    {
      MulMono(batch, MAX_BATCH, cols / FormatSize(f));
      var size := FormatSize(f);
      assert cols / size <= MaxDim(c.d) / size;
      MulMono(cols / size, MaxDim(c.d) / size, MAX_BATCH);
    }

    // ---- Attention ---------------------------------------------------------------------------

    lemma KeySizes()
      requires Valid()
      ensures keyCache.Length == valCache.Length == c.d.nLayers * c.d.ctx * c.d.KvDim()
    {
    }

    lemma AttSlice(h: nat)
      requires Valid() && h < c.d.nHeads
      ensures RowStart(h, c.d.ctx) + c.d.ctx <= att.Length
    {
      assert Buffers()[7] == att;
      RowFits(h, c.d.nHeads, c.d.ctx, att.Length);
    }

    method ScoreLoop(l: nat, p: nat, off: nat, qh: Vector, base: nat)
      requires Valid() && l < c.d.nLayers && p < c.d.ctx && off + c.d.headDim <= c.d.KvDim() && base + p + 1 <= att.Length
      modifies att
      ensures att[base..base + p + 1] == ScoreRows(c.o, LayerView(l).k, off, c.d.headDim, qh, p + 1)
    {
      hide LayerRows, ValidConfig, Distinct, Sized;
      KeySizes();
      ghost var rows := LayerView(l).k;
      ghost var scores := ScoreRows(c.o, rows, off, c.d.headDim, qh, p + 1);
      var t := 0;
      while t < p + 1
        invariant 0 <= t <= p + 1
        invariant att[base..base + t] == scores[..t]
      {
        var row := ReadCache(keyCache, l, t);
        att[base + t] := c.o.score(row[off..off + c.d.headDim], qh);
        assert att[base..base + t + 1] == att[base..base + t] + [scores[t]];
        t := t + 1;
      }
    }

    /** The softmaxed scores of one head, left in its slice of `att`. */
    method ScoreHead(l: nat, p: nat, h: nat, qv: Vector) returns (base: nat)
      requires Valid() && l < c.d.nLayers && p < c.d.ctx && h < c.d.nHeads && |qv| == c.d.AttDim()
      modifies att
      ensures base + p + 1 <= att.Length
      ensures att[base..base + p + 1] == Softmax(c.o, Scores(c, qv, LayerView(l).k, p + 1, h))
    {
      hide Softmax, LayerRows, ValidLayer, Shaped, Sized, Distinct, ScoreRows;
      HeadWindow(c, h);
      AttSlice(h);
      base := RowStart(h, c.d.ctx);
      ScoreLoop(l, p, HeadOffset(c.d, h), Row(qv, h, c.d.headDim), base);
      SetSlice(att, base, Softmax(c.o, att[base..base + p + 1]));
    }

    /** One head of one token against the cache. */
    method AttendHead(l: nat, p: nat, h: nat, qv: Vector) returns (out: Vector)
      requires Valid() && l < c.d.nLayers && p < c.d.ctx && h < c.d.nHeads && |qv| == c.d.AttDim()
      modifies att
      ensures out == HeadOut(c, qv, LayerView(l), p, h)
    {
      hide Softmax, Scores, LayerRows, Axpy, ValidLayer, Shaped, Sized, Distinct;
      KeySizes();
      var base := ScoreHead(l, p, h, qv);
      HeadWindow(c, h);
      var hd, off := c.d.headDim, HeadOffset(c.d, h);
      ghost var rows := LayerView(l).v;
      var probs := att[base..base + p + 1];
      out := seq(hd, _ => c.o.zero);
      var t := 0;
      while t < p + 1
        invariant 0 <= t <= p + 1
        invariant out == Mix(c, probs, rows, t, h)
      {
        var row := ReadCache(valCache, l, t);
        out := Axpy(c.o, out, probs[t], row[off..off + hd]);
        t := t + 1;
      }
    }

    method SetSlice(a: array<Float>, at: nat, s: seq<Float>)
      requires at + |s| <= a.Length
      modifies a
      ensures a[at..at + |s|] == s
    {
      var i := 0;
      while i < |s|
        invariant 0 <= i <= |s|
        invariant a[at..at + i] == s[..i]
      {
        a[at + i] := s[i];
        assert a[at..at + i + 1] == a[at..at + i] + [s[i]];
        i := i + 1;
      }
    }

    method ReadCache(cache: array<Half>, l: nat, t: nat) returns (row: CacheRow)
      requires Valid() && l < c.d.nLayers && t < c.d.ctx && cache.Length == c.d.nLayers * c.d.ctx * c.d.KvDim()
      ensures row == LayerRows(c.d, cache[..], l)[t] && |row| == c.d.KvDim()
    {
      CacheIndex(c.d, l, t, cache.Length);
      row := GetRow(cache, At(l, t, c.d.ctx), c.d.KvDim());
    }

    /** All heads of one token. */
    method Attend(l: nat, p: nat, qv: Vector) returns (out: Vector)
      requires Valid() && l < c.d.nLayers && p < c.d.ctx && |qv| == c.d.AttDim()
      modifies att
      ensures out == Heads(c, qv, LayerView(l), p, c.d.nHeads) && |out| == c.d.AttDim()
    {
      hide HeadOut;
      out := [];
      var h := 0;
      while h < c.d.nHeads
        invariant 0 <= h <= c.d.nHeads && out == Heads(c, qv, LayerView(l), p, h)
      {
        var o := AttendHead(l, p, h, qv);
        out := out + o;
        h := h + 1;
      }
    }

    // ---- KV append ------------------------------------------------------------------------------

    /** Store the rotated key and the value of one token at position `p`. */
    method AppendKv(l: nat, p: nat, kr: Vector, vr: Vector)
      requires Valid() && l < c.d.nLayers && p < c.d.ctx && |kr| == |vr| == c.d.KvDim()
      modifies keyCache, valCache
      ensures LayerView(l) == LayerCache(old(LayerView(l)).k[p := ToHalf(c.o, kr)], old(LayerView(l)).v[p := ToHalf(c.o, vr)])
      ensures forall m | 0 <= m < c.d.nLayers && m != l :: LayerView(m) == old(LayerView(m))
    {
      hide LayerRows, ToHalf;
      var r := At(l, p, c.d.ctx);
      CacheIndex(c.d, l, p, keyCache.Length);
      ghost var k0, v0 := keyCache[..], valCache[..];
      SetRow(keyCache, r, c.d.KvDim(), ToHalf(c.o, kr));
      SetRow(valCache, r, c.d.KvDim(), ToHalf(c.o, vr));
      StoreRow(c.d, k0, keyCache[..], l, p, ToHalf(c.o, kr));
      StoreRow(c.d, v0, valCache[..], l, p, ToHalf(c.o, vr));
    }

    // ---- A batch through one layer ---------------------------------------------------------

    lemma BatchRoom(batch: nat)
      requires Valid() && batch <= MAX_BATCH
      ensures batch * c.d.dim <= bx.Length && batch * c.d.dim <= bxb.Length
      ensures batch * c.d.AttDim() <= bq.Length && batch * c.d.AttDim() <= battn.Length
      ensures batch * c.d.KvDim() <= bk.Length && batch * c.d.KvDim() <= bv.Length
      ensures batch * c.d.ffnDim <= bgate.Length && batch * c.d.ffnDim <= bup.Length
    {
      var b := Buffers();
      assert b[11] == bx && b[12] == bxb && b[13] == bq && b[14] == battn && b[15] == bk && b[16] == bv && b[17] == bgate && b[18] == bup;
      MulMono(batch, MAX_BATCH, c.d.dim);
      MulMono(c.d.dim, Max(c.d.dim, c.d.AttDim()), MAX_BATCH);
      MulMono(batch, MAX_BATCH, c.d.AttDim());
      MulMono(batch, MAX_BATCH, c.d.KvDim());
      MulMono(batch, MAX_BATCH, c.d.ffnDim);
    }

    /** Normed rows and their query, key and value products. */
    method BatchQkv(l: nat, batch: nat, ghost xs: seq<Vector>)
      requires Valid() && l < c.d.nLayers && batch == |xs| <= MAX_BATCH && Rows(c, xs) && Holds(bx[..], c.d.dim, xs)
      modifies bxb, bq, bk, bv, acts.q8, acts.q8k
      ensures var w, n := c.layers[l], RmsAll(c.o, xs, c.layers[l].attnNorm);
        && AllShaped(w.wq, c.d.AttDim(), n) && Holds(bq[..], c.d.AttDim(), MatVecAll(c.o, w.wq, c.d.AttDim(), n))
        && AllShaped(w.wk, c.d.KvDim(), n) && Holds(bk[..], c.d.KvDim(), MatVecAll(c.o, w.wk, c.d.KvDim(), n))
        && AllShaped(w.wv, c.d.KvDim(), n) && Holds(bv[..], c.d.KvDim(), MatVecAll(c.o, w.wv, c.d.KvDim(), n))
    {
      hide Holds, MatVec, Shaped, Sized, Buffers, BufferSizes;
      var d, w := c.d, c.layers[l];
      assert ValidLayer(d, w);
      BatchRoom(batch);
      RmsRows(c.o, bxb, bx, w.attnNorm, batch, d.dim, xs);
      ghost var n := RmsAll(c.o, xs, w.attnNorm);
      var jobs := [Job(bq, w.wq, d.AttDim()), Job(bk, w.wk, d.KvDim()), Job(bv, w.wv, d.KvDim())];
      forall j | 0 <= j < 3
        ensures batch * (d.dim / BlockSize(jobs[j].m.dtype)) <= acts.Buffer(FormatOf(jobs[j].m.dtype)).Length
      {
        ScratchRoom(FormatOf(jobs[j].m.dtype), d.dim, batch);
      }
      acts.MatmulGroup(c.o, jobs, bxb, batch, d.dim, split, fast);
      ProductsHold(c.o, jobs[0].y[..], w.wq, d.AttDim(), bxb[..], d.dim, n);
      ProductsHold(c.o, jobs[1].y[..], w.wk, d.KvDim(), bxb[..], d.dim, n);
      ProductsHold(c.o, jobs[2].y[..], w.wv, d.KvDim(), bxb[..], d.dim, n);
    }

    ghost function Queries(l: nat, xs: seq<Vector>, base: nat): (qs: seq<Vector>)
      requires Valid() && l < c.d.nLayers && Rows(c, xs)
      ensures |qs| == |xs| && forall i | 0 <= i < |xs| :: |qs[i]| == c.d.AttDim()
    {
      seq(|xs|, i requires 0 <= i < |xs| => Query(c, c.layers[l], xs[i], base + i))
    }

    ghost function Keys(l: nat, xs: seq<Vector>, base: nat): (ks: seq<Vector>)
      requires Valid() && l < c.d.nLayers && Rows(c, xs)
      ensures |ks| == |xs| && forall i | 0 <= i < |xs| :: |ks[i]| == c.d.KvDim()
    {
      seq(|xs|, i requires 0 <= i < |xs| => Key(c, c.layers[l], xs[i], base + i))
    }

    /** The raw products that `BatchQkv` leaves. */
    ghost predicate Raw(l: nat, xs: seq<Vector>, qs: seq<Vector>, ks: seq<Vector>, vs: seq<Vector>)
      requires Valid() && l < c.d.nLayers && Rows(c, xs)
    {
      var w, n := c.layers[l], RmsAll(c.o, xs, c.layers[l].attnNorm);
      && AllShaped(w.wq, c.d.AttDim(), n) && qs == MatVecAll(c.o, w.wq, c.d.AttDim(), n)
      && AllShaped(w.wk, c.d.KvDim(), n) && ks == MatVecAll(c.o, w.wk, c.d.KvDim(), n)
      && AllShaped(w.wv, c.d.KvDim(), n) && vs == MatVecAll(c.o, w.wv, c.d.KvDim(), n)
    }

    /** Query-key norm (when the model has it) and rotation of one row. */
    function Turn(v: Vector, norm: Option<Vector>, p: nat): Vector {
      Rope(c.o, if norm.Some? then HeadNorm(c.o, v, norm.value, c.d.headDim) else v, c.d.headDim, p)
    }

    lemma RawRow(l: nat, xs: seq<Vector>, qs: seq<Vector>, ks: seq<Vector>, vs: seq<Vector>, i: nat, p: nat)
      requires Valid() && l < c.d.nLayers && Rows(c, xs) && Raw(l, xs, qs, ks, vs) && i < |xs|
      ensures |qs| == |ks| == |vs| == |xs|
      ensures var w, n := c.layers[l], c.layers[l].qkNorm;
        && Query(c, w, xs[i], p) == Turn(qs[i], if n.Some? then Some(n.value.0) else None, p)
        && Key(c, w, xs[i], p) == Turn(ks[i], if n.Some? then Some(n.value.1) else None, p)
        && Value(c, w, xs[i]) == vs[i]
    {
      hide MatVec, Rope, HeadNorm, Rms, Shaped, Sized, Distinct;
      assert ValidLayer(c.d, c.layers[l]);
    }

    lemma RawSizes(l: nat, xs: seq<Vector>, qs: seq<Vector>, ks: seq<Vector>, vs: seq<Vector>)
      requires Valid() && l < c.d.nLayers && Rows(c, xs) && Raw(l, xs, qs, ks, vs)
      ensures |qs| == |ks| == |vs| == |xs|
    {
    }

    lemma HasLayer(l: nat)
      requires Valid() && l < c.d.nLayers
      ensures |c.layers| == c.d.nLayers && ValidLayer(c.d, c.layers[l])
    {
    }

    /** Norm and rotate row `i`, then append its key and value to the cache. */
    method RotateRow(l: nat, base: nat, i: nat, ghost xs: seq<Vector>, ghost qs: seq<Vector>, ghost ks: seq<Vector>, ghost vs: seq<Vector>)
      requires Valid() && l < c.d.nLayers && Rows(c, xs) && Raw(l, xs, qs, ks, vs) && i < |xs| && base + |xs| <= c.d.ctx
      requires |qs| == |ks| == |vs| == |xs|
      requires Holds(bq[..], c.d.AttDim(), Queries(l, xs, base)[..i] + qs[i..])
      requires Holds(bk[..], c.d.KvDim(), Keys(l, xs, base)[..i] + ks[i..])
      requires Holds(bv[..], c.d.KvDim(), vs)
      modifies bq, bk, keyCache, valCache
      ensures Holds(bq[..], c.d.AttDim(), Queries(l, xs, base)[..i + 1] + qs[i + 1..])
      ensures Holds(bk[..], c.d.KvDim(), Keys(l, xs, base)[..i + 1] + ks[i + 1..])
      ensures LayerView(l) == Store(c, c.layers[l], old(LayerView(l)), xs[i], base + i)
      ensures forall m | 0 <= m < c.d.nLayers && m != l :: LayerView(m) == old(LayerView(m))
    {
      hide Holds, Raw, Query, Key, Value, LayerOf, Sized, Shaped, ValidConfig, Buffers, Turn, ToHalf;
      HasLayer(l);
      RawRow(l, xs, qs, ks, vs, i, base + i);
      ghost var q0, k0 := Queries(l, xs, base)[..i] + qs[i..], Keys(l, xs, base)[..i] + ks[i..];
      var n := c.layers[l].qkNorm;
      var qr := TurnRow(bq, c.d.AttDim(), i, if n.Some? then Some(n.value.0) else None, base + i, q0);
      assert q0[i := qr] == Queries(l, xs, base)[..i + 1] + qs[i + 1..];
      var kr := TurnRow(bk, c.d.KvDim(), i, if n.Some? then Some(n.value.1) else None, base + i, k0);
      assert k0[i := kr] == Keys(l, xs, base)[..i + 1] + ks[i + 1..];
      var vr := ReadRow(bv, i, c.d.KvDim(), vs);
      AppendKv(l, base + i, kr, vr);
    }

    /** Norm and rotate row `i` of a buffer in place. */
    method TurnRow(a: array<Float>, width: nat, i: nat, norm: Option<Vector>, p: nat, ghost rows: seq<Vector>) returns (r: Vector)
      requires i < |rows| && Holds(a[..], width, rows)
      modifies a
      ensures r == Turn(rows[i], norm, p) && |r| == width && Holds(a[..], width, rows[i := r])
    {
      hide Holds, Rope, HeadNorm;
      r := ReadRow(a, i, width, rows);
      r := Turn(r, norm, p);
      ReplaceRow(a, i, width, r, rows);
    }

    /** Every row normed, rotated at its own position and appended, before any
        attention reads the cache. */
    method RotateRows(l: nat, base: nat, batch: nat, ghost xs: seq<Vector>, ghost qs: seq<Vector>, ghost ks: seq<Vector>, ghost vs: seq<Vector>)
      requires Valid() && l < c.d.nLayers && batch == |xs| && Rows(c, xs) && Raw(l, xs, qs, ks, vs) && base + |xs| <= c.d.ctx
      requires Holds(bq[..], c.d.AttDim(), qs) && Holds(bk[..], c.d.KvDim(), ks) && Holds(bv[..], c.d.KvDim(), vs)
      modifies bq, bk, keyCache, valCache
      ensures Holds(bq[..], c.d.AttDim(), Queries(l, xs, base))
      ensures LayerView(l) == StoreAll(c, c.layers[l], old(LayerView(l)), xs, base, |xs|)
      ensures forall m | 0 <= m < c.d.nLayers && m != l :: LayerView(m) == old(LayerView(m))
    {
      hide Holds, Store, Query, Key, LayerOf, Sized, Shaped, ValidConfig, Buffers, Raw;
      HasLayer(l);
      RawSizes(l, xs, qs, ks, vs);
      assert Queries(l, xs, base)[..0] + qs[0..] == qs && Keys(l, xs, base)[..0] + ks[0..] == ks;
      var i := 0;
      while i < batch
        invariant 0 <= i <= batch
        invariant Holds(bq[..], c.d.AttDim(), Queries(l, xs, base)[..i] + qs[i..])
        invariant Holds(bk[..], c.d.KvDim(), Keys(l, xs, base)[..i] + ks[i..])
        invariant Holds(bv[..], c.d.KvDim(), vs)
        invariant LayerView(l) == StoreAll(c, c.layers[l], old(LayerView(l)), xs, base, i)
        invariant forall m | 0 <= m < c.d.nLayers && m != l :: LayerView(m) == old(LayerView(m))
      {
        RotateRow(l, base, i, xs, qs, ks, vs);
        i := i + 1;
      }
      assert Queries(l, xs, base)[..i] + qs[i..] == Queries(l, xs, base);
    }

    /** Norm, products and rotation of the whole batch; the keys and values go
        to the cache. */
    method KvRows(l: nat, base: nat, batch: nat, ghost xs: seq<Vector>)
      requires Valid() && l < c.d.nLayers && batch == |xs| <= MAX_BATCH && Rows(c, xs) && base + |xs| <= c.d.ctx
      requires Holds(bx[..], c.d.dim, xs)
      modifies bxb, bq, bk, bv, acts.q8, acts.q8k, keyCache, valCache
      ensures Holds(bq[..], c.d.AttDim(), Queries(l, xs, base))
      ensures LayerView(l) == StoreAll(c, c.layers[l], old(LayerView(l)), xs, base, |xs|)
      ensures forall m | 0 <= m < c.d.nLayers && m != l :: LayerView(m) == old(LayerView(m))
    {
      hide Holds, MatVec, Shaped, Sized, Buffers, BufferSizes, LayerOf, StoreAll, MatVecAll, ValidConfig, Rms;
      HasLayer(l);
      var d, w := c.d, c.layers[l];
      BatchQkv(l, batch, xs);
      ghost var n := RmsAll(c.o, xs, w.attnNorm);
      RotateRows(l, base, batch, xs, MatVecAll(c.o, w.wq, d.AttDim(), n), MatVecAll(c.o, w.wk, d.KvDim(), n), MatVecAll(c.o, w.wv, d.KvDim(), n));
    }

    ghost function HeadRows(l: nat, xs: seq<Vector>, base: nat, kv: LayerCache): (hs: seq<Vector>)
      requires Valid() && l < c.d.nLayers && Rows(c, xs) && base + |xs| <= c.d.ctx && ValidLayerCache(c.d, kv)
      ensures |hs| == |xs| && forall i | 0 <= i < |xs| :: |hs[i]| == c.d.AttDim()
    {
      seq(|xs|, i requires 0 <= i < |xs| => Heads(c, Query(c, c.layers[l], xs[i], base + i), kv, base + i, c.d.nHeads))
    }

    /** Attention of every row against the cache. */
    method AttendRows(l: nat, base: nat, batch: nat, ghost xs: seq<Vector>)
      requires Valid() && l < c.d.nLayers && batch == |xs| <= MAX_BATCH && Rows(c, xs) && base + |xs| <= c.d.ctx
      requires Holds(bq[..], c.d.AttDim(), Queries(l, xs, base))
      modifies att, battn
      ensures Holds(battn[..], c.d.AttDim(), HeadRows(l, xs, base, LayerView(l)))
    {
      hide Holds, Query, LayerOf, Sized, Shaped, ValidConfig, Buffers, Heads;
      BatchRoom(batch);
      ghost var hs := HeadRows(l, xs, base, LayerView(l));
      HoldsNone(battn[..], c.d.AttDim());
      var i := 0;
      while i < batch
        invariant 0 <= i <= batch && Holds(battn[..], c.d.AttDim(), hs[..i])
        invariant Holds(bq[..], c.d.AttDim(), Queries(l, xs, base))
      {
        RowFits(i, batch, c.d.AttDim(), battn.Length);
        var qr := ReadRow(bq, i, c.d.AttDim(), Queries(l, xs, base));
        var out := Attend(l, base + i, qr);
        AppendRow(battn, i, c.d.AttDim(), out, hs[..i]);
        assert hs[..i] + [hs[i]] == hs[..i + 1];
        i := i + 1;
      }
      assert hs[..i] == hs;
    }

    /** Output projection and residual. */
    method ProjectRows(l: nat, batch: nat, ghost xs: seq<Vector>, ghost hs: seq<Vector>)
      requires Valid() && l < c.d.nLayers && batch == |xs| == |hs| <= MAX_BATCH && Rows(c, xs) && Holds(bx[..], c.d.dim, xs)
      requires (forall i | 0 <= i < |hs| :: |hs[i]| == c.d.AttDim()) && Holds(battn[..], c.d.AttDim(), hs)
      modifies bx, bxb, acts.q8, acts.q8k
      ensures AllShaped(c.layers[l].wo, c.d.dim, hs)
      ensures var ys := MatVecAll(c.o, c.layers[l].wo, c.d.dim, hs);
        SameShape(ys, xs) && Holds(bx[..], c.d.dim, ResidualAll(c.o, xs, ys))
    {
      hide Holds, MatVec, Shaped, Sized, Buffers, BufferSizes;
      var d, w := c.d, c.layers[l];
      assert ValidLayer(d, w);
      BatchRoom(batch);
      ScratchRoom(FormatOf(w.wo.dtype), d.AttDim(), batch);
      acts.MatmulOne(c.o, Job(bxb, w.wo, d.dim), battn, batch, d.AttDim(), split(d.dim), fast);
      ProductsHold(c.o, bxb[..], w.wo, d.dim, battn[..], d.AttDim(), hs);
      ResidualRows(c.o, bx, bxb, batch, d.dim, xs, MatVecAll(c.o, w.wo, d.dim, hs));
    }

    ghost function MlpAll(l: nat, xs: seq<Vector>): (ys: seq<Vector>)
      requires Valid() && l < c.d.nLayers && Rows(c, xs)
      ensures |ys| == |xs| && Rows(c, ys)
    {
      seq(|xs|, i requires 0 <= i < |xs| => AfterMlp(c, c.layers[l], xs[i]))
    }

    /** Normed rows, their gate and up products, and the gated rows. */
    method GateRows(l: nat, batch: nat, ghost xs: seq<Vector>)
      requires Valid() && l < c.d.nLayers && batch == |xs| <= MAX_BATCH && Rows(c, xs) && Holds(bx[..], c.d.dim, xs)
      modifies bxb, bgate, bup, acts.q8, acts.q8k
      ensures var w, n := c.layers[l], RmsAll(c.o, xs, c.layers[l].ffnNorm);
        && AllShaped(w.wGate, c.d.ffnDim, n) && AllShaped(w.wUp, c.d.ffnDim, n)
        && var gs, us := MatVecAll(c.o, w.wGate, c.d.ffnDim, n), MatVecAll(c.o, w.wUp, c.d.ffnDim, n);
          SameShape(us, gs) && Holds(bgate[..], c.d.ffnDim, SwigluAll(c.o, gs, us))
    {
      hide Holds, MatVec, Shaped, Sized, Buffers, BufferSizes;
      var d, w := c.d, c.layers[l];
      assert ValidLayer(d, w);
      BatchRoom(batch);
      RmsRows(c.o, bxb, bx, w.ffnNorm, batch, d.dim, xs);
      ghost var n := RmsAll(c.o, xs, w.ffnNorm);
      var jobs := [Job(bgate, w.wGate, d.ffnDim), Job(bup, w.wUp, d.ffnDim)];
      forall j | 0 <= j < 2
        ensures batch * (d.dim / BlockSize(jobs[j].m.dtype)) <= acts.Buffer(FormatOf(jobs[j].m.dtype)).Length
      {
        ScratchRoom(FormatOf(jobs[j].m.dtype), d.dim, batch);
      }
      acts.MatmulGroup(c.o, jobs, bxb, batch, d.dim, split, fast);
      ProductsHold(c.o, jobs[0].y[..], w.wGate, d.ffnDim, bxb[..], d.dim, n);
      ProductsHold(c.o, jobs[1].y[..], w.wUp, d.ffnDim, bxb[..], d.dim, n);
      SwigluRows(c.o, bgate, bup, batch, d.ffnDim, MatVecAll(c.o, w.wGate, d.ffnDim, n), MatVecAll(c.o, w.wUp, d.ffnDim, n));
    }

    /** The MLP block over a batch. */
    method MlpRows(l: nat, batch: nat, ghost xs: seq<Vector>)
      requires Valid() && l < c.d.nLayers && batch == |xs| <= MAX_BATCH && Rows(c, xs) && Holds(bx[..], c.d.dim, xs)
      modifies bx, bxb, bgate, bup, acts.q8, acts.q8k
      ensures Holds(bx[..], c.d.dim, MlpAll(l, xs))
    {
      hide Holds, MatVec, Shaped, Sized, Buffers, BufferSizes, Rms, Swiglu, Residual;
      var d, w := c.d, c.layers[l];
      assert ValidLayer(d, w);
      BatchRoom(batch);
      GateRows(l, batch, xs);
      ghost var n := RmsAll(c.o, xs, w.ffnNorm);
      ghost var gs := SwigluAll(c.o, MatVecAll(c.o, w.wGate, d.ffnDim, n), MatVecAll(c.o, w.wUp, d.ffnDim, n));
      ScratchRoom(FormatOf(w.wDown.dtype), d.ffnDim, batch);
      acts.MatmulOne(c.o, Job(bxb, w.wDown, d.dim), bgate, batch, d.ffnDim, split(d.dim), fast);
      ProductsHold(c.o, bxb[..], w.wDown, d.dim, bgate[..], d.ffnDim, gs);
      ghost var ys := MatVecAll(c.o, w.wDown, d.dim, gs);
      ResidualRows(c.o, bx, bxb, batch, d.dim, xs, ys);
      assert ResidualAll(c.o, xs, ys) == MlpAll(l, xs);
    }

    ghost function AttentionAll(l: nat, xs: seq<Vector>, base: nat, kv: LayerCache): (ys: seq<Vector>)
      requires Valid() && l < c.d.nLayers && Rows(c, xs) && base + |xs| <= c.d.ctx && ValidLayerCache(c.d, kv)
      ensures |ys| == |xs| && Rows(c, ys)
    {
      seq(|xs|, i requires 0 <= i < |xs| => AfterAttention(c, c.layers[l], kv, xs[i], base + i))
    }

    lemma AttentionRowsAre(l: nat, base: nat, xs: seq<Vector>, kv: LayerCache)
      requires Valid() && l < c.d.nLayers && Rows(c, xs) && base + |xs| <= c.d.ctx && ValidLayerCache(c.d, kv)
      requires AllShaped(c.layers[l].wo, c.d.dim, HeadRows(l, xs, base, kv))
      ensures var ys := MatVecAll(c.o, c.layers[l].wo, c.d.dim, HeadRows(l, xs, base, kv));
        SameShape(ys, xs) && ResidualAll(c.o, xs, ys) == AttentionAll(l, xs, base, kv)
    {
      hide MatVec, Shaped, Sized, Buffers, Distinct, Residual, Heads, Query;
    }

    /** The attention half of a layer: keys and values of the whole batch are
        written before any row attends. */
    method AttentionRows(l: nat, base: nat, batch: nat, ghost xs: seq<Vector>)
      requires Valid() && l < c.d.nLayers && batch == |xs| <= MAX_BATCH && Rows(c, xs) && base + |xs| <= c.d.ctx
      requires Holds(bx[..], c.d.dim, xs)
      modifies bx, bxb, bq, bk, bv, battn, att, acts.q8, acts.q8k, keyCache, valCache
      ensures LayerView(l) == StoreAll(c, c.layers[l], old(LayerView(l)), xs, base, |xs|)
      ensures Holds(bx[..], c.d.dim, AttentionAll(l, xs, base, LayerView(l)))
      ensures forall m | 0 <= m < c.d.nLayers && m != l :: LayerView(m) == old(LayerView(m))
    {
      hide Holds, MatVec, Shaped, Sized, Buffers, BufferSizes, HeadRows, LayerOf, StoreAll, MatVecAll, AttentionAll, ValidConfig, Rms;
      HasLayer(l);
      KvRows(l, base, batch, xs);
      AttendRows(l, base, batch, xs);
      ProjectRows(l, batch, xs, HeadRows(l, xs, base, LayerView(l)));
      AttentionRowsAre(l, base, xs, LayerView(l));
    }

    lemma LayerRowsAre(l: nat, base: nat, xs: seq<Vector>, kv: LayerCache)
      requires Valid() && l < c.d.nLayers && Rows(c, xs) && base + |xs| <= c.d.ctx && ValidLayerCache(c.d, kv)
      ensures MlpAll(l, AttentionAll(l, xs, base, StoreAll(c, c.layers[l], kv, xs, base, |xs|))) == BatchLayer(c, c.layers[l], kv, xs, base)
    {
      hide Shaped, Sized, Buffers, Distinct, AfterMlp, AfterAttention;
    }

    /** One layer of a batch. */
    method BatchStep(l: nat, base: nat, batch: nat, ghost xs: seq<Vector>)
      requires Valid() && l < c.d.nLayers && batch == |xs| <= MAX_BATCH && Rows(c, xs) && base + |xs| <= c.d.ctx
      requires Holds(bx[..], c.d.dim, xs)
      modifies bx, bxb, bq, bk, bv, battn, bgate, bup, att, acts.q8, acts.q8k, keyCache, valCache
      ensures Holds(bx[..], c.d.dim, BatchLayer(c, c.layers[l], old(LayerView(l)), xs, base))
      ensures LayerView(l) == StoreAll(c, c.layers[l], old(LayerView(l)), xs, base, |xs|)
      ensures forall m | 0 <= m < c.d.nLayers && m != l :: LayerView(m) == old(LayerView(m))
    {
      hide Holds, Shaped, Sized, Buffers, LayerOf, StoreAll, MlpAll, AttentionAll, BatchLayer, ValidConfig;
      HasLayer(l);
      AttentionRows(l, base, batch, xs);
      MlpRows(l, batch, AttentionAll(l, xs, base, LayerView(l)));
      LayerRowsAre(l, base, xs, old(LayerView(l)));
    }

    // ---- Whole chunks -------------------------------------------------------------------------

    lemma VectorSizes()
      requires Valid()
      ensures x.Length == c.d.dim && xb.Length == c.d.dim && xb2.Length == c.d.dim && logits.Length == c.d.vocab
      ensures q.Length == c.d.AttDim() && attnOut.Length == c.d.AttDim() && k.Length == c.d.KvDim() && v.Length == c.d.KvDim()
      ensures gate.Length == c.d.ffnDim && up.Length == c.d.ffnDim
    {
      hide ValidConfig, Distinct;
      var b := Buffers();
      assert b[0] == x && b[1] == xb && b[2] == xb2 && b[3] == q && b[4] == attnOut && b[5] == k && b[6] == v;
      assert b[8] == gate && b[9] == up && b[10] == logits;
    }

    lemma HasOutput()
      requires Valid()
      ensures Shaped(c.output, c.d.vocab, c.d.dim) && Shaped(c.embed, c.d.vocab, c.d.dim)
    {
    }

    method SetAll(a: array<Float>, s: seq<Float>)
      requires a.Length == |s|
      modifies a
      ensures a[..] == s
    {
      SetSlice(a, 0, s);
      assert a[0..|s|] == a[..];
    }

    lemma VecScratch(f: Format, cols: nat)
      requires Valid() && cols <= MaxDim(c.d)
      ensures cols / FormatSize(f) <= acts.Buffer(f).Length
    {
      ScratchRoom(f, cols, 1);
    }

    /** Final norm, classifier and logit scale for one hidden state. */
    method Finish(h: Vector)
      requires Valid() && |h| == c.d.dim
      modifies xb, logits, acts.q8, acts.q8k
      ensures Shaped(c.output, c.d.vocab, c.d.dim) && logits[..] == Classify(c, h)
    {
      hide ValidConfig, Sized, Buffers, MatVec, Shaped;
      VectorSizes();
      HasOutput();
      VecScratch(FormatOf(c.output.dtype), c.d.dim);
      SetAll(xb, Rms(c.o, h, c.outNorm));
      acts.MatvecOne(c.o, Job(logits, c.output, c.d.vocab), xb, split(c.d.vocab));
      ScaleLogits();
    }

    method ScaleLogits()
      modifies logits
      ensures forall j | 0 <= j < logits.Length :: logits[j] == c.o.logitScale(old(logits[j]))
    {
      var i := 0;
      while i < logits.Length
        invariant 0 <= i <= logits.Length
        invariant forall j | 0 <= j < i :: logits[j] == c.o.logitScale(old(logits[j]))
        invariant forall j | i <= j < logits.Length :: logits[j] == old(logits[j])
      {
        logits[i] := c.o.logitScale(logits[i]);
        i := i + 1;
      }
    }

    /** One layer's view changed and no other: the cache is updated at `l`. */
    lemma CacheUpdated(kv: seq<LayerCache>, l: nat, layer: LayerCache)
      requires Valid() && |kv| == c.d.nLayers && l < c.d.nLayers && LayerView(l) == layer
      requires forall m | 0 <= m < c.d.nLayers && m != l :: LayerView(m) == kv[m]
      ensures CacheOf(c.d, keyCache[..], valCache[..]) == kv[l := layer]
    {
      hide ValidConfig, Distinct, LayerOf;
    }

    lemma CacheSnapshot()
      requires Valid()
      ensures ValidCache(c.d, CacheOf(c.d, keyCache[..], valCache[..]))
      ensures forall m | 0 <= m < c.d.nLayers :: LayerView(m) == CacheOf(c.d, keyCache[..], valCache[..])[m]
    {
      hide ValidConfig, Distinct, LayerOf;
    }

    /** All layers over a batch. */
    method BatchLayersLoop(base: nat, batch: nat, ghost xs: seq<Vector>)
      requires Valid() && batch == |xs| <= MAX_BATCH && Rows(c, xs) && base + |xs| <= c.d.ctx && Holds(bx[..], c.d.dim, xs)
      modifies bx, bxb, bq, bk, bv, battn, bgate, bup, att, acts.q8, acts.q8k, keyCache, valCache
      ensures ValidCache(c.d, old(CacheOf(c.d, keyCache[..], valCache[..])))
      ensures var (ys, kv) := BatchLayers(c, old(CacheOf(c.d, keyCache[..], valCache[..])), xs, base, c.d.nLayers);
        Holds(bx[..], c.d.dim, ys) && CacheOf(c.d, keyCache[..], valCache[..]) == kv
    {
      hide Holds, Shaped, Sized, Buffers, LayerOf, StoreAll, BatchLayer, ValidConfig, CacheOf, ValidLayerCache, Distinct;
      CacheSnapshot();
      KeySizes();
      ghost var kv0 := CacheOf(c.d, keyCache[..], valCache[..]);
      var l := 0;
      while l < c.d.nLayers
        invariant 0 <= l <= c.d.nLayers
        invariant var (ys, kv) := BatchLayers(c, kv0, xs, base, l);
          Holds(bx[..], c.d.dim, ys) && CacheOf(c.d, keyCache[..], valCache[..]) == kv
      {
        ghost var (ys, kv) := BatchLayers(c, kv0, xs, base, l);
        HasLayer(l);
        CacheSnapshot();
        BatchStep(l, base, batch, ys);
        CacheUpdated(kv, l, StoreAll(c, c.layers[l], kv[l], ys, base, |ys|));
        l := l + 1;
      }
    }

    /** Batched prefill of 1 to 64 tokens. */
    method PrefillChunk(tokens: seq<nat>)
      requires Valid() && 1 <= |tokens| <= MAX_BATCH && pos + |tokens| <= c.d.ctx
      requires forall i | 0 <= i < |tokens| :: tokens[i] < c.d.vocab
      modifies this`pos, xb, logits, bx, bxb, bq, bk, bv, battn, bgate, bup, att, acts.q8, acts.q8k, keyCache, valCache
      ensures Fits(c, old(View()), tokens) && View() == Chunk(c, old(View()), tokens)
      ensures View() == Decode(c, old(View()), tokens)
    {
      hide Holds, Shaped, Sized, Buffers, BatchLayers, ValidConfig, CacheOf, ValidLayerCache, Decode, Embed, Classify, Distinct;
      ghost var s := View();
      HasOutput();
      CacheSnapshot();
      Interchange.ChunkIsDecode(c, s, tokens);
      BatchRoom(|tokens|);
      EmbedRows(c, bx, tokens);
      BatchLayersLoop(pos, |tokens|, EmbedAll(c, tokens));
      ghost var r := BatchLayers(c, s.kv, EmbedAll(c, tokens), s.pos, c.d.nLayers);
      var last := ReadRow(bx, |tokens| - 1, c.d.dim, r.0);
      Finish(last);
      pos := pos + |tokens|;
    }

    // ---- One token ----------------------------------------------------------------------------

    /** Normed input and its query, key and value products. */
    method TokenQkv(l: nat)
      requires Valid() && l < c.d.nLayers
      modifies xb, q, k, v, acts.q8, acts.q8k
      ensures x.Length == c.d.dim && ValidLayer(c.d, c.layers[l])
      ensures var n := Rms(c.o, x[..], c.layers[l].attnNorm);
        && q[..] == MatVec(c.o, c.layers[l].wq, c.d.AttDim(), n)
        && k[..] == MatVec(c.o, c.layers[l].wk, c.d.KvDim(), n)
        && v[..] == MatVec(c.o, c.layers[l].wv, c.d.KvDim(), n)
    {
      hide MatVec, Shaped, Sized, Buffers, ValidConfig;
      HasLayer(l);
      VectorSizes();
      var d, w := c.d, c.layers[l];
      SetAll(xb, Rms(c.o, x[..], w.attnNorm));
      var jobs := [Job(q, w.wq, d.AttDim()), Job(k, w.wk, d.KvDim()), Job(v, w.wv, d.KvDim())];
      forall j | 0 <= j < 3 ensures d.dim / BlockSize(jobs[j].m.dtype) <= acts.Buffer(FormatOf(jobs[j].m.dtype)).Length {
        VecScratch(FormatOf(jobs[j].m.dtype), d.dim);
      }
      acts.MatvecGroup(c.o, jobs, xb, split);
      assert jobs[0].y == q && jobs[1].y == k && jobs[2].y == v;
    }

    lemma Turned(l: nat, h: Vector, p: nat)
      requires Valid() && l < c.d.nLayers && |h| == c.d.dim
      ensures ValidLayer(c.d, c.layers[l])
      ensures var w, n := c.layers[l], Rms(c.o, h, c.layers[l].attnNorm);
        && Query(c, w, h, p) == Turn(MatVec(c.o, w.wq, c.d.AttDim(), n), if w.qkNorm.Some? then Some(w.qkNorm.value.0) else None, p)
        && Key(c, w, h, p) == Turn(MatVec(c.o, w.wk, c.d.KvDim(), n), if w.qkNorm.Some? then Some(w.qkNorm.value.1) else None, p)
        && Value(c, w, h) == MatVec(c.o, w.wv, c.d.KvDim(), n)
    {
      hide MatVec, Rope, HeadNorm, Rms, Shaped, Sized, Distinct;
    }

    /** Query, key and value of one token; the key and value go to the cache. */
    method TokenKv(l: nat, p: nat)
      requires Valid() && l < c.d.nLayers && p < c.d.ctx
      modifies xb, q, k, v, acts.q8, acts.q8k, keyCache, valCache
      ensures x.Length == c.d.dim && ValidLayer(c.d, c.layers[l])
      ensures q[..] == Query(c, c.layers[l], x[..], p)
      ensures LayerView(l) == Store(c, c.layers[l], old(LayerView(l)), x[..], p)
      ensures forall m | 0 <= m < c.d.nLayers && m != l :: LayerView(m) == old(LayerView(m))
    {
      hide MatVec, Shaped, Sized, Buffers, ValidConfig, LayerOf, Query, Key, Value, Turn;
      HasLayer(l);
      VectorSizes();
      var d, w := c.d, c.layers[l];
      TokenQkv(l);
      Turned(l, x[..], p);
      TurnInPlace(q, if w.qkNorm.Some? then Some(w.qkNorm.value.0) else None, p);
      TurnInPlace(k, if w.qkNorm.Some? then Some(w.qkNorm.value.1) else None, p);
      AppendKv(l, p, k[..], v[..]);
    }

    /** The attention half of a layer for one token. */
    method TokenAttention(l: nat, p: nat)
      requires Valid() && l < c.d.nLayers && p < c.d.ctx
      modifies x, xb, xb2, q, k, v, attnOut, att, acts.q8, acts.q8k, keyCache, valCache
      ensures x.Length == c.d.dim && ValidLayer(c.d, c.layers[l])
      ensures LayerView(l) == Store(c, c.layers[l], old(LayerView(l)), old(x[..]), p)
      ensures x[..] == AfterAttention(c, c.layers[l], LayerView(l), old(x[..]), p)
      ensures forall m | 0 <= m < c.d.nLayers && m != l :: LayerView(m) == old(LayerView(m))
    {
      hide MatVec, Shaped, Sized, Buffers, ValidConfig, LayerOf, Heads, Query, Store, Residual;
      HasLayer(l);
      VectorSizes();
      var d, w := c.d, c.layers[l];
      TokenKv(l, p);
      var out := Attend(l, p, q[..]);
      SetAll(attnOut, out);
      VecScratch(FormatOf(w.wo.dtype), d.AttDim());
      acts.MatvecOne(c.o, Job(xb2, w.wo, d.dim), attnOut, split(d.dim));
      AddResidual(xb2[..]);
    }

    method TurnInPlace(a: array<Float>, norm: Option<Vector>, p: nat)
      modifies a
      ensures a[..] == Turn(old(a[..]), norm, p)
    {
      hide Rope, HeadNorm;
      SetAll(a, Turn(a[..], norm, p));
    }

    method AddResidual(y: Vector)
      requires Valid() && |y| == c.d.dim
      modifies x
      ensures x.Length == c.d.dim && x[..] == Residual(c.o, old(x[..]), y)
    {
      hide Residual, ValidConfig;
      VectorSizes();
      SetAll(x, Residual(c.o, x[..], y));
    }

    /** Normed input, its gate and up products, and the gated vector. */
    method TokenGate(l: nat)
      requires Valid() && l < c.d.nLayers
      modifies xb, gate, up, acts.q8, acts.q8k
      ensures x.Length == c.d.dim && ValidLayer(c.d, c.layers[l])
      ensures var w, n := c.layers[l], Rms(c.o, x[..], c.layers[l].ffnNorm);
        gate[..] == Swiglu(c.o, MatVec(c.o, w.wGate, c.d.ffnDim, n), MatVec(c.o, w.wUp, c.d.ffnDim, n))
    {
      hide MatVec, Shaped, Sized, Buffers, ValidConfig, Residual, Swiglu, Rms;
      HasLayer(l);
      VectorSizes();
      var d, w := c.d, c.layers[l];
      SetAll(xb, Rms(c.o, x[..], w.ffnNorm));
      var jobs := [Job(gate, w.wGate, d.ffnDim), Job(up, w.wUp, d.ffnDim)];
      forall j | 0 <= j < 2 ensures d.dim / BlockSize(jobs[j].m.dtype) <= acts.Buffer(FormatOf(jobs[j].m.dtype)).Length {
        VecScratch(FormatOf(jobs[j].m.dtype), d.dim);
      }
      acts.MatvecGroup(c.o, jobs, xb, split);
      assert jobs[0].y == gate && jobs[1].y == up;
      SetAll(gate, Swiglu(c.o, gate[..], up[..]));
    }

    /** The MLP block for one token. */
    method TokenMlp(l: nat)
      requires Valid() && l < c.d.nLayers
      modifies x, xb, xb2, gate, up, acts.q8, acts.q8k
      ensures x.Length == c.d.dim && ValidLayer(c.d, c.layers[l])
      ensures x[..] == AfterMlp(c, c.layers[l], old(x[..]))
    {
      hide MatVec, Shaped, Sized, Buffers, ValidConfig, Residual, Swiglu, Rms;
      HasLayer(l);
      VectorSizes();
      var d, w := c.d, c.layers[l];
      TokenGate(l);
      VecScratch(FormatOf(w.wDown.dtype), d.ffnDim);
      acts.MatvecOne(c.o, Job(xb2, w.wDown, d.dim), gate, split(d.dim));
      AddResidual(xb2[..]);
    }

    /** One layer for one token. */
    method TokenStep(l: nat, p: nat)
      requires Valid() && l < c.d.nLayers && p < c.d.ctx
      modifies x, xb, xb2, q, k, v, attnOut, att, gate, up, acts.q8, acts.q8k, keyCache, valCache
      ensures x.Length == c.d.dim && ValidLayer(c.d, c.layers[l])
      ensures LayerView(l) == Store(c, c.layers[l], old(LayerView(l)), old(x[..]), p)
      ensures x[..] == LayerOut(c, c.layers[l], LayerView(l), old(x[..]), p)
      ensures forall m | 0 <= m < c.d.nLayers && m != l :: LayerView(m) == old(LayerView(m))
    {
      hide Shaped, Sized, Buffers, LayerOf, ValidConfig, Store, AfterAttention, AfterMlp;
      TokenAttention(l, p);
      TokenMlp(l);
    }

    /** All layers for one token. */
    method TokenLayersLoop(p: nat)
      requires Valid() && p < c.d.ctx
      modifies x, xb, xb2, q, k, v, attnOut, att, gate, up, acts.q8, acts.q8k, keyCache, valCache
      ensures x.Length == c.d.dim && ValidCache(c.d, old(CacheOf(c.d, keyCache[..], valCache[..])))
      ensures (x[..], CacheOf(c.d, keyCache[..], valCache[..])) ==
        TokenLayers(c, old(CacheOf(c.d, keyCache[..], valCache[..])), old(x[..]), p, c.d.nLayers)
    {
      hide Shaped, Sized, Buffers, LayerOf, ValidConfig, CacheOf, ValidLayerCache, Store, LayerOut, Distinct;
      CacheSnapshot();
      KeySizes();
      VectorSizes();
      ghost var kv0, h := CacheOf(c.d, keyCache[..], valCache[..]), x[..];
      var l := 0;
      while l < c.d.nLayers
        invariant 0 <= l <= c.d.nLayers
        invariant (x[..], CacheOf(c.d, keyCache[..], valCache[..])) == TokenLayers(c, kv0, h, p, l)
      {
        ghost var (y, kv) := TokenLayers(c, kv0, h, p, l);
        HasLayer(l);
        CacheSnapshot();
        TokenStep(l, p);
        CacheUpdated(kv, l, Store(c, c.layers[l], kv[l], y, p));
        l := l + 1;
      }
    }

    /** Run one token at the current position. */
    method Forward(token: nat)
      requires Valid() && pos < c.d.ctx && token < c.d.vocab
      modifies this`pos, x, xb, xb2, q, k, v, attnOut, att, gate, up, logits, acts.q8, acts.q8k, keyCache, valCache
      ensures ValidSession(c, old(View())) && View() == Step(c, old(View()), token)
    {
      hide Shaped, Sized, Buffers, ValidConfig, CacheOf, ValidLayerCache, TokenLayers, Embed, Classify, Distinct;
      CacheSnapshot();
      HasOutput();
      VectorSizes();
      SetAll(x, Embed(c, token));
      TokenLayersLoop(pos);
      Finish(x[..]);
      pos := pos + 1;
    }

    // ---- Prompts of any length ----------------------------------------------------------------

    method Reset()
      requires Valid()
      modifies this`pos
      ensures View() == old(View()).(pos := 0)
    {
      pos := 0;
    }

    /** Prefill in chunks of at most 64 tokens. */
    method Prefill(tokens: seq<nat>)
      requires Valid() && tokens != [] && pos + |tokens| <= c.d.ctx
      requires forall i | 0 <= i < |tokens| :: tokens[i] < c.d.vocab
      modifies this`pos, xb, logits, bx, bxb, bq, bk, bv, battn, bgate, bup, att, acts.q8, acts.q8k, keyCache, valCache
      ensures Fits(c, old(View()), tokens) && View() == Decode(c, old(View()), tokens)
    {
      hide Shaped, Sized, Buffers, ValidConfig, CacheOf, ValidLayerCache, Step, Distinct, Chunk;
      CacheSnapshot();
      ghost var s := View();
      var at := 0;
      while at < |tokens|
        invariant 0 <= at <= |tokens| && Fits(c, s, tokens[..at])
        invariant View() == Decode(c, s, tokens[..at])
      {
        var end := if |tokens| - at < MAX_BATCH then |tokens| else at + MAX_BATCH;
        var chunk := tokens[at..end];
        assert tokens[..at] + chunk == tokens[..end];
        Interchange.DecodeAppend(c, s, tokens[..at], chunk);
        PrefillChunk(chunk);
        at := end;
      }
      assert tokens[..at] == tokens;
    }
  }
}
