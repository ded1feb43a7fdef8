/** Batched prefill leaves exactly what sequential decode leaves. */
module Interchange {
  import opened Numbers
  import opened Kernels
  import opened Forward

  // ---- Which layer touches what -------------------------------------------------------

  lemma {:induction false} LaterLayersUntouched(c: Config, kv: seq<LayerCache>, xs: seq<Vector>, base: nat, n: nat, l: nat)
    requires ValidConfig(c) && ValidCache(c.d, kv) && Rows(c, xs) && base + |xs| <= c.d.ctx && n <= l < c.d.nLayers
    ensures BatchLayers(c, kv, xs, base, n).1[l] == kv[l]
    decreases n
  {
    hide StoreAll, BatchLayer, ValidLayer, ValidLayerCache, Shaped;
    if n > 0 {
      LaterLayersUntouched(c, kv, xs, base, n - 1, l);
    }
  }

  lemma {:induction false} EarlierLayersSettled(c: Config, kv: seq<LayerCache>, xs: seq<Vector>, base: nat, m: nat, n: nat, l: nat)
    requires ValidConfig(c) && ValidCache(c.d, kv) && Rows(c, xs) && base + |xs| <= c.d.ctx
    requires l < m <= n <= c.d.nLayers
    ensures BatchLayers(c, kv, xs, base, n).1[l] == BatchLayers(c, kv, xs, base, m).1[l]
    decreases n
  {
    hide StoreAll, BatchLayer, ValidLayer, ValidLayerCache, Shaped;
    if m < n {
      EarlierLayersSettled(c, kv, xs, base, m, n - 1, l);
    }
  }

  lemma {:induction false} TokenLaterUntouched(c: Config, kv: seq<LayerCache>, x: Vector, pos: nat, n: nat, l: nat)
    requires ValidConfig(c) && ValidCache(c.d, kv) && |x| == c.d.dim && pos < c.d.ctx && n <= l < c.d.nLayers
    ensures TokenLayers(c, kv, x, pos, n).1[l] == kv[l]
    decreases n
  {
    hide Store, LayerOut, ValidLayer, ValidLayerCache, Shaped;
    if n > 0 {
      TokenLaterUntouched(c, kv, x, pos, n - 1, l);
    }
  }

  lemma {:induction false} StoreAllPrefix(c: Config, w: Layer, kv: LayerCache, xs: seq<Vector>, x: Vector, base: nat, n: nat)
    requires ValidLayer(c.d, w) && Rows(c, xs) && |x| == c.d.dim && ValidLayerCache(c.d, kv)
    requires n <= |xs| && base + n <= c.d.ctx
    ensures Rows(c, xs + [x])
    ensures StoreAll(c, w, kv, xs + [x], base, n) == StoreAll(c, w, kv, xs, base, n)
    decreases n
  {
    if n > 0 {
      StoreAllPrefix(c, w, kv, xs, x, base, n - 1);
    }
  }

  // ---- Loop interchange -----------------------------------------------------------------

  /** Adding one more row to a batch changes nothing for the rows before it, and
      the new row fares as if it were decoded alone after the smaller batch. */
  lemma {:induction false} OneMoreRow(c: Config, kv: seq<LayerCache>, xs: seq<Vector>, x: Vector, base: nat, n: nat)
    requires ValidConfig(c) && ValidCache(c.d, kv) && Rows(c, xs) && |x| == c.d.dim
    requires base + |xs| < c.d.ctx && n <= c.d.nLayers
    ensures Rows(c, xs + [x])
    ensures var full := BatchLayers(c, kv, xs, base, c.d.nLayers).1;
      var a := BatchLayers(c, kv, xs, base, n);
      var b := BatchLayers(c, kv, xs + [x], base, n);
      var f := TokenLayers(c, full, x, base + |xs|, n);
      && b.0 == a.0 + [f.0]
      && (forall l | 0 <= l < n :: b.1[l] == f.1[l])
    decreases n
  {
    hide LayerOut, Store, ValidLayerCache, ValidLayer, Shaped;
    if n > 0 {
      var l := n - 1;
      var w := c.layers[l];
      OneMoreRow(c, kv, xs, x, base, l);
      var full := BatchLayers(c, kv, xs, base, c.d.nLayers).1;
      var a := BatchLayers(c, kv, xs, base, l);
      var b := BatchLayers(c, kv, xs + [x], base, l);
      var f := TokenLayers(c, full, x, base + |xs|, l);
      LaterLayersUntouched(c, kv, xs, base, l, l);
      LaterLayersUntouched(c, kv, xs + [x], base, l, l);
      EarlierLayersSettled(c, kv, xs, base, n, c.d.nLayers, l);
      TokenLaterUntouched(c, full, x, base + |xs|, l, l);
      StoreAllPrefix(c, w, kv[l], a.0, f.0, base, |xs|);
      assert full[l] == StoreAll(c, w, kv[l], a.0, base, |xs|);
      var mine := StoreAll(c, w, kv[l], b.0, base, |xs| + 1);
      assert mine == Store(c, w, full[l], f.0, base + |xs|);
      RowsAgree(c, w, full[l], mine, a.0, f.0, base);
    }
  }

  /** Rows of the smaller batch come out the same from the larger cache. */
  lemma RowsAgree(c: Config, w: Layer, small: LayerCache, large: LayerCache, xs: seq<Vector>, x: Vector, base: nat)
    requires ValidConfig(c) && ValidLayer(c.d, w) && Rows(c, xs) && |x| == c.d.dim
    requires ValidLayerCache(c.d, small) && base + |xs| < c.d.ctx
    requires large == Store(c, w, small, x, base + |xs|)
    ensures forall i | 0 <= i < |xs| :: LayerOut(c, w, large, xs[i], base + i) == LayerOut(c, w, small, xs[i], base + i)
  {
    forall i | 0 <= i < |xs|
      ensures LayerOut(c, w, large, xs[i], base + i) == LayerOut(c, w, small, xs[i], base + i)
    {
      Causal(c, w, large, small, xs[i], base + i);
    }
  }

  lemma {:induction false} EmptyBatch(c: Config, kv: seq<LayerCache>, base: nat, n: nat)
    requires ValidConfig(c) && ValidCache(c.d, kv) && base <= c.d.ctx && n <= c.d.nLayers
    ensures BatchLayers(c, kv, [], base, n) == ([], kv)
    decreases n
  {
    hide LayerOut, Store, ValidLayerCache, ValidLayer, Shaped;
    if n > 0 {
      EmptyBatch(c, kv, base, n - 1);
      assert BatchLayer(c, c.layers[n - 1], kv[n - 1], [], base) == [];
      assert kv[n - 1 := kv[n - 1]] == kv;
    }
  }

  /** One batched chunk equals decoding its tokens one by one: same position,
      same whole cache, same logits. */
  lemma {:induction false} ChunkIsDecode(c: Config, s: Session, tokens: seq<nat>)
    requires Fits(c, s, tokens) && tokens != []
    ensures Chunk(c, s, tokens) == Decode(c, s, tokens)
    decreases |tokens|
  {
    hide LayerOut, Store, ValidLayerCache, ValidLayer, BatchLayers, TokenLayers, Embed, Classify;
    var n := |tokens| - 1;
    var init := tokens[..n];
    var xs, x := EmbedAll(c, init), Embed(c, tokens[n]);
    assert EmbedAll(c, tokens) == xs + [x];
    OneMoreRow(c, s.kv, xs, x, s.pos, c.d.nLayers);
    if n == 0 {
      EmptyBatch(c, s.kv, s.pos, c.d.nLayers);
      assert Decode(c, s, init) == s;
    } else {
      ChunkIsDecode(c, s, init);
    }
    var full := BatchLayers(c, s.kv, xs, s.pos, c.d.nLayers).1;
    var b := BatchLayers(c, s.kv, xs + [x], s.pos, c.d.nLayers).1;
    assert b == TokenLayers(c, full, x, s.pos + n, c.d.nLayers).1;
  }

  // ---- Any split into chunks ---------------------------------------------------------------

  lemma {:induction false} DecodeAppend(c: Config, s: Session, p: seq<nat>, q: seq<nat>)
    requires Fits(c, s, p + q)
    ensures Fits(c, s, p) && Fits(c, Decode(c, s, p), q)
    ensures Decode(c, s, p + q) == Decode(c, Decode(c, s, p), q)
    decreases |q|
  {
    hide Step, ValidSession, ValidConfig, Shaped;
    assert forall i | 0 <= i < |p| :: p[i] == (p + q)[i];
    assert forall i | 0 <= i < |q| :: q[i] == (p + q)[|p| + i];
    if q == [] {
      assert p + q == p;
    } else {
      var n := |q| - 1;
      assert (p + q)[..|p| + n] == p + q[..n];
      DecodeAppend(c, s, p, q[..n]);
    }
  }

  /** What running the chunks one after another leaves. */
  ghost predicate Runs(c: Config, s: Session, chunks: seq<seq<nat>>, s': Session)
    decreases |chunks|
  {
    if chunks == [] then s' == s
    else
      chunks[0] != [] && Fits(c, s, chunks[0]) && Runs(c, Chunk(c, s, chunks[0]), chunks[1..], s')
  }

  function Flatten(chunks: seq<seq<nat>>): seq<nat> {
    if chunks == [] then [] else chunks[0] + Flatten(chunks[1..])
  }

  /** Any split of a prompt into chunks leaves what sequential decode leaves. */
  lemma {:induction false} PrefillIsDecode(c: Config, s: Session, chunks: seq<seq<nat>>, s': Session)
    requires Fits(c, s, Flatten(chunks)) && Runs(c, s, chunks, s')
    ensures s' == Decode(c, s, Flatten(chunks))
    decreases |chunks|
  {
    hide Chunk, ValidSession, Decode;
    if chunks != [] {
      var rest := Flatten(chunks[1..]);
      DecodeAppend(c, s, chunks[0], rest);
      ChunkIsDecode(c, s, chunks[0]);
      PrefillIsDecode(c, Chunk(c, s, chunks[0]), chunks[1..], s');
    } else {
      DecodeNothing(c, s);
    }
  }

  lemma DecodeNothing(c: Config, s: Session)
    requires Fits(c, s, [])
    ensures Decode(c, s, []) == s
  {
  }

  // ---- Stale rows ------------------------------------------------------------------------------

  /** The two caches agree on every row below `pos`. */
  ghost predicate AgreeBelow(a: seq<LayerCache>, b: seq<LayerCache>, pos: nat) {
    && |a| == |b|
    && forall l | 0 <= l < |a| ::
      && |a[l].k| == |b[l].k| && |a[l].v| == |b[l].v|
      && (forall t | 0 <= t < pos && t < |a[l].k| :: a[l].k[t] == b[l].k[t])
      && (forall t | 0 <= t < pos && t < |a[l].v| :: a[l].v[t] == b[l].v[t])
  }

  lemma StoreAgrees(c: Config, w: Layer, a: LayerCache, b: LayerCache, x: Vector, pos: nat)
    requires ValidLayer(c.d, w) && |x| == c.d.dim && ValidLayerCache(c.d, a) && ValidLayerCache(c.d, b) && pos < c.d.ctx
    requires forall t | 0 <= t < pos :: a.k[t] == b.k[t] && a.v[t] == b.v[t]
    ensures SamePast(Store(c, w, a, x, pos), Store(c, w, b, x, pos), pos)
  {
    hide ValidLayer, Key, Value;
  }

  lemma {:induction false} TokenIgnoresStale(c: Config, a: seq<LayerCache>, b: seq<LayerCache>, x: Vector, pos: nat, n: nat)
    requires ValidConfig(c) && ValidCache(c.d, a) && ValidCache(c.d, b) && |x| == c.d.dim && pos < c.d.ctx && n <= c.d.nLayers
    requires AgreeBelow(a, b, pos)
    ensures var (y, a') := TokenLayers(c, a, x, pos, n); var (z, b') := TokenLayers(c, b, x, pos, n);
      && y == z
      && AgreeBelow(a', b', pos)
      && |a'| == |b'| == c.d.nLayers && forall l | 0 <= l < n :: SamePast(a'[l], b'[l], pos)
    decreases n
  {
    hide LayerOut, ValidLayer, Shaped, Store, ValidLayerCache;
    if n > 0 {
      TokenIgnoresStale(c, a, b, x, pos, n - 1);
      var (y, a') := TokenLayers(c, a, x, pos, n - 1);
      var (z, b') := TokenLayers(c, b, x, pos, n - 1);
      var w := c.layers[n - 1];
      SizesAgree(c.d, a'[n - 1]);
      StoreAgrees(c, w, a'[n - 1], b'[n - 1], y, pos);
      Causal(c, w, Store(c, w, a'[n - 1], y, pos), Store(c, w, b'[n - 1], y, pos), y, pos);
    }
  }

  lemma SizesAgree(d: Dims, kv: LayerCache)
    requires ValidLayerCache(d, kv)
    ensures |kv.k| == d.ctx && |kv.v| == d.ctx
  {
  }

  lemma PastGrows(a: seq<LayerCache>, b: seq<LayerCache>, pos: nat)
    requires |a| == |b| && forall l | 0 <= l < |a| :: SamePast(a[l], b[l], pos)
    ensures AgreeBelow(a, b, pos + 1)
  {
  }

  /** Rows at or beyond the position are never read before they are written:
      whatever they hold, decoding gives the same logits and the same rows. */
  lemma {:induction false} DecodeIgnoresStale(c: Config, s: Session, s': Session, tokens: seq<nat>)
    requires Fits(c, s, tokens) && Fits(c, s', tokens) && s.pos == s'.pos && AgreeBelow(s.kv, s'.kv, s.pos)
    ensures AgreeBelow(Decode(c, s, tokens).kv, Decode(c, s', tokens).kv, s.pos + |tokens|)
    ensures tokens != [] ==> Decode(c, s, tokens).logits == Decode(c, s', tokens).logits
    decreases |tokens|
  {
    hide TokenLayers, Embed, Classify, AgreeBelow, ValidLayer, ValidLayerCache, Shaped;
    if tokens != [] {
      var n := |tokens| - 1;
      DecodeIgnoresStale(c, s, s', tokens[..n]);
      var a, b := Decode(c, s, tokens[..n]).kv, Decode(c, s', tokens[..n]).kv;
      TokenIgnoresStale(c, a, b, Embed(c, tokens[n]), s.pos + n, c.d.nLayers);
      PastGrows(TokenLayers(c, a, Embed(c, tokens[n]), s.pos + n, c.d.nLayers).1,
                TokenLayers(c, b, Embed(c, tokens[n]), s.pos + n, c.d.nLayers).1, s.pos + n);
    }
  }

  /** `reset` keeps the cache bytes but behaves like a fresh context. */
  lemma ResetIsFresh(c: Config, used: Session, clean: Session, tokens: seq<nat>)
    requires ValidSession(c, used) && clean.pos == 0
    requires Fits(c, clean, tokens) && tokens != []
    ensures Fits(c, used.(pos := 0), tokens)
    ensures Decode(c, used.(pos := 0), tokens).logits == Decode(c, clean, tokens).logits
    ensures AgreeBelow(Decode(c, used.(pos := 0), tokens).kv, Decode(c, clean, tokens).kv, |tokens|)
  {
    DecodeIgnoresStale(c, used.(pos := 0), clean, tokens);
  }
}
