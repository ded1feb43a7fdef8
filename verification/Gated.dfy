/** The gate and the other factor of the feed-forward part are not interchangeable: an
    operation that ignores one of them makes a model blind to the matrix behind it. */
module Gated {
  import opened Numbers
  import opened Kernels
  import opened Forward

  /** Two models that may differ in the matrices before the gate only. */
  ghost predicate Alike(c: Config, c': Config) {
    && c'.o == c.o && c'.d == c.d && c'.embed == c.embed && c'.outNorm == c.outNorm && c'.output == c.output
    && |c'.layers| == |c.layers|
    && forall l | 0 <= l < |c.layers| :: c'.layers[l] == c.layers[l].(wGate := c'.layers[l].wGate, wUp := c'.layers[l].wUp)
  }

  ghost predicate SameGates(c: Config, c': Config) {
    |c'.layers| == |c.layers| && forall l | 0 <= l < |c.layers| :: c'.layers[l].wGate == c.layers[l].wGate
  }

  ghost predicate SameUps(c: Config, c': Config) {
    |c'.layers| == |c.layers| && forall l | 0 <= l < |c.layers| :: c'.layers[l].wUp == c.layers[l].wUp
  }

  ghost predicate IgnoresUp(o: Ops) {
    forall g: Float, u: Float, u': Float :: o.swiglu(g, u) == o.swiglu(g, u')
  }

  ghost predicate IgnoresGate(o: Ops) {
    forall g: Float, g': Float, u: Float :: o.swiglu(g, u) == o.swiglu(g', u)
  }

  /** The feed-forward parts of two such models agree. */
  ghost predicate SameMlp(c: Config, c': Config)
    requires ValidConfig(c) && ValidConfig(c') && Alike(c, c')
  {
    forall l: nat, x: Vector | l < c.d.nLayers && |x| == c.d.dim :: AfterMlp(c, c.layers[l], x) == AfterMlp(c', c'.layers[l], x)
  }

  // ---- What does not look at the feed-forward part --------------------------------------------

  lemma {:induction false} MixAlike(c: Config, c': Config, probs: Vector, v: seq<CacheRow>, n: nat, h: nat)
    requires ValidConfig(c) && ValidConfig(c') && Alike(c, c') && h < c.d.nHeads
    requires n <= |probs| && n <= |v| && forall t | 0 <= t < |v| :: |v[t]| == c.d.KvDim()
    ensures Mix(c, probs, v, n, h) == Mix(c', probs, v, n, h)
    decreases n
  {
    if n > 0 {
      MixAlike(c, c', probs, v, n - 1, h);
    }
  }

  lemma {:induction false} HeadsAlike(c: Config, c': Config, q: Vector, kv: LayerCache, pos: nat, n: nat)
    requires ValidConfig(c) && ValidConfig(c') && Alike(c, c')
    requires |q| == c.d.AttDim() && n <= c.d.nHeads && ValidLayerCache(c.d, kv) && pos < c.d.ctx
    ensures Heads(c, q, kv, pos, n) == Heads(c', q, kv, pos, n)
    decreases n
  {
    if n > 0 {
      HeadsAlike(c, c', q, kv, pos, n - 1);
      MixAlike(c, c', Softmax(c.o, Scores(c, q, kv.k, pos + 1, n - 1)), kv.v, pos + 1, n - 1);
    }
  }

  lemma LayerAlike(c: Config, c': Config, l: nat, kv: LayerCache, x: Vector, pos: nat)
    requires ValidConfig(c) && ValidConfig(c') && Alike(c, c') && SameMlp(c, c')
    requires l < c.d.nLayers && |x| == c.d.dim && ValidLayerCache(c.d, kv) && pos < c.d.ctx
    ensures Store(c, c.layers[l], kv, x, pos) == Store(c', c'.layers[l], kv, x, pos)
    ensures LayerOut(c, c.layers[l], kv, x, pos) == LayerOut(c', c'.layers[l], kv, x, pos)
  {
    hide Heads, MatVec, AfterMlp;
    HeadsAlike(c, c', Query(c, c.layers[l], x, pos), kv, pos, c.d.nHeads);
  }

  lemma {:induction false} TokenAlike(c: Config, c': Config, kv: seq<LayerCache>, x: Vector, pos: nat, n: nat)
    requires ValidConfig(c) && ValidConfig(c') && Alike(c, c') && SameMlp(c, c')
    requires ValidCache(c.d, kv) && |x| == c.d.dim && pos < c.d.ctx && n <= c.d.nLayers
    ensures TokenLayers(c, kv, x, pos, n) == TokenLayers(c', kv, x, pos, n)
    decreases n
  {
    hide Store, LayerOut, SameMlp, Alike;
    AlikeSizes(c, c');
    if n > 0 {
      TokenAlike(c, c', kv, x, pos, n - 1);
      var (y, kv1) := TokenLayers(c, kv, x, pos, n - 1);
      var w := c.layers[n - 1];
      LayerAlike(c, c', n - 1, kv1[n - 1], y, pos);
      LayerAlike(c, c', n - 1, Store(c, w, kv1[n - 1], y, pos), y, pos);
    }
  }

  lemma AlikeSizes(c: Config, c': Config)
    requires Alike(c, c')
    ensures c'.d == c.d && |c'.layers| == |c.layers|
  {
  }

  lemma {:induction false} DecodeAlike(c: Config, c': Config, s: Session, tokens: seq<nat>)
    requires Fits(c, s, tokens) && Fits(c', s, tokens) && Alike(c, c') && SameMlp(c, c')
    ensures Decode(c, s, tokens) == Decode(c', s, tokens)
    decreases |tokens|
  {
    hide TokenLayers, SameMlp, Embed, Classify, ValidConfig;
    if tokens != [] {
      var n := |tokens| - 1;
      DecodeAlike(c, c', s, tokens[..n]);
      var r := Decode(c, s, tokens[..n]);
      EndsAlike(c, c', tokens[n], r);
    }
  }

  lemma EndsAlike(c: Config, c': Config, token: nat, s: Session)
    requires ValidSession(c, s) && ValidSession(c', s) && s.pos < c.d.ctx && token < c.d.vocab && Alike(c, c') && SameMlp(c, c')
    ensures Step(c, s, token) == Step(c', s, token)
  {
    hide TokenLayers, SameMlp, MatVec;
    TokenAlike(c, c', s.kv, Embed(c, token), s.pos, c.d.nLayers);
  }

  // ---- The two laws -------------------------------------------------------------------------------

  /** If the operation ignores the factor, the matrix `wUp` changes no prompt's logits
      or cache. */
  lemma UpUnseen(c: Config, c': Config, s: Session, tokens: seq<nat>)
    requires Fits(c, s, tokens) && Fits(c', s, tokens) && Alike(c, c') && SameGates(c, c') && IgnoresUp(c.o)
    ensures Decode(c, s, tokens) == Decode(c', s, tokens)
  {
    hide Decode, Residual, Rms;
    forall l: nat, x: Vector | l < c.d.nLayers && |x| == c.d.dim
      ensures AfterMlp(c, c.layers[l], x) == AfterMlp(c', c'.layers[l], x)
    {
      var n, w, w' := Rms(c.o, x, c.layers[l].ffnNorm), c.layers[l], c'.layers[l];
      UpIgnored(c.o, MatVec(c.o, w.wGate, c.d.ffnDim, n), MatVec(c.o, w.wUp, c.d.ffnDim, n), MatVec(c.o, w'.wUp, c.d.ffnDim, n));
    }
    DecodeAlike(c, c', s, tokens);
  }

  lemma UpIgnored(o: Ops, g: Vector, u: Vector, u': Vector)
    requires IgnoresUp(o) && |g| == |u| == |u'|
    ensures Swiglu(o, g, u) == Swiglu(o, g, u')
  {
  }

  /** If the operation ignores the gate, the matrix `wGate` changes none. */
  lemma GateUnseen(c: Config, c': Config, s: Session, tokens: seq<nat>)
    requires Fits(c, s, tokens) && Fits(c', s, tokens) && Alike(c, c') && SameUps(c, c') && IgnoresGate(c.o)
    ensures Decode(c, s, tokens) == Decode(c', s, tokens)
  {
    hide Decode, Residual, Rms;
    forall l: nat, x: Vector | l < c.d.nLayers && |x| == c.d.dim
      ensures AfterMlp(c, c.layers[l], x) == AfterMlp(c', c'.layers[l], x)
    {
      var n, w, w' := Rms(c.o, x, c.layers[l].ffnNorm), c.layers[l], c'.layers[l];
      GateIgnored(c.o, MatVec(c.o, w.wGate, c.d.ffnDim, n), MatVec(c.o, w'.wGate, c.d.ffnDim, n), MatVec(c.o, w.wUp, c.d.ffnDim, n));
    }
    DecodeAlike(c, c', s, tokens);
  }

  lemma GateIgnored(o: Ops, g: Vector, g': Vector, u: Vector)
    requires IgnoresGate(o) && |g| == |g'| == |u|
    ensures Swiglu(o, g, u) == Swiglu(o, g', u)
  {
  }
}
