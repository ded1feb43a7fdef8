/** Single precision as any deterministic arithmetic: the order of operations
    of the block dots, whatever the rounding. */
module Singles {
  import opened Lanes
  import opened Quant
  import opened Avx2

  /** The float operations of the scalar kernels. */
  datatype Floats<!F> = Floats(
    zero: F,
    add: (F, F) -> F,
    sub: (F, F) -> F,
    mul: (F, F) -> F,
    ofInt: int -> F,                           // `as f32`
    of: real -> F)                             // a stored scale

  // ---- The dots in operation order -------------------------------------------------------

  /** Scaled integer dots of the first `n` sub-blocks, added in order. */
  function ScaledSum4<F>(o: Floats<F>, b: BlockQ4K, x: BlockQ8K, n: nat): F
    requires ValidQ4K(b) && ValidQ8K(x) && n <= 8
  {
    if n == 0 then o.zero
    else o.add(ScaledSum4(o, b, x, n - 1), o.mul(o.ofInt(Scale(b, n - 1)), o.ofInt(Dot(W4(b, n - 1), X32(x, n - 1)))))
  }

  lemma ScaledStep4<F>(o: Floats<F>, b: BlockQ4K, x: BlockQ8K, j: nat)
    requires ValidQ4K(b) && ValidQ8K(x) && j < 8
    ensures ScaledSum4(o, b, x, j + 1) == o.add(ScaledSum4(o, b, x, j), o.mul(o.ofInt(Scale(b, j)), o.ofInt(Dot(W4(b, j), X32(x, j)))))
  {
  }

  lemma NothingSummed4<F>(o: Floats<F>, b: BlockQ4K, x: BlockQ8K)
    requires ValidQ4K(b) && ValidQ8K(x)
    ensures ScaledSum4(o, b, x, 0) == o.zero && MinSum4(b, x, 0) == 0
  {
  }

  /** `d_all * sum_q - dmin_all * sum_m`. */
  function Assemble4<F>(o: Floats<F>, b: BlockQ4K, x: BlockQ8K, sumQ: F, sumM: int): F {
    o.sub(o.mul(o.mul(o.of(b.d), o.of(x.d)), sumQ), o.mul(o.mul(o.of(b.dmin), o.of(x.d)), o.ofInt(sumM)))
  }

  function FloatDot4<F>(o: Floats<F>, w: seq<BlockQ4K>, x: seq<BlockQ8K>, n: nat): F
    requires Row4(w, x) && n <= |w|
  {
    if n == 0 then o.zero
    else
      var b, y := w[n - 1], x[n - 1];
      o.add(FloatDot4(o, w, x, n - 1), Assemble4(o, b, y, ScaledSum4(o, b, y, 8), MinSum4(b, y, 8)))
  }

  /** Scaled integer dots of the first `n` groups, added in order. */
  function ScaledSum6<F>(o: Floats<F>, b: BlockQ6K, x: BlockQ8K, n: nat): F
    requires ValidQ6K(b) && ValidQ8K(x) && n <= 16
  {
    if n == 0 then o.zero
    else o.add(ScaledSum6(o, b, x, n - 1), o.mul(o.ofInt(b.scales[n - 1]), o.ofInt(Dot(W6(b, n - 1), X16(x, n - 1)))))
  }

  function Assemble6<F>(o: Floats<F>, b: BlockQ6K, x: BlockQ8K, sum: F): F {
    o.mul(o.mul(o.of(b.d), o.of(x.d)), sum)
  }

  function FloatDot6<F>(o: Floats<F>, w: seq<BlockQ6K>, x: seq<BlockQ8K>, n: nat): F
    requires Row6(w, x) && n <= |w|
  {
    if n == 0 then o.zero
    else
      var b, y := w[n - 1], x[n - 1];
      o.add(FloatDot6(o, w, x, n - 1), Assemble6(o, b, y, ScaledSum6(o, b, y, 16)))
  }

  function Assemble8<F>(o: Floats<F>, b: BlockQ8, x: BlockQ8, acc: int): F {
    o.mul(o.mul(o.ofInt(acc), o.of(b.d)), o.of(x.d))
  }

  function FloatDot8<F>(o: Floats<F>, w: seq<BlockQ8>, x: seq<BlockQ8>, n: nat): F
    requires Row8(w, x) && n <= |w|
  {
    if n == 0 then o.zero
    else o.add(FloatDot8(o, w, x, n - 1), Assemble8(o, w[n - 1], x[n - 1], Dot(w[n - 1].qs, x[n - 1].qs)))
  }

  // ---- Without rounding --------------------------------------------------------------------

  function Add(a: real, b: real): real { a + b }
  function Sub(a: real, b: real): real { a - b }
  function Mul(a: real, b: real): real { a * b }
  function OfInt(a: int): real { a as real }
  function Same(a: real): real { a }

  /** Exact arithmetic is one such arithmetic. */
  const EXACT: Floats<real> := Floats(0.0, Add, Sub, Mul, OfInt, Same)

  lemma ScaledTerm(p0: int, sc: int, p: int)
    ensures (p0 as real) + (sc as real) * (p as real) == (p0 + Prod(sc, p)) as real
  {
    AsReal(sc, p);
  }

  lemma {:induction false} ExactSum4(b: BlockQ4K, x: BlockQ8K, n: nat)
    requires ValidQ4K(b) && ValidQ8K(x) && n <= 8
    ensures ScaledSum4(EXACT, b, x, n) == IntSum4(b, x, n) as real
    decreases n
  {
    hide Scale, Dot, W4, X32, Prod;
    if n > 0 {
      ExactSum4(b, x, n - 1);
      ScaledTerm(IntSum4(b, x, n - 1), Scale(b, n - 1), Dot(W4(b, n - 1), X32(x, n - 1)));
    }
  }

  lemma {:induction false} ExactSum6(b: BlockQ6K, x: BlockQ8K, n: nat)
    requires ValidQ6K(b) && ValidQ8K(x) && n <= 16
    ensures ScaledSum6(EXACT, b, x, n) == IntSum6(b, x, n) as real
    decreases n
  {
    hide Dot, W6, X16, Prod;
    if n > 0 {
      ExactSum6(b, x, n - 1);
      ScaledTerm(IntSum6(b, x, n - 1), b.scales[n - 1], Dot(W6(b, n - 1), X16(x, n - 1)));
    }
  }

  /** Without rounding the operation order computes the format's dot. */
  lemma {:induction false} ExactDot4(w: seq<BlockQ4K>, x: seq<BlockQ8K>, n: nat)
    requires Row4(w, x) && n <= |w|
    ensures FloatDot4(EXACT, w, x, n) == Dot4(w, x, n)
    decreases n
  {
    hide ScaledSum4, IntSum4, MinSum4;
    if n > 0 {
      ExactDot4(w, x, n - 1);
      ExactSum4(w[n - 1], x[n - 1], 8);
    }
  }

  lemma {:induction false} ExactDot6(w: seq<BlockQ6K>, x: seq<BlockQ8K>, n: nat)
    requires Row6(w, x) && n <= |w|
    ensures FloatDot6(EXACT, w, x, n) == Dot6(w, x, n)
    decreases n
  {
    hide ScaledSum6, IntSum6;
    if n > 0 {
      ExactDot6(w, x, n - 1);
      ExactSum6(w[n - 1], x[n - 1], 16);
      PlainCombine(w[n - 1].d, x[n - 1].d, IntSum6(w[n - 1], x[n - 1], 16));
    }
  }

  lemma PlainCombine(d: real, dx: real, p: int)
    ensures Combine(d, 0.0, dx, p, 0) == d * dx * (p as real)
  {
  }

  lemma {:induction false} ExactDot8(w: seq<BlockQ8>, x: seq<BlockQ8>, n: nat)
    requires Row8(w, x) && n <= |w|
    ensures FloatDot8(EXACT, w, x, n) == Dot8(w, x, n)
    decreases n
  {
    hide Dot;
    if n > 0 {
      ExactDot8(w, x, n - 1);
      Reorder(w[n - 1].d, x[n - 1].d, Dot(w[n - 1].qs, x[n - 1].qs) as real);
    }
  }

  lemma Reorder(d: real, dx: real, p: real)
    ensures p * d * dx == d * dx * p
  {
  }
}
