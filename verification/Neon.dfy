/** The NEON kernels: exact on both instruction paths, and bit for bit the
    scalar kernels. */
module Neon {
  import opened Wire
  import opened Lanes
  import opened Quant
  import opened Singles
  import Avx2

  // ---- Integer dots --------------------------------------------------------------------

  /** The part of a dot in lanes `from..from + n`. */
  function Part16(w: seq<int>, x: seq<int>, from: nat, n: nat): int
    requires |w| == |x| && from + n <= |w|
  {
    Sum(Products(w, x)[from..from + n])
  }

  lemma Sum4(v: seq<int>)
    requires |v| == 4
    ensures Sum(v) == v[0] + v[1] + v[2] + v[3]
  {
    assert v[1..][1..] == v[2..] && v[2..][1..] == v[3..] && v[3..][1..] == [];
    assert Sum(v[3..]) == v[3];
    assert Sum(v[2..]) == v[2] + Sum(v[3..]);
    assert Sum(v[1..]) == v[1] + Sum(v[2..]);
  }

  lemma Mull8Exact(a: seq<int>, b: seq<int>, from: nat)
    requires |a| == |b| == 16 && (from == 0 || from == 8) && Signed(a) && Signed(b)
    ensures Mull8(a, b, from) == Products(a, b)[from..from + 8] && Within(Mull8(a, b, from), 16384)
  {
    var p := Products(a, b)[from..from + 8];
    forall i | 0 <= i < 8 ensures Mull8(a, b, from)[i] == p[i] && -16384 <= p[i] <= 16384 {
      MullElement(a, b, from, i);
    }
  }

  lemma MullElement(a: seq<int>, b: seq<int>, from: nat, i: nat)
    requires |a| == |b| == 16 && (from == 0 || from == 8) && Signed(a) && Signed(b) && i < 8
    ensures Mull8(a, b, from)[i] == Products(a, b)[from + i] && -16384 <= Products(a, b)[from + i] <= 16384
  {
    var x, y := a[from + i], b[from + i];
    ProductWithin(x, y, 128, 128);
    assert Products(a, b)[from + i] == x * y;
    assert Mull8(a, b, from)[i] == Wrap16(x * y);
  }

  lemma PadalExact(acc: seq<int>, p: seq<int>, m: nat)
    requires |acc| == 4 && |p| == 8 && Within(acc, m) && Within(p, 16384) && m <= 0x1000_0000
    ensures Padal(acc, p) == Added(acc, PairSums(p)) && Within(Padal(acc, p), m + 32768)
  {
    var r, q := Padal(acc, p), PairSums(p);
    forall i | 0 <= i < 4 ensures r[i] == acc[i] + q[i] && -(m + 32768) <= r[i] <= m + 32768 {
      assert -32768 <= q[i] <= 32768;
    }
  }

  /** Widening multiply and pairwise accumulate: exact while the bound holds. */
  lemma PadalTotal(acc: seq<int>, a: seq<int>, b: seq<int>, from: nat, m: nat)
    requires |acc| == 4 && |a| == |b| == 16 && (from == 0 || from == 8) && Signed(a) && Signed(b)
    requires Within(acc, m) && m <= 0x1000_0000
    ensures var r := Padal(acc, Mull8(a, b, from));
      Within(r, m + 32768) && Sum(r) == Sum(acc) + Part16(a, b, from, 8)
  {
    hide Sum, Padal, Mull8, Products;
    var p := Mull8(a, b, from);
    Mull8Exact(a, b, from);
    PadalExact(acc, p, m);
    AddedTotal(acc, PairSums(p));
    PairSumsTotal(p);
  }

  /** Sums of four products. */
  function Quads(t: seq<int>): (s: seq<int>)
    requires |t| == 16
    ensures |s| == 4
  {
    [Sum(t[0..4]), Sum(t[4..8]), Sum(t[8..12]), Sum(t[12..16])]
  }

  lemma SdotExact(acc: seq<int>, a: seq<int>, b: seq<int>, m: nat)
    requires |acc| == 4 && |a| == |b| == 16 && Signed(a) && Signed(b) && Within(acc, m) && m <= 0x1000_0000
    ensures Within(Sdot(acc, a, b), m + 65536) && Sdot(acc, a, b) == Added(acc, Quads(Products(a, b)))
  {
    hide Sum, Products;
    QuadProducts(a, b, 0);
    QuadProducts(a, b, 1);
    QuadProducts(a, b, 2);
    QuadProducts(a, b, 3);
    var r, q := Sdot(acc, a, b), Added(acc, Quads(Products(a, b)));
    assert r[0] == q[0] && r[1] == q[1] && r[2] == q[2] && r[3] == q[3];
  }

  /** `sdot` adds the same four products per lane. */
  lemma SdotTotal(acc: seq<int>, a: seq<int>, b: seq<int>, m: nat)
    requires |acc| == 4 && |a| == |b| == 16 && Signed(a) && Signed(b) && Within(acc, m) && m <= 0x1000_0000
    ensures Within(Sdot(acc, a, b), m + 65536) && Sum(Sdot(acc, a, b)) == Sum(acc) + Dot(a, b)
  {
    hide Sum, Sdot, Products;
    SdotExact(acc, a, b, m);
    var t := Products(a, b);
    AddedTotal(acc, Quads(t));
    Sum4(Quads(t));
    FourQuads(t);
  }

  lemma QuadProducts(a: seq<int>, b: seq<int>, i: nat)
    requires |a| == |b| == 16 && Signed(a) && Signed(b) && i < 4
    ensures var t := Products(a, b)[4 * i..4 * i + 4];
      Products(a[4 * i..4 * i + 4], b[4 * i..4 * i + 4]) == t && -65536 <= Sum(t) <= 65536
  {
    var t := Products(a, b)[4 * i..4 * i + 4];
    Sum4(t);
    ProductWithin(a[4 * i], b[4 * i], 128, 128);
    ProductWithin(a[4 * i + 1], b[4 * i + 1], 128, 128);
    ProductWithin(a[4 * i + 2], b[4 * i + 2], 128, 128);
    ProductWithin(a[4 * i + 3], b[4 * i + 3], 128, 128);
  }

  lemma FourQuads(t: seq<int>)
    requires |t| == 16
    ensures Sum(t) == Sum(t[0..4]) + Sum(t[4..8]) + Sum(t[8..12]) + Sum(t[12..16])
  {
    assert t == t[0..4] + t[4..8] + t[8..12] + t[12..16];
    SumAppend(t[0..4] + t[4..8] + t[8..12], t[12..16]);
    SumAppend(t[0..4] + t[4..8], t[8..12]);
    SumAppend(t[0..4], t[4..8]);
  }

  lemma TwoHalves(a: seq<int>, b: seq<int>)
    requires |a| == |b| == 16
    ensures Dot(a, b) == Part16(a, b, 0, 8) + Part16(a, b, 8, 8)
  {
    var t := Products(a, b);
    assert t == t[0..8] + t[8..16];
    SumAppend(t[0..8], t[8..16]);
  }

  /** Sixteen pairs into an accumulator, by either path. */
  function Accumulate(sdot: bool, acc: seq<int>, w: seq<int>, x: seq<int>): (r: seq<int>)
    requires |acc| == 4 && |w| == |x| == 16
    ensures |r| == 4
  {
    if sdot then Sdot(acc, w, x) else Padal(Padal(acc, Mull8(w, x, 0)), Mull8(w, x, 8))
  }

  lemma AccumulateTotal(sdot: bool, acc: seq<int>, w: seq<int>, x: seq<int>, m: nat)
    requires |acc| == 4 && |w| == |x| == 16 && Signed(w) && Signed(x) && Within(acc, m) && m <= 0x800_0000
    ensures Within(Accumulate(sdot, acc, w, x), m + 65536) && Sum(Accumulate(sdot, acc, w, x)) == Sum(acc) + Dot(w, x)
  {
    hide Sdot, Padal, Mull8, Dot, Part16, Sum;
    if sdot {
      SdotTotal(acc, w, x, m);
    } else {
      PadalTotal(acc, w, x, 0, m);
      PadalTotal(Padal(acc, Mull8(w, x, 0)), w, x, 8, m + 32768);
      TwoHalves(w, x);
    }
  }

  lemma AddvExact(v: seq<int>, m: nat)
    requires |v| == 4 && Within(v, m) && 4 * m <= 0x7fff_ffff
    ensures Addv(v) == Sum(v)
  {
    Sum4(v);
  }

  function DotI8x16(sdot: bool, w: seq<int>, x: seq<int>): int
    requires |w| == |x| == 16
  {
    Addv(Accumulate(sdot, Splat(4, 0), w, x))
  }

  function DotI8x32(sdot: bool, w0: seq<int>, w1: seq<int>, x0: seq<int>, x1: seq<int>): int
    requires |w0| == |w1| == |x0| == |x1| == 16
  {
    Addv(Accumulate(sdot, Accumulate(sdot, Splat(4, 0), w0, x0), w1, x1))
  }

  /** Sixteen pairs of signed bytes, exactly, on both paths. */
  lemma DotI8x16Exact(sdot: bool, w: seq<int>, x: seq<int>)
    requires |w| == |x| == 16 && Signed(w) && Signed(x)
    ensures DotI8x16(sdot, w, x) == Dot(w, x)
  {
    hide Accumulate, Dot;
    AccumulateTotal(sdot, Splat(4, 0), w, x, 0);
    Sum4(Splat(4, 0));
    AddvExact(Accumulate(sdot, Splat(4, 0), w, x), 65536);
  }

  /** Thirty-two pairs, exactly, on both paths. */
  lemma DotI8x32Exact(sdot: bool, w: seq<int>, x: seq<int>)
    requires |w| == |x| == 32 && Signed(w) && Signed(x)
    ensures DotI8x32(sdot, w[..16], w[16..], x[..16], x[16..]) == Dot(w, x)
  {
    hide Accumulate, Dot;
    var acc := Accumulate(sdot, Splat(4, 0), w[..16], x[..16]);
    AccumulateTotal(sdot, Splat(4, 0), w[..16], x[..16], 0);
    Sum4(Splat(4, 0));
    AccumulateTotal(sdot, acc, w[16..], x[16..], 65536);
    AddvExact(Accumulate(sdot, acc, w[16..], x[16..]), 131072);
    DotHalves(w, x);
  }

  lemma DotHalves(w: seq<int>, x: seq<int>)
    requires |w| == |x| == 32
    ensures Dot(w, x) == Dot(w[..16], x[..16]) + Dot(w[16..], x[16..])
  {
    var t := Products(w, x);
    assert t[..16] == Products(w[..16], x[..16]) && t[16..] == Products(w[16..], x[16..]);
    assert t == t[..16] + t[16..];
    SumAppend(t[..16], t[16..]);
  }

  // ---- Unpacking ---------------------------------------------------------------------------

  /** Sixteen bytes, low nibbles or high ones. */
  function NibbleHalf(v: seq<int>, high: bool): (r: seq<int>)
    requires |v| == 16
    ensures |r| == 16
  {
    seq(16, i requires 0 <= i < 16 => if high then v[i] / 16 else v[i] % 16)
  }

  /** Sub-block `j`'s quants in two registers. */
  function Q4Sub(qs: Bytes, j: nat): (r: (seq<int>, seq<int>))
    requires |qs| == 128 && j < 8
    ensures |r.0| == 16 && |r.1| == 16
  {
    var at := j / 2 * 32;
    (NibbleHalf(qs[at..at + 16], j % 2 == 1), NibbleHalf(qs[at + 16..at + 32], j % 2 == 1))
  }

  lemma Q4SubIs(b: BlockQ4K, j: nat)
    requires ValidQ4K(b) && j < 8
    ensures Q4Sub(b.qs, j) == (W4(b, j)[..16], W4(b, j)[16..])
  {
    var at := j / 2 * 32;
    var lo: seq<int>, hi: seq<int> := b.qs[at..at + 16], b.qs[at + 16..at + 32];
    forall i | 0 <= i < 16 ensures Q4Sub(b.qs, j).0[i] == W4(b, j)[i] && Q4Sub(b.qs, j).1[i] == W4(b, j)[16 + i] {
      W4Element(b, j, i);
      W4Element(b, j, 16 + i);
      assert lo[i] == b.qs[at + i] && hi[i] == b.qs[at + 16 + i];
    }
    assert Q4Sub(b.qs, j).0 == W4(b, j)[..16];
    assert Q4Sub(b.qs, j).1 == W4(b, j)[16..];
  }

  lemma W4Element(b: BlockQ4K, j: nat, k: nat)
    requires ValidQ4K(b) && j < 8 && k < 32
    ensures W4(b, j)[k] == if j % 2 == 1 then b.qs[j / 2 * 32 + k] / 16 else b.qs[j / 2 * 32 + k] % 16
  {
    assert W4(b, j)[k] == Nibble(b.qs[j / 2 * 32 + k], j % 2 == 1);
  }

  /** One half plane: nibble, two bits above it, minus 32. */
  function PlaneHalf(ql: seq<int>, qh: seq<int>, shift: nat, high: bool): (r: seq<int>)
    requires |ql| == |qh| == 16 && (shift == 0 || shift == 2 || shift == 4 || shift == 6)
    ensures |r| == 16
  {
    seq(16, i requires 0 <= i < 16 => Wrap8((if high then ql[i] / 16 else ql[i] % 16) + 16 * (qh[i] / Power(shift) % 4) - 32))
  }

  /** The two registers of plane `n` are two groups of offset quants. */
  lemma PlaneHalfIs(b: BlockQ6K, half: nat, n: nat, part: nat)
    requires ValidQ6K(b) && half < 2 && n < 4 && part < 2
    ensures var at := half * 64 + n % 2 * 32 + part * 16; var hat := half * 32 + part * 16;
      PlaneHalf(b.ql[at..at + 16], b.qh[hat..hat + 16], 2 * n, n >= 2) == W6(b, half * 8 + 2 * n + part)
  {
    hide Power, W6;
    var at, hat := half * 64 + n % 2 * 32 + part * 16, half * 32 + part * 16;
    var g := half * 8 + 2 * n + part;
    forall i | 0 <= i < 16 ensures PlaneHalf(b.ql[at..at + 16], b.qh[hat..hat + 16], 2 * n, n >= 2)[i] == W6(b, g)[i] {
      W6Element(b, half, n, part, i);
      W6Range(b, g);
    }
  }

  lemma W6Element(b: BlockQ6K, half: nat, n: nat, part: nat, i: nat)
    requires ValidQ6K(b) && half < 2 && n < 4 && part < 2 && i < 16
    ensures W6(b, half * 8 + 2 * n + part)[i] ==
      (if n >= 2 then b.ql[half * 64 + n % 2 * 32 + part * 16 + i] / 16 else b.ql[half * 64 + n % 2 * 32 + part * 16 + i] % 16)
      + 16 * (b.qh[half * 32 + part * 16 + i] / Power(2 * n) % 4) - 32
  {
    hide Power;
    var at := (half * 8 + 2 * n + part) * 16 + i;
    assert at == half * 128 + n * 32 + (part * 16 + i);
    assert at / 128 == half && at % 128 / 32 == n && at % 32 == part * 16 + i;
    assert W6(b, half * 8 + 2 * n + part)[i] == Q6At(b, at) - 32;
  }

  // ---- The kernels ------------------------------------------------------------------------------

  lemma SmallSigned(b: BlockQ4K, j: nat)
    requires ValidQ4K(b) && j < 8
    ensures Signed(W4(b, j))
  {
    hide W4;
    W4Range(b, j);
  }

  /** The Q8_0 kernel, bit for bit the scalar one. */
  method DotQ8<F>(o: Floats<F>, sdot: bool, w: seq<BlockQ8>, x: seq<BlockQ8>) returns (sum: F)
    requires Avx2.Row8(w, x)
    ensures sum == FloatDot8(o, w, x, |w|)
  {
    hide Dot, DotI8x32, Assemble8;
    sum := o.zero;
    var i := 0;
    while i < |w|
      invariant 0 <= i <= |w| && sum == FloatDot8(o, w, x, i)
    {
      var ws, xs := w[i].qs, x[i].qs;
      DotI8x32Exact(sdot, ws, xs);
      var acc := DotI8x32(sdot, ws[..16], ws[16..], xs[..16], xs[16..]);
      sum := o.add(sum, Assemble8(o, w[i], x[i], acc));
      i := i + 1;
    }
  }

  /** The Q4_K kernel, bit for bit the scalar one. */
  method DotQ4K<F>(o: Floats<F>, sdot: bool, w: seq<BlockQ4K>, x: seq<BlockQ8K>) returns (sumf: F)
    requires Row4(w, x)
    ensures sumf == FloatDot4(o, w, x, |w|)
  {
    hide ScaledSum4, MinSum4, Assemble4;
    sumf := o.zero;
    var i := 0;
    while i < |w|
      invariant 0 <= i <= |w| && sumf == FloatDot4(o, w, x, i)
    {
      var sumQ, sumM := Q4KSums(o, sdot, w[i], x[i]);
      sumf := o.add(sumf, Assemble4(o, w[i], x[i], sumQ, sumM));
      i := i + 1;
    }
  }

  /** The integer dot of sub-block `j`. */
  method Q4KSub(sdot: bool, b: BlockQ4K, x: BlockQ8K, j: nat) returns (sub: int)
    requires ValidQ4K(b) && ValidQ8K(x) && j < 8
    ensures sub == Dot(W4(b, j), X32(x, j))
  {
    var (w0, w1) := Q4Sub(b.qs, j);
    sub := UnpackedSub(sdot, b, w0, w1, x, j);
  }

  /** The same from registers already unpacked. */
  method UnpackedSub(sdot: bool, ghost b: BlockQ4K, w0: seq<int>, w1: seq<int>, x: BlockQ8K, j: nat) returns (sub: int)
    requires ValidQ4K(b) && ValidQ8K(x) && j < 8 && (w0, w1) == Q4Sub(b.qs, j)
    ensures sub == Dot(W4(b, j), X32(x, j))
  {
    hide Dot, W4, DotI8x32, Q4Sub;
    Q4SubIs(b, j);
    SmallSigned(b, j);
    DotI8x32Exact(sdot, W4(b, j), X32(x, j));
    var xs := x.qs[j * 32..j * 32 + 32];
    sub := DotI8x32(sdot, w0, w1, xs[..16], xs[16..]);
  }

  method Q4KSums<F>(o: Floats<F>, sdot: bool, b: BlockQ4K, x: BlockQ8K) returns (sumQ: F, sumM: int)
    requires ValidQ4K(b) && ValidQ8K(x)
    ensures sumQ == ScaledSum4(o, b, x, 8) && sumM == MinSum4(b, x, 8)
  {
    hide Scale, Minimum, Dot, W4, Prod, ScaledSum4, MinSum4;
    NothingSummed4(o, b, x);
    sumQ, sumM := o.zero, 0;
    var j := 0;
    while j < 8
      invariant 0 <= j <= 8 && sumQ == ScaledSum4(o, b, x, j) && sumM == MinSum4(b, x, j)
    {
      var sub := Q4KSub(sdot, b, x, j);
      sumQ := o.add(sumQ, o.mul(o.ofInt(Scale(b, j)), o.ofInt(sub)));
      sumM := sumM + Prod(Minimum(b, j), x.bsums[2 * j] + x.bsums[2 * j + 1]);
      ScaledStep4(o, b, x, j);
      MinStep4(b, x, j);
      j := j + 1;
    }
  }

  /** The Q6_K kernel, bit for bit the scalar one. */
  method DotQ6K<F>(o: Floats<F>, sdot: bool, w: seq<BlockQ6K>, x: seq<BlockQ8K>) returns (sumf: F)
    requires Row6(w, x)
    ensures sumf == FloatDot6(o, w, x, |w|)
  {
    hide ScaledSum6, Assemble6;
    sumf := o.zero;
    var i := 0;
    while i < |w|
      invariant 0 <= i <= |w| && sumf == FloatDot6(o, w, x, i)
    {
      var sum := Q6KSum(o, sdot, w[i], x[i]);
      sumf := o.add(sumf, Assemble6(o, w[i], x[i], sum));
      i := i + 1;
    }
  }

  /** The eight groups of one half, unpacked from their planes. */
  method Planes(b: BlockQ6K, half: nat) returns (ps: seq<seq<int>>)
    requires ValidQ6K(b) && half < 2
    ensures |ps| == 8 && forall g | 0 <= g < 8 :: ps[g] == W6(b, half * 8 + g)
  {
    hide W6, PlaneHalf;
    ps := [];
    var n := 0;
    while n < 4
      invariant 0 <= n <= 4 && |ps| == 2 * n
      invariant forall g | 0 <= g < 2 * n :: ps[g] == W6(b, half * 8 + g)
    {
      PlaneHalfIs(b, half, n, 0);
      PlaneHalfIs(b, half, n, 1);
      var at, hat := half * 64 + n % 2 * 32, half * 32;
      var qa := PlaneHalf(b.ql[at..at + 16], b.qh[hat..hat + 16], 2 * n, n >= 2);
      var qb := PlaneHalf(b.ql[at + 16..at + 32], b.qh[hat + 16..hat + 32], 2 * n, n >= 2);
      ps := ps + [qa, qb];
      n := n + 1;
    }
  }

  /** The groups' exact dots. */
  method GroupSums(sdot: bool, ghost b: BlockQ6K, ps: seq<seq<int>>, x: BlockQ8K, half: nat) returns (gs: seq<int>)
    requires ValidQ6K(b) && ValidQ8K(x) && half < 2 && |ps| == 8 && forall g | 0 <= g < 8 :: ps[g] == W6(b, half * 8 + g)
    ensures |gs| == 8 && forall g | 0 <= g < 8 :: gs[g] == Dot(W6(b, half * 8 + g), X16(x, half * 8 + g))
  {
    hide Dot, W6, DotI8x16;
    gs := [];
    var g := 0;
    while g < 8
      invariant 0 <= g <= 8 && |gs| == g
      invariant forall k | 0 <= k < g :: gs[k] == Dot(W6(b, half * 8 + k), X16(x, half * 8 + k))
    {
      W6Range(b, half * 8 + g);
      DotI8x16Exact(sdot, ps[g], X16(x, half * 8 + g));
      var at := (half * 8 + g) * 16;
      var s := DotI8x16(sdot, ps[g], x.qs[at..at + 16]);
      gs := gs + [s];
      g := g + 1;
    }
  }

  /** The scaled groups of one half, added in order to what has been summed. */
  method Q6KHalf<F>(o: Floats<F>, sdot: bool, b: BlockQ6K, ps: seq<seq<int>>, x: BlockQ8K, half: nat, before: F) returns (sum: F)
    requires ValidQ6K(b) && ValidQ8K(x) && half < 2 && before == ScaledSum6(o, b, x, half * 8)
    requires |ps| == 8 && forall g | 0 <= g < 8 :: ps[g] == W6(b, half * 8 + g)
    ensures sum == ScaledSum6(o, b, x, half * 8 + 8)
  {
    hide Dot, W6;
    sum := before;
    var gs := GroupSums(sdot, b, ps, x, half);
    var g := 0;
    while g < 8
      invariant 0 <= g <= 8 && sum == ScaledSum6(o, b, x, half * 8 + g)
    {
      sum := o.add(sum, o.mul(o.ofInt(b.scales[half * 8 + g]), o.ofInt(gs[g])));
      g := g + 1;
    }
  }

  method Q6KSum<F>(o: Floats<F>, sdot: bool, b: BlockQ6K, x: BlockQ8K) returns (sum: F)
    requires ValidQ6K(b) && ValidQ8K(x)
    ensures sum == ScaledSum6(o, b, x, 16)
  {
    sum := o.zero;
    var low := Planes(b, 0);
    sum := Q6KHalf(o, sdot, b, low, x, 0, sum);
    var high := Planes(b, 1);
    sum := Q6KHalf(o, sdot, b, high, x, 1, sum);
  }

  // ---- Four activation rows at once -------------------------------------------------------------

  /** Four rows against one weight row; each lane is the one-row kernel. */
  method DotQ8X4<F>(o: Floats<F>, sdot: bool, w: seq<BlockQ8>, xs: seq<seq<BlockQ8>>) returns (sum: seq<F>)
    requires |xs| == 4 && forall n | 0 <= n < 4 :: Avx2.Row8(w, xs[n])
    ensures |sum| == 4 && forall n | 0 <= n < 4 :: sum[n] == FloatDot8(o, w, xs[n], |w|)
  {
    hide Dot, DotI8x32, Assemble8;
    sum := [o.zero, o.zero, o.zero, o.zero];
    var i := 0;
    while i < |w|
      invariant 0 <= i <= |w| && |sum| == 4
      invariant forall n | 0 <= n < 4 :: sum[n] == FloatDot8(o, w, xs[n], i)
    {
      var ws := w[i].qs;
      var lane := 0;
      while lane < 4
        invariant 0 <= lane <= 4 && |sum| == 4
        invariant forall n | 0 <= n < 4 :: sum[n] == FloatDot8(o, w, xs[n], if n < lane then i + 1 else i)
      {
        var x := xs[lane][i];
        DotI8x32Exact(sdot, ws, x.qs);
        var acc := DotI8x32(sdot, ws[..16], ws[16..], x.qs[..16], x.qs[16..]);
        sum := sum[lane := o.add(sum[lane], Assemble8(o, w[i], x, acc))];
        lane := lane + 1;
      }
      i := i + 1;
    }
  }

  method DotQ4KX4<F>(o: Floats<F>, sdot: bool, w: seq<BlockQ4K>, xs: seq<seq<BlockQ8K>>) returns (sumf: seq<F>)
    requires |xs| == 4 && forall n | 0 <= n < 4 :: Row4(w, xs[n])
    ensures |sumf| == 4 && forall n | 0 <= n < 4 :: sumf[n] == FloatDot4(o, w, xs[n], |w|)
  {
    hide ScaledSum4, MinSum4, Assemble4;
    sumf := [o.zero, o.zero, o.zero, o.zero];
    var i := 0;
    while i < |w|
      invariant 0 <= i <= |w| && |sumf| == 4
      invariant forall n | 0 <= n < 4 :: sumf[n] == FloatDot4(o, w, xs[n], i)
    {
      var ys := [xs[0][i], xs[1][i], xs[2][i], xs[3][i]];
      var sumQ, sumM := Q4KSumsX4(o, sdot, w[i], ys);
      sumf := AssembleX4(o, w[i], ys, sumQ, sumM, sumf);
      i := i + 1;
    }
  }

  method AssembleX4<F>(o: Floats<F>, b: BlockQ4K, ys: seq<BlockQ8K>, sumQ: seq<F>, sumM: seq<int>, sumf: seq<F>) returns (r: seq<F>)
    requires |ys| == |sumQ| == |sumM| == |sumf| == 4
    ensures |r| == 4 && forall n | 0 <= n < 4 :: r[n] == o.add(sumf[n], Assemble4(o, b, ys[n], sumQ[n], sumM[n]))
  {
    hide Assemble4;
    r := sumf;
    var lane := 0;
    while lane < 4
      invariant 0 <= lane <= 4 && |r| == 4
      invariant forall n | 0 <= n < lane :: r[n] == o.add(sumf[n], Assemble4(o, b, ys[n], sumQ[n], sumM[n]))
      invariant forall n | lane <= n < 4 :: r[n] == sumf[n]
    {
      r := r[lane := o.add(r[lane], Assemble4(o, b, ys[lane], sumQ[lane], sumM[lane]))];
      lane := lane + 1;
    }
  }

  method Q4KSumsX4<F>(o: Floats<F>, sdot: bool, b: BlockQ4K, ys: seq<BlockQ8K>) returns (sumQ: seq<F>, sumM: seq<int>)
    requires ValidQ4K(b) && |ys| == 4 && forall n | 0 <= n < 4 :: ValidQ8K(ys[n])
    ensures |sumQ| == |sumM| == 4
    ensures forall n | 0 <= n < 4 :: sumQ[n] == ScaledSum4(o, b, ys[n], 8) && sumM[n] == MinSum4(b, ys[n], 8)
  {
    hide Scale, Minimum, Dot, W4, Prod;
    sumQ, sumM := [o.zero, o.zero, o.zero, o.zero], [0, 0, 0, 0];
    var j := 0;
    while j < 8
      invariant 0 <= j <= 8 && |sumQ| == |sumM| == 4
      invariant forall n | 0 <= n < 4 :: sumQ[n] == ScaledSum4(o, b, ys[n], j) && sumM[n] == MinSum4(b, ys[n], j)
    {
      sumQ, sumM := SubX4(o, sdot, b, ys, j, sumQ, sumM);
      j := j + 1;
    }
  }

  method SubX4<F>(o: Floats<F>, sdot: bool, b: BlockQ4K, ys: seq<BlockQ8K>, j: nat, sumQ: seq<F>, sumM: seq<int>) returns (q: seq<F>, m: seq<int>)
    requires ValidQ4K(b) && j < 8 && |ys| == |sumQ| == |sumM| == 4 && forall n | 0 <= n < 4 :: ValidQ8K(ys[n])
    ensures |q| == |m| == 4
    ensures forall n | 0 <= n < 4 :: q[n] == o.add(sumQ[n], o.mul(o.ofInt(Scale(b, j)), o.ofInt(Dot(W4(b, j), X32(ys[n], j)))))
    ensures forall n | 0 <= n < 4 :: m[n] == sumM[n] + MinTerm4(b, ys[n], j)
  {
    hide Scale, Minimum, Dot, W4, X32, Prod, Q4Sub;
    q, m := sumQ, sumM;
    var (w0, w1) := Q4Sub(b.qs, j);
    var lane := 0;
    while lane < 4
      invariant 0 <= lane <= 4 && |q| == |m| == 4
      invariant forall n | 0 <= n < lane :: q[n] == o.add(sumQ[n], o.mul(o.ofInt(Scale(b, j)), o.ofInt(Dot(W4(b, j), X32(ys[n], j)))))
      invariant forall n | 0 <= n < lane :: m[n] == sumM[n] + MinTerm4(b, ys[n], j)
      invariant forall n | lane <= n < 4 :: q[n] == sumQ[n] && m[n] == sumM[n]
    {
      var x := ys[lane];
      var sub := UnpackedSub(sdot, b, w0, w1, x, j);
      q := q[lane := o.add(q[lane], o.mul(o.ofInt(Scale(b, j)), o.ofInt(sub)))];
      m := m[lane := m[lane] + Prod(Minimum(b, j), x.bsums[2 * j] + x.bsums[2 * j + 1])];
      lane := lane + 1;
    }
  }

  method DotQ6KX4<F>(o: Floats<F>, sdot: bool, w: seq<BlockQ6K>, xs: seq<seq<BlockQ8K>>) returns (sumf: seq<F>)
    requires |xs| == 4 && forall n | 0 <= n < 4 :: Row6(w, xs[n])
    ensures |sumf| == 4 && forall n | 0 <= n < 4 :: sumf[n] == FloatDot6(o, w, xs[n], |w|)
  {
    hide ScaledSum6, Assemble6;
    sumf := [o.zero, o.zero, o.zero, o.zero];
    var i := 0;
    while i < |w|
      invariant 0 <= i <= |w| && |sumf| == 4
      invariant forall n | 0 <= n < 4 :: sumf[n] == FloatDot6(o, w, xs[n], i)
    {
      var ys := [xs[0][i], xs[1][i], xs[2][i], xs[3][i]];
      var sum := Q6KSumsX4(o, sdot, w[i], ys);
      sumf := AssembleX6(o, w[i], ys, sum, sumf);
      i := i + 1;
    }
  }

  method AssembleX6<F>(o: Floats<F>, b: BlockQ6K, ys: seq<BlockQ8K>, sum: seq<F>, sumf: seq<F>) returns (r: seq<F>)
    requires |ys| == |sum| == |sumf| == 4
    ensures |r| == 4 && forall n | 0 <= n < 4 :: r[n] == o.add(sumf[n], Assemble6(o, b, ys[n], sum[n]))
  {
    hide Assemble6;
    r := sumf;
    var lane := 0;
    while lane < 4
      invariant 0 <= lane <= 4 && |r| == 4
      invariant forall n | 0 <= n < lane :: r[n] == o.add(sumf[n], Assemble6(o, b, ys[n], sum[n]))
      invariant forall n | lane <= n < 4 :: r[n] == sumf[n]
    {
      r := r[lane := o.add(r[lane], Assemble6(o, b, ys[lane], sum[lane]))];
      lane := lane + 1;
    }
  }

  method Q6KSumsX4<F>(o: Floats<F>, sdot: bool, b: BlockQ6K, ys: seq<BlockQ8K>) returns (sum: seq<F>)
    requires ValidQ6K(b) && |ys| == 4 && forall n | 0 <= n < 4 :: ValidQ8K(ys[n])
    ensures |sum| == 4 && forall n | 0 <= n < 4 :: sum[n] == ScaledSum6(o, b, ys[n], 16)
  {
    hide Dot, W6;
    sum := [o.zero, o.zero, o.zero, o.zero];
    var half := 0;
    while half < 2
      invariant 0 <= half <= 2 && |sum| == 4
      invariant forall n | 0 <= n < 4 :: sum[n] == ScaledSum6(o, b, ys[n], half * 8)
    {
      var ps := Planes(b, half);
      var lane := 0;
      while lane < 4
        invariant 0 <= lane <= 4 && |sum| == 4
        invariant forall n | 0 <= n < 4 :: sum[n] == ScaledSum6(o, b, ys[n], if n < lane then half * 8 + 8 else half * 8)
      {
        var s := Q6KHalf(o, sdot, b, ps, ys[lane], half, sum[lane]);
        sum := sum[lane := s];
        lane := lane + 1;
      }
      half := half + 1;
    }
  }
}
