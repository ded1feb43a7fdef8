/** The AVX2 kernels: no intermediate saturates or wraps, and the totals are
    the scalar sums. */
module Avx2 {
  import opened Wire
  import opened Lanes
  import opened Quant

  /** A register's bytes read as unsigned. */
  function Unsigned(v: seq<int>): (r: seq<int>)
    ensures |r| == |v| && forall i | 0 <= i < |v| :: r[i] == if v[i] < 0 then v[i] + 256 else v[i]
  {
    seq(|v|, i requires 0 <= i < |v| => if v[i] < 0 then v[i] + 256 else v[i])
  }

  /** Multiplying every lane by one constant. */
  lemma ConstantMadd(c: int, v: seq<int>, m: int, n: nat)
    requires |v| == 16 && 0 <= m && -m <= c <= m && Within(v, n) && 2 * (m * n) <= 0x7fff_ffff
    ensures Sum(Madd(Splat(16, c), v)) == c * Sum(v) && Within(Madd(Splat(16, c), v), 2 * (m * n))
  {
    MaddExact(Splat(16, c), v, m, n);
    PairSumsTotal(Products(Splat(16, c), v));
    assert Products(Splat(16, c), v) == Scaled(c, v);
    ScaledTotal(c, v);
  }

  // ---- Q8_0: the sign trick ----------------------------------------------------------------

  function AbsLanes(w: seq<int>): (a: seq<int>)
    requires |w| == 32
    ensures |a| == 32
  {
    Unsigned(Sign8(w, w))
  }

  /** One block: |w| times x carrying w's sign, then pairs added. */
  function Q8Lanes(w: seq<int>, x: seq<int>): (v: seq<int>)
    requires |w| == |x| == 32
    ensures |v| == 8
  {
    Madd(Maddubs(AbsLanes(w), Sign8(x, w)), Splat(16, 1))
  }

  /** What the sign trick loses: a negated -128 stays -128. */
  function Deficit(w: seq<int>, x: seq<int>): (n: nat)
    requires |w| == |x|
  {
    if w == [] then 0
    else (if x[0] == -128 && w[0] < 0 then -w[0] else 0) + Deficit(w[1..], x[1..])
  }

  lemma {:induction false} NoDeficit(w: seq<int>, x: seq<int>)
    requires |w| == |x|
    ensures Deficit(w, x) == 0 <==> forall i | 0 <= i < |w| :: !(x[i] == -128 && w[i] < 0)
    decreases |w|
  {
    if w != [] {
      NoDeficit(w[1..], x[1..]);
      assert forall i | 1 <= i < |w| :: w[i] == w[1..][i - 1] && x[i] == x[1..][i - 1];
    }
  }

  lemma SignedProduct(w: int, x: int)
    requires I8(w) && I8(x)
    ensures var a := if w < 0 then -w else w; var b := if w < 0 then Wrap8(-x) else if w == 0 then 0 else x;
      && a * b == w * x - 256 * (if x == -128 && w < 0 then -w else 0)
      && 0 <= a <= 128 && I8(b) && -16384 <= a * b <= 16256
  {
    if w >= 0 {
      ByteProduct(w, x);
    } else if x == -128 {
    } else {
      ByteProduct(-w, -x);
      assert (-w) * (-x) == w * x;
    }
  }

  lemma ByteProduct(a: int, b: int)
    requires 0 <= a <= 128 && I8(b)
    ensures -16384 <= a * b <= 16256
  {
    if b >= 0 {
      Mono(a, 128, b);
    } else {
      Mono(a, 128, -b);
      assert a * b == -(a * -b);
    }
  }

  /** The same element by element over lists. */
  function SignProducts(w: seq<int>, x: seq<int>): (p: seq<int>)
    requires |w| == |x|
    ensures |p| == |w|
  {
    seq(|w|, i requires 0 <= i < |w| => SignProduct(w[i], x[i]))
  }

  function SignProduct(w: int, x: int): int {
    w * x - 256 * (if x == -128 && w < 0 then -w else 0)
  }

  lemma {:induction false} SignTotal(w: seq<int>, x: seq<int>)
    requires |w| == |x|
    ensures Sum(SignProducts(w, x)) == Dot(w, x) - 256 * Deficit(w, x)
    decreases |w|
  {
    if w != [] {
      SignTotal(w[1..], x[1..]);
      assert SignProducts(w, x)[1..] == SignProducts(w[1..], x[1..]);
      DotTail(w, x);
    } else {
      DotNothing();
    }
  }

  lemma Q8Products(w: seq<int>, x: seq<int>)
    requires |w| == |x| == 32 && Signed(w) && Signed(x)
    ensures Products(AbsLanes(w), Sign8(x, w)) == SignProducts(w, x)
    ensures forall i | 0 <= i < 32 :: -16384 <= SignProducts(w, x)[i] <= 16256
  {
    hide SignProduct;
    forall i | 0 <= i < 32
      ensures Products(AbsLanes(w), Sign8(x, w))[i] == SignProducts(w, x)[i] && -16384 <= SignProducts(w, x)[i] <= 16256
    {
      SignedProduct(w[i], x[i]);
      SignProductIs(w[i], x[i]);
    }
  }

  lemma SignProductIs(w: int, x: int)
    ensures SignProduct(w, x) == w * x - 256 * (if x == -128 && w < 0 then -w else 0)
  {
  }

  /** Even with -128 among the activations nothing saturates. */
  lemma Q8Maddubs(w: seq<int>, x: seq<int>)
    requires |w| == |x| == 32 && Signed(w) && Signed(x)
    ensures Maddubs(AbsLanes(w), Sign8(x, w)) == PairSums(SignProducts(w, x)) && Within(PairSums(SignProducts(w, x)), 32768)
  {
    hide SignProducts, AbsLanes, Sign8;
    Q8Products(w, x);
    var p := SignProducts(w, x);
    forall i | 0 <= i < 16 ensures Maddubs(AbsLanes(w), Sign8(x, w))[i] == PairSums(p)[i] && -32768 <= PairSums(p)[i] <= 32767 {
      assert Products(AbsLanes(w), Sign8(x, w))[2 * i] == p[2 * i] && Products(AbsLanes(w), Sign8(x, w))[2 * i + 1] == p[2 * i + 1];
    }
  }

  /** The lane total, for all signed bytes. */
  lemma Q8Total(w: seq<int>, x: seq<int>)
    requires |w| == |x| == 32 && Signed(w) && Signed(x)
    ensures Sum(Q8Lanes(w, x)) == Dot(w, x) - 256 * Deficit(w, x)
  {
    hide Maddubs, AbsLanes, Sign8, Madd, SignProducts, Dot;
    Q8Maddubs(w, x);
    var v := PairSums(SignProducts(w, x));
    MaddExact(v, Splat(16, 1), 32768, 1);
    PairSumsTotal(Products(v, Splat(16, 1)));
    TimesOne(v);
    PairSumsTotal(SignProducts(w, x));
    SignTotal(w, x);
  }

  lemma TimesOne(v: seq<int>)
    requires |v| == 16
    ensures Products(v, Splat(16, 1)) == v
  {
  }

  /** The Q8_0 lane total equals the scalar sum exactly when no activation is -128
      against a negative weight; activations in -127..127 always qualify. */
  lemma Q8Exact(w: seq<int>, x: seq<int>)
    requires |w| == |x| == 32 && Signed(w) && Signed(x)
    ensures Sum(Q8Lanes(w, x)) == Dot(w, x) <==> forall i | 0 <= i < 32 :: !(x[i] == -128 && w[i] < 0)
  {
    hide Q8Lanes, Dot, Deficit;
    Q8Total(w, x);
    NoDeficit(w, x);
  }

  function BlockDot8(b: BlockQ8, x: BlockQ8): real
    requires |b.qs| == |x.qs|
  {
    BlockValue(b.d, x.d, Dot(b.qs, x.qs))
  }

  function BlockValue(d: real, dx: real, p: int): real { d * dx * (p as real) }

  ghost predicate Row8(w: seq<BlockQ8>, x: seq<BlockQ8>) {
    |w| == |x| && forall i | 0 <= i < |w| :: ValidQ8(w[i]) && ValidQ8(x[i])
  }

  function Dot8(w: seq<BlockQ8>, x: seq<BlockQ8>, n: nat): real
    requires Row8(w, x) && n <= |w|
  {
    if n == 0 then 0.0 else Dot8(w, x, n - 1) + BlockDot8(w[n - 1], x[n - 1])
  }

  function Weights8(w: seq<BlockQ8>, n: nat): (y: seq<real>)
    requires n <= |w| && forall i | 0 <= i < |w| :: ValidQ8(w[i])
    ensures |y| == 32 * n
  {
    if n == 0 then [] else Weights8(w, n - 1) + Dequant8(w[n - 1])
  }

  /** For every number of blocks, the Q8_0 dot is the dot of the dequantized rows. */
  lemma {:induction false} Dot8IsDequantized(w: seq<BlockQ8>, x: seq<BlockQ8>, n: nat)
    requires Row8(w, x) && n <= |w|
    ensures Dot8(w, x, n) == RDot(Weights8(w, n), Weights8(x, n))
    decreases n
  {
    hide Affine, Dot, Level, BlockValue, Part;
    if n > 0 {
      var b, y := w[n - 1], x[n - 1];
      Dot8IsDequantized(w, x, n - 1);
      AffineDot(b.qs, y.qs, b.d, 0.0, y.d);
      ValueIsPart(b.d, y.d, Dot(b.qs, y.qs), Sum(y.qs));
      RDotAppend(Weights8(w, n - 1), Weights8(x, n - 1), Dequant8(b), Dequant8(y));
    }
  }

  lemma ValueIsPart(d: real, dx: real, p: int, s: int)
    ensures Part(d, 0.0, dx, p, s) == BlockValue(d, dx, p)
  {
  }

  /** Scale integer lanes and add them to the accumulator lanes. */
  function Fmadd(d: real, v: seq<int>, acc: seq<real>): (r: seq<real>)
    requires |v| == |acc|
    ensures |r| == |acc|
  {
    seq(|acc|, i requires 0 <= i < |acc| => FmaddLane(d, v[i], acc[i]))
  }

  function FmaddLane(d: real, v: int, a: real): real { d * (v as real) + a }

  lemma FmaddTail(d: real, v: seq<int>, acc: seq<real>)
    requires |v| == |acc| > 0
    ensures Fmadd(d, v, acc)[1..] == Fmadd(d, v[1..], acc[1..]) && Fmadd(d, v, acc)[0] == FmaddLane(d, v[0], acc[0])
  {
    hide FmaddLane;
  }

  lemma {:induction false} FmaddTotal(d: real, v: seq<int>, acc: seq<real>)
    requires |v| == |acc|
    ensures RSum(Fmadd(d, v, acc)) == d * (Sum(v) as real) + RSum(acc)
    decreases |v|
  {
    if v != [] {
      FmaddTotal(d, v[1..], acc[1..]);
      FmaddTail(d, v, acc);
      RealDistribute(d, v[0] as real, Sum(v[1..]) as real);
    }
  }

  lemma RealDistribute(d: real, a: real, b: real)
    ensures d * (a + b) == d * a + d * b
  {
  }

  function RealZeros(): (r: seq<real>)
    ensures |r| == 8
  {
    seq(8, _ => 0.0)
  }

  lemma {:induction false} ZerosTotal(n: nat)
    ensures RSum(seq(n, _ => 0.0)) == 0.0
    decreases n
  {
    if n > 0 {
      ZerosTotal(n - 1);
      assert seq(n, _ => 0.0)[1..] == seq(n - 1, _ => 0.0);
    }
  }

  ghost predicate Clamped(x: seq<BlockQ8>) {
    forall i, k | 0 <= i < |x| && 0 <= k < |x[i].qs| :: x[i].qs[k] != -128
  }

  /** What the sign trick misses over the first `n` blocks: 256 times the
      magnitude of every negative weight that meets a -128. */
  function Missed8(w: seq<BlockQ8>, x: seq<BlockQ8>, n: nat): real
    requires Row8(w, x) && n <= |w|
  {
    if n == 0 then 0.0
    else Missed8(w, x, n - 1) + BlockValue(w[n - 1].d, x[n - 1].d, 256 * Deficit(w[n - 1].qs, x[n - 1].qs))
  }

  /** Quantized activations never hold -128, and then nothing is missed. */
  lemma {:induction false} ClampedMissesNothing(w: seq<BlockQ8>, x: seq<BlockQ8>, n: nat)
    requires Row8(w, x) && n <= |w| && Clamped(x)
    ensures Missed8(w, x, n) == 0.0
    decreases n
  {
    hide Deficit;
    if n > 0 {
      ClampedMissesNothing(w, x, n - 1);
      NoDeficit(w[n - 1].qs, x[n - 1].qs);
    }
  }

  lemma ValueLess(d: real, dx: real, p: int, q: int)
    ensures d * dx * ((p - q) as real) == BlockValue(d, dx, p) - BlockValue(d, dx, q)
  {
  }

  /** The AVX2 kernel, on all signed bytes. */
  method DotQ8Avx2(w: seq<BlockQ8>, x: seq<BlockQ8>) returns (r: real)
    requires Row8(w, x)
    ensures r == Dot8(w, x, |w|) - Missed8(w, x, |w|)
  {
    hide Q8Lanes, Dot, Fmadd, RSum, Deficit, BlockValue;
    var acc := RealZeros();
    ZerosTotal(8);
    var i := 0;
    while i < |w|
      invariant 0 <= i <= |w| && |acc| == 8 && RSum(acc) == Dot8(w, x, i) - Missed8(w, x, i)
    {
      var d := w[i].d * x[i].d;
      var p32 := Q8Lanes(w[i].qs, x[i].qs);
      Q8Total(w[i].qs, x[i].qs);
      ValueLess(w[i].d, x[i].d, Dot(w[i].qs, x[i].qs), 256 * Deficit(w[i].qs, x[i].qs));
      FmaddTotal(d, p32, acc);
      acc := Fmadd(d, p32, acc);
      i := i + 1;
    }
    r := RSum(acc);
  }

  lemma SumStep(s: seq<int>, k: nat)
    requires k < |s|
    ensures Sum(s[..k + 1]) == Sum(s[..k]) + s[k]
  {
    assert s[..k + 1] == s[..k] + [s[k]];
    SumAppend(s[..k], [s[k]]);
    assert [s[k]][1..] == [];
  }

  // ---- Q4_K ------------------------------------------------------------------------------------

  lemma NibbleLanes(b: BlockQ4K, j: nat)
    requires ValidQ4K(b) && j < 4
    ensures var v: seq<int> := b.qs[32 * j..32 * j + 32];
      AndLow(v, 16) == W4(b, 2 * j) && AndLow(Srli16(v, 4), 16) == W4(b, 2 * j + 1)
  {
    hide W4, Srli16;
    var v: seq<int> := b.qs[32 * j..32 * j + 32];
    ShiftMask(v, 4, 16);
    forall k | 0 <= k < 32
      ensures AndLow(v, 16)[k] == W4(b, 2 * j)[k] && AndLow(Srli16(v, 4), 16)[k] == W4(b, 2 * j + 1)[k]
    {
      assert v[k] == b.qs[j * 32 + k];
      W4At(b, j, k);
    }
  }

  lemma W4At(b: BlockQ4K, j: nat, k: nat)
    requires ValidQ4K(b) && j < 4 && k < 32
    ensures W4(b, 2 * j)[k] == b.qs[j * 32 + k] % 16 && W4(b, 2 * j + 1)[k] == b.qs[j * 32 + k] / 16
  {
    assert (2 * j) / 2 * 32 + k == j * 32 + k && (2 * j + 1) / 2 * 32 + k == j * 32 + k;
    assert (2 * j) % 2 == 0 && (2 * j + 1) % 2 == 1;
    assert W4(b, 2 * j)[k] == Nibble(b.qs[j * 32 + k], false);
    assert W4(b, 2 * j + 1)[k] == Nibble(b.qs[j * 32 + k], true);
  }

  lemma SignedWithin(s: seq<int>)
    requires Signed(s)
    ensures Within(s, 128)
  {
  }

  /** One sub-block's lanes: exact products, then times the scale. */
  lemma SubLanes(w: seq<int>, x: seq<int>, sc: nat)
    requires |w| == |x| == 32 && (forall k | 0 <= k < 32 :: 0 <= w[k] < 16) && Signed(x) && sc < 64
    ensures var v := Madd(Splat(16, sc), Maddubs(w, x));
      Sum(v) == sc * Dot(w, x) && Within(v, 483840)
  {
    hide Maddubs, Madd;
    SignedWithin(x);
    MaddubsExact(w, x, 15, 128);
    PairSumsTotal(Products(w, x));
    ConstantMadd(sc, Maddubs(w, x), 63, 3840);
  }

  /** The integer part of one block. */
  method Q4Lanes(b: BlockQ4K, x: BlockQ8K) returns (sumi: seq<int>)
    requires ValidQ4K(b) && ValidQ8K(x)
    ensures |sumi| == 8 && Sum(sumi) == IntSum4(b, x, 8) && Within(sumi, 4 * 967680)
  {
    hide Maddubs, Madd, W4, Scale, Dot, Sum, AndLow, Srli16, Add32;
    sumi := ZeroLanes();
    ZeroTotal();
    var j := 0;
    while j < 4
      invariant 0 <= j <= 4 && |sumi| == 8 && Sum(sumi) == IntSum4(b, x, 2 * j) && Within(sumi, j * 967680)
    {
      var q4bits: seq<int> := b.qs[32 * j..32 * j + 32];
      var q4l := AndLow(q4bits, 16);
      var q4h := AndLow(Srli16(q4bits, 4), 16);
      NibbleLanes(b, j);
      var q8l := x.qs[64 * j..64 * j + 32];
      var q8h := x.qs[64 * j + 32..64 * j + 64];
      W4Range(b, 2 * j);
      W4Range(b, 2 * j + 1);
      ScaleBound(b, 2 * j);
      ScaleBound(b, 2 * j + 1);
      SubLanes(q4l, q8l, Scale(b, 2 * j));
      SubLanes(q4h, q8h, Scale(b, 2 * j + 1));
      var p16l := Madd(Splat(16, Scale(b, 2 * j)), Maddubs(q4l, q8l));
      var p16h := Madd(Splat(16, Scale(b, 2 * j + 1)), Maddubs(q4h, q8h));
      Add32Exact(p16l, p16h, 483840, 483840);
      Add32Exact(sumi, Add32(p16l, p16h), j * 967680, 967680);
      TwoTerms4(b, x, j);
      sumi := Add32(sumi, Add32(p16l, p16h));
      j := j + 1;
    }
  }

  lemma TwoTerms4(b: BlockQ4K, x: BlockQ8K, j: nat)
    requires ValidQ4K(b) && ValidQ8K(x) && j < 4
    ensures IntSum4(b, x, 2 * j + 2) == IntSum4(b, x, 2 * j)
      + Scale(b, 2 * j) * Dot(W4(b, 2 * j), x.qs[64 * j..64 * j + 32])
      + Scale(b, 2 * j + 1) * Dot(W4(b, 2 * j + 1), x.qs[64 * j + 32..64 * j + 64])
  {
    hide Scale, Dot, W4;
    assert X32(x, 2 * j) == x.qs[64 * j..64 * j + 32];
    assert X32(x, 2 * j + 1) == x.qs[64 * j + 32..64 * j + 64];
  }

  method MinLoop(b: BlockQ4K, x: BlockQ8K) returns (s: int)
    requires ValidQ4K(b) && ValidQ8K(x)
    ensures s == MinSum4(b, x, 8)
  {
    hide Minimum;
    s := 0;
    var j := 0;
    while j < 8
      invariant 0 <= j <= 8 && s == MinSum4(b, x, j)
    {
      s := s + Minimum(b, j) * (x.bsums[2 * j] + x.bsums[2 * j + 1]);
      j := j + 1;
    }
  }

  lemma SplitCombine(d: real, dmin: real, dx: real, p: int, s: int, a: real, m: real)
    ensures (d * dx * (p as real) + a) - (m + dmin * dx * (s as real)) == (a - m) + Combine(d, dmin, dx, p, s)
  {
  }

  /** The AVX2 kernel equals the scalar dot. */
  method DotQ4KAvx2(w: seq<BlockQ4K>, x: seq<BlockQ8K>) returns (r: real)
    requires Row4(w, x)
    ensures r == Dot4(w, x, |w|)
  {
    hide RSum, Fmadd, IntSum4, MinSum4, Combine;
    var acc := RealZeros();
    ZerosTotal(8);
    var accMin := 0.0;
    var i := 0;
    while i < |w|
      invariant 0 <= i <= |w| && |acc| == 8 && RSum(acc) - accMin == Dot4(w, x, i)
    {
      var d, dmin := w[i].d * x[i].d, w[i].dmin * x[i].d;
      var minSum := MinLoop(w[i], x[i]);
      var sumi := Q4Lanes(w[i], x[i]);
      FmaddTotal(d, sumi, acc);
      SplitCombine(w[i].d, w[i].dmin, x[i].d, IntSum4(w[i], x[i], 8), minSum, RSum(acc), accMin);
      accMin := accMin + dmin * (minSum as real);
      acc := Fmadd(d, sumi, acc);
      i := i + 1;
    }
    r := RSum(acc) - accMin;
  }

  // ---- Q6_K --------------------------------------------------------------------------------------

  /** The 32 unsigned quants of plane `n` in one half. */
  function Plane(b: BlockQ6K, half: nat, n: nat): (v: seq<int>)
    requires ValidQ6K(b) && half < 2 && n < 4
    ensures |v| == 32
  {
    seq(32, k requires 0 <= k < 32 => Q6At(b, half * 128 + n * 32 + k))
  }

  lemma PlaneRange(b: BlockQ6K, half: nat, n: nat)
    requires ValidQ6K(b) && half < 2 && n < 4
    ensures forall k | 0 <= k < 32 :: 0 <= Plane(b, half, n)[k] < 64
  {
    forall k | 0 <= k < 32 ensures 0 <= Plane(b, half, n)[k] < 64 {
      Q6Range(b, half * 128 + n * 32 + k);
    }
  }

  /** The unpacking of plane `n` from the two nibble registers and the high bits. */
  function PlaneLanes(bits: seq<int>, qh: seq<int>, n: nat): (v: seq<int>)
    requires |bits| == |qh| == 32 && n < 4
    ensures |v| == 32
  {
    var low := if n < 2 then AndLow(bits, 16) else AndLow(Srli16(bits, 4), 16);
    var two := if n == 0 then AndLow(qh, 4) else AndLow(Srli16(qh, 2 * n), 4);
    OrApart(low, Slli16By4(two))
  }

  lemma PlaneIsLanes(b: BlockQ6K, half: nat, n: nat)
    requires ValidQ6K(b) && half < 2 && n < 4
    ensures PlaneLanes(b.ql[half * 64 + n % 2 * 32..half * 64 + n % 2 * 32 + 32], b.qh[half * 32..half * 32 + 32], n) == Plane(b, half, n)
  {
    hide PlaneLanes, Plane, Power, Q6At;
    var bits: seq<int> := b.ql[half * 64 + n % 2 * 32..half * 64 + n % 2 * 32 + 32];
    var qh: seq<int> := b.qh[half * 32..half * 32 + 32];
    LanePieces(bits, qh, n);
    forall k | 0 <= k < 32 ensures PlaneLanes(bits, qh, n)[k] == Plane(b, half, n)[k] {
      PlaneAt(b, half, n, k);
      assert bits[k] == b.ql[half * 64 + n % 2 * 32 + k] && qh[k] == b.qh[half * 32 + k];
    }
  }

  lemma PlaneAt(b: BlockQ6K, half: nat, n: nat, k: nat)
    requires ValidQ6K(b) && half < 2 && n < 4 && k < 32
    ensures Plane(b, half, n)[k] ==
      (if n >= 2 then b.ql[half * 64 + n % 2 * 32 + k] / 16 else b.ql[half * 64 + n % 2 * 32 + k] % 16) + 16 * (b.qh[half * 32 + k] / Power(2 * n) % 4)
  {
    hide Power;
    PlaneIndex(half, n, k);
  }

  lemma PlaneIndex(half: nat, n: nat, k: nat)
    requires half < 2 && n < 4 && k < 32
    ensures var i := half * 128 + n * 32 + k; i / 128 == half && i % 128 / 32 == n && i % 32 == k && i < 256
  {
  }

  /** Each lane: a nibble plus two high bits. */
  lemma LanePieces(bits: seq<int>, qh: seq<int>, n: nat)
    requires |bits| == |qh| == 32 && BytesOk(bits) && BytesOk(qh) && n < 4
    ensures forall k | 0 <= k < 32 ::
      PlaneLanes(bits, qh, n)[k] == (if n >= 2 then bits[k] / 16 else bits[k] % 16) + 16 * (qh[k] / Power(2 * n) % 4)
  {
    hide Srli16, Slli16By4;
    ShiftMask(bits, 4, 16);
    if n > 0 {
      ShiftMask(qh, 2 * n, 4);
    }
    LiftTwo(if n == 0 then AndLow(qh, 4) else AndLow(Srli16(qh, 2 * n), 4));
  }

  /** One scale in the low eight lanes, the next in the high eight. */
  function ScaleLanes(lo: int, hi: int): (v: seq<int>)
    ensures |v| == 16
  {
    Splat(8, lo) + Splat(8, hi)
  }

  lemma TwoScales(lo: int, hi: int, v: seq<int>, n: nat)
    requires |v| == 16 && I8(lo) && I8(hi) && Within(v, n) && 256 * n <= 0x7fff_ffff
    ensures Sum(Madd(ScaleLanes(lo, hi), v)) == lo * Sum(v[..8]) + hi * Sum(v[8..]) && Within(Madd(ScaleLanes(lo, hi), v), 256 * n)
  {
    hide Madd, Sum, ScaleLanes;
    var s := ScaleLanes(lo, hi);
    ScaleWithin(lo, hi);
    MaddExact(s, v, 128, n);
    PairSumsTotal(Products(s, v));
    ScaleProducts(lo, hi, v);
    SumAppend(Scaled(lo, v[..8]), Scaled(hi, v[8..]));
    ScaledTotal(lo, v[..8]);
    ScaledTotal(hi, v[8..]);
  }

  lemma ScaleWithin(lo: int, hi: int)
    requires I8(lo) && I8(hi)
    ensures Within(ScaleLanes(lo, hi), 128)
  {
  }

  lemma ScaleProducts(lo: int, hi: int, v: seq<int>)
    requires |v| == 16
    ensures Products(ScaleLanes(lo, hi), v) == Scaled(lo, v[..8]) + Scaled(hi, v[8..])
  {
    var p, q := Products(ScaleLanes(lo, hi), v), Scaled(lo, v[..8]) + Scaled(hi, v[8..]);
    forall i | 0 <= i < 16 ensures p[i] == q[i] {
      assert ScaleLanes(lo, hi)[i] == if i < 8 then lo else hi;
    }
  }

  /** The offset form: subtracting 32 times the activations. */
  lemma OffsetProducts(q: seq<int>, x: seq<int>)
    requires |q| == |x| == 32 && (forall k | 0 <= k < 32 :: 0 <= q[k] < 64) && Signed(x)
    ensures var v := Sub16(Maddubs(q, x), Maddubs(Splat(32, 32), x));
      v == PairSums(Products(Offset(q), x)) && Within(v, 8192)
  {
    hide Maddubs;
    SignedWithin(x);
    MaddubsExact(q, x, 63, 128);
    MaddubsExact(Splat(32, 32), x, 32, 128);
    ProductsWithin(Offset(q), x, 32, 128);
    PairSumsWithin(Products(Offset(q), x), 4096);
    var p := PairSums(Products(Offset(q), x));
    forall i | 0 <= i < 16 ensures Sub16(Maddubs(q, x), Maddubs(Splat(32, 32), x))[i] == p[i] {
      OffsetTerm(q[2 * i], x[2 * i]);
      OffsetTerm(q[2 * i + 1], x[2 * i + 1]);
    }
  }

  lemma OffsetTerm(q: int, x: int)
    ensures (q - 32) * x == q * x - 32 * x
  {
  }

  function Offset(q: seq<int>): (r: seq<int>)
    ensures |r| == |q| && forall i | 0 <= i < |q| :: r[i] == q[i] - 32
  {
    seq(|q|, i requires 0 <= i < |q| => q[i] - 32)
  }

  /** A plane holds two groups of sixteen. */
  lemma PlaneGroups(b: BlockQ6K, x: BlockQ8K, half: nat, n: nat)
    requires ValidQ6K(b) && ValidQ8K(x) && half < 2 && n < 4
    ensures var g := half * 8 + 2 * n; var p := PairSums(Products(Offset(Plane(b, half, n)), x.qs[half * 128 + n * 32..half * 128 + n * 32 + 32]));
      Sum(p[..8]) == Dot(W6(b, g), X16(x, g)) && Sum(p[8..]) == Dot(W6(b, g + 1), X16(x, g + 1))
  {
    hide Q6At;
    var g := half * 8 + 2 * n;
    var q, s := Offset(Plane(b, half, n)), x.qs[half * 128 + n * 32..half * 128 + n * 32 + 32];
    var t := Products(q, s);
    assert q[..16] == W6(b, g) && q[16..] == W6(b, g + 1);
    assert s[..16] == X16(x, g) && s[16..] == X16(x, g + 1);
    assert t[..16] == Products(W6(b, g), X16(x, g)) && t[16..] == Products(W6(b, g + 1), X16(x, g + 1));
    PairSplit(t);
    PairSumsTotal(t[..16]);
    PairSumsTotal(t[16..]);
  }

  lemma PairSplit(t: seq<int>)
    requires |t| == 32
    ensures PairSums(t)[..8] == PairSums(t[..16]) && PairSums(t)[8..] == PairSums(t[16..])
  {
  }

  /** One plane's contribution. */
  method PlaneStep(b: BlockQ6K, x: BlockQ8K, half: nat, n: nat) returns (p16: seq<int>)
    requires ValidQ6K(b) && ValidQ8K(x) && half < 2 && n < 4
    ensures |p16| == 8 && Within(p16, 2097152)
    ensures var g := half * 8 + 2 * n; Sum(p16) == Term6(b, x, g) + Term6(b, x, g + 1)
  {
    hide Maddubs, Madd, Sub16, Plane, PlaneLanes, Dot, Sum, W6, X16;
    var q6 := PlaneLanes(b.ql[half * 64 + n % 2 * 32..half * 64 + n % 2 * 32 + 32], b.qh[half * 32..half * 32 + 32], n);
    PlaneIsLanes(b, half, n);
    PlaneRange(b, half, n);
    var q8 := x.qs[half * 128 + n * 32..half * 128 + n * 32 + 32];
    OffsetProducts(q6, q8);
    PlaneGroups(b, x, half, n);
    var corr := Maddubs(Splat(32, 32), q8);
    var p := Sub16(Maddubs(q6, q8), corr);
    var g := half * 8 + 2 * n;
    TwoScales(b.scales[g], b.scales[g + 1], p, 8192);
    p16 := Madd(ScaleLanes(b.scales[g], b.scales[g + 1]), p);
  }

  /** The integer part of one block. */
  method Q6Lanes(b: BlockQ6K, x: BlockQ8K) returns (sumi: seq<int>)
    requires ValidQ6K(b) && ValidQ8K(x)
    ensures |sumi| == 8 && Sum(sumi) == IntSum6(b, x, 16) && Within(sumi, 8 * 2097152)
  {
    hide Sum, Term6, Add32;
    sumi := ZeroLanes();
    ZeroTotal();
    var half := 0;
    while half < 2
      invariant 0 <= half <= 2 && |sumi| == 8 && Sum(sumi) == IntSum6(b, x, half * 8) && Within(sumi, half * 4 * 2097152)
    {
      var n := 0;
      while n < 4
        invariant 0 <= n <= 4 && |sumi| == 8 && Sum(sumi) == IntSum6(b, x, half * 8 + 2 * n)
        invariant Within(sumi, (half * 4 + n) * 2097152)
      {
        var p16 := PlaneStep(b, x, half, n);
        Add32Exact(sumi, p16, (half * 4 + n) * 2097152, 2097152);
        TwoTerms6(b, x, half * 8 + 2 * n);
        sumi := Add32(sumi, p16);
        n := n + 1;
      }
      half := half + 1;
    }
  }

  lemma TwoTerms6(b: BlockQ6K, x: BlockQ8K, g: nat)
    requires ValidQ6K(b) && ValidQ8K(x) && g < 15
    ensures IntSum6(b, x, g + 2) == IntSum6(b, x, g) + (Term6(b, x, g) + Term6(b, x, g + 1))
  {
    hide Term6;
  }

  method DotQ6KAvx2(w: seq<BlockQ6K>, x: seq<BlockQ8K>) returns (r: real)
    requires Row6(w, x)
    ensures r == Dot6(w, x, |w|)
  {
    hide RSum, Fmadd, IntSum6, Combine;
    var acc := RealZeros();
    ZerosTotal(8);
    var i := 0;
    while i < |w|
      invariant 0 <= i <= |w| && |acc| == 8 && RSum(acc) == Dot6(w, x, i)
    {
      var d := w[i].d * x[i].d;
      var sumi := Q6Lanes(w[i], x[i]);
      FmaddTotal(d, sumi, acc);
      SplitCombine(w[i].d, 0.0, x[i].d, IntSum6(w[i], x[i], 16), 0, RSum(acc), 0.0);
      acc := Fmadd(d, sumi, acc);
      i := i + 1;
    }
    r := RSum(acc);
  }
}
