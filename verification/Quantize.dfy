/** Quantizing activations over exact reals: the ranges the integer kernels rely
    on, exact group sums, and the error bounds. */
module Quantize {
  import opened Lanes
  import opened Quant
  import Avx2

  function Abs(x: real): (r: real)
    ensures r >= 0.0 && (r == x || r == -x) && r >= x && r >= -x
  {
    if x < 0.0 then -x else x
  }

  function Mul(a: real, b: real): real { a * b }

  function Recip(d: real): real { if d > 0.0 then 1.0 / d else 0.0 }

  lemma AbsMul(a: real, b: real)
    ensures Abs(Mul(a, b)) == Mul(Abs(a), Abs(b))
  {
    var x, y := Abs(a), Abs(b);
    NegMul(x, y);
    RealMono(0.0, x, y);
  }

  lemma NegMul(x: real, y: real)
    ensures Mul(-x, y) == -Mul(x, y) && Mul(x, -y) == -Mul(x, y) && Mul(-x, -y) == Mul(x, y)
  {
  }

  lemma RealMono(a: real, b: real, k: real)
    requires a <= b && k >= 0.0
    ensures Mul(a, k) <= Mul(b, k) && Mul(k, a) <= Mul(k, b)
  {
  }

  /** Truncation toward zero. */
  function Trunc(x: real): int {
    if x >= 0.0 then x.Floor else -((-x).Floor)
  }

  /** Round to nearest, ties away from zero. */
  function Nearest(x: real): int {
    Trunc(if x >= 0.0 then x + 0.5 else x - 0.5)
  }

  lemma NearestClose(x: real)
    ensures Abs(Nearest(x) as real - x) <= 0.5
  {
  }

  lemma NearestBound(x: real, n: nat)
    requires Abs(x) <= n as real
    ensures -(n as int) <= Nearest(x) <= n
  {
  }

  function Clamp(x: int, lo: int, hi: int): (r: int)
    requires lo <= hi
    ensures lo <= r <= hi && (lo <= x <= hi ==> r == x)
  {
    if x < lo then lo else if x > hi then hi else x
  }

  // ---- Q8_0 ------------------------------------------------------------------------------

  /** Largest magnitude of the first `n` values. */
  function MaxAbs(s: seq<real>, n: nat): (m: real)
    requires n <= |s|
    ensures m >= 0.0
  {
    if n == 0 then 0.0 else if Abs(s[n - 1]) > MaxAbs(s, n - 1) then Abs(s[n - 1]) else MaxAbs(s, n - 1)
  }

  lemma {:induction false} MaxAbsBounds(s: seq<real>, n: nat)
    requires n <= |s|
    ensures forall i | 0 <= i < n :: Abs(s[i]) <= MaxAbs(s, n)
  {
    if n > 0 {
      MaxAbsBounds(s, n - 1);
    }
  }

  /** One value against the stored scale. */
  function Quant8(v: real, d: real): (q: int)
    ensures -127 <= q <= 127
  {
    Clamp(Nearest(Mul(v, Recip(d))), -127, 127)
  }

  /** A block quantized against the half-precision scale it stores. `half` stands
      for the rounding to half precision and back. */
  function Block8(half: real -> real, s: seq<real>): (b: BlockQ8)
    requires |s| == 32
    ensures |b.qs| == 32
  {
    var d := half(MaxAbs(s, 32) / 127.0);
    BlockQ8(d, seq(32, i requires 0 <= i < 32 => Quant8(s[i], d)))
  }

  /** Whatever the scale, the quants stay in -127..127. */
  lemma Block8Clamped(half: real -> real, s: seq<real>)
    requires |s| == 32
    ensures ValidQ8(Block8(half, s)) && forall i | 0 <= i < 32 :: -127 <= Block8(half, s).qs[i] <= 127
  {
    hide Quant8;
    forall i | 0 <= i < 32 ensures -127 <= Block8(half, s).qs[i] <= 127 {
      var q := Quant8(s[i], Block8(half, s).d);
      assert Block8(half, s).qs[i] == q;
    }
  }

  lemma ScaleError(q: int, v: real, d: real)
    requires d > 0.0 && Abs(q as real - Mul(v, Recip(d))) <= 0.5
    ensures Abs((q as real) * d - v) <= d / 2.0
  {
    hide Recip;
    var y := Mul(v, Recip(d));
    var e, r := q as real - y, (q as real) * d - v;
    Undo(v, d);
    assert r == Mul(e, d);
    AbsMul(e, d);
    RealMono(Abs(e), 0.5, Abs(d));
    assert Abs(r) == Mul(Abs(e), Abs(d)) <= Mul(0.5, d);
  }

  lemma Undo(v: real, d: real)
    requires d > 0.0
    ensures Mul(Mul(v, Recip(d)), d) == v
  {
    assert (1.0 / d) * d == 1.0;
    assert v * (1.0 / d) * d == v * ((1.0 / d) * d);
  }

  lemma InRange(v: real, d: real)
    requires d > 0.0 && Abs(v) <= 127.0 * d
    ensures Abs(Mul(v, Recip(d))) <= 127.0
  {
    var y := Mul(v, Recip(d));
    Undo(v, d);
    AbsMul(y, d);
    assert Mul(Abs(y), d) == Abs(v);
    Divide(Abs(y), 127.0, d);
  }

  lemma Divide(a: real, b: real, d: real)
    requires d > 0.0 && Mul(a, d) <= Mul(b, d)
    ensures a <= b
  {
  }

  /** Within the range of the stored scale, dequantizing is off by half a step. */
  lemma Quant8Error(v: real, d: real)
    requires d > 0.0 && Abs(v) <= 127.0 * d
    ensures Abs((Quant8(v, d) as real) * d - v) <= d / 2.0
  {
    hide Nearest, Abs, Mul, Recip;
    InRange(v, d);
    NearestClose(Mul(v, Recip(d)));
    NearestBound(Mul(v, Recip(d)), 127);
    ScaleError(Quant8(v, d), v, d);
  }

  /** The distance of a scaled value from its clamped quant. */
  lemma ClampedAway(y: real)
    ensures Abs(Clamp(Nearest(y), -127, 127) as real - y) <= 0.5 <==> Abs(y) <= 127.5
  {
    hide Nearest;
    NearestClose(y);
    NearestFar(y);
  }

  lemma NearestFar(y: real)
    ensures y > 127.5 ==> Nearest(y) >= 127
    ensures y < -127.5 ==> Nearest(y) <= -127
  {
  }

  lemma ErrorIs(q: int, v: real, d: real)
    requires d > 0.0
    ensures Abs((q as real) * d - v) == Mul(Abs(q as real - Mul(v, Recip(d))), d)
  {
    hide Recip, Abs, Mul;
    var y := Mul(v, Recip(d));
    Undo(v, d);
    MulMinus(q as real, y, d);
    MulIs(q as real, d);
    var r := (q as real) * d;
    assert r == Mul(q as real, d);
    assert r - v == Mul(q as real - y, d);
    AbsMul(q as real - y, d);
    AbsPositive(d);
  }

  lemma AbsPositive(d: real)
    requires d >= 0.0
    ensures Abs(d) == d
  {
  }

  /** Dequantizing is off by at most half a step, as the comment promises, exactly for
      values of at most 127.5 steps. */
  lemma Quant8ErrorIff(v: real, d: real)
    requires d >= 0.0
    ensures Abs((Quant8(v, d) as real) * d - v) <= d / 2.0 <==> Abs(v) <= 127.5 * d
  {
    if d == 0.0 {
      NoScale(v);
    } else {
      PositiveScale(v, d);
    }
  }

  lemma NoScale(v: real)
    ensures Abs((Quant8(v, 0.0) as real) * 0.0 - v) <= 0.0 <==> Abs(v) <= 0.0
  {
  }

  lemma PositiveScale(v: real, d: real)
    requires d > 0.0
    ensures Abs((Quant8(v, d) as real) * d - v) <= d / 2.0 <==> Abs(v) <= 127.5 * d
  {
    hide Nearest, Clamp, Recip, Abs, Mul;
    var y, q := Mul(v, Recip(d)), Quant8(v, d);
    ErrorIs(q, v, d);
    ClampedAway(y);
    LessTimes(Abs(q as real - y), 0.5, d);
    Undo(v, d);
    AbsMul(y, d);
    AbsPositive(d);
    LessTimes(Abs(y), 127.5, d);
  }

  /** Value `i` of a block comes back within half the step the block stores. */
  predicate WithinHalf(b: BlockQ8, s: seq<real>, i: nat)
    requires i < |b.qs| == |s|
  {
    Abs((b.qs[i] as real) * b.d - s[i]) <= b.d / 2.0
  }

  lemma WithinIff(half: real -> real, s: seq<real>, i: nat)
    requires |s| == 32 && i < 32 && Block8(half, s).d >= 0.0
    ensures WithinHalf(Block8(half, s), s, i) <==> Abs(s[i]) <= 127.5 * Block8(half, s).d
  {
    hide Quant8, Abs, MaxAbs;
    Quant8ErrorIff(s[i], Block8(half, s).d);
  }

  /** So every value of a block is within half the stored step if and only if the scale
      stored for the block reaches its largest value up to half a step. */
  lemma Block8ErrorIff(half: real -> real, s: seq<real>)
    requires |s| == 32 && Block8(half, s).d >= 0.0
    ensures (forall i | 0 <= i < 32 :: WithinHalf(Block8(half, s), s, i)) <==> MaxAbs(s, 32) <= 127.5 * Block8(half, s).d
  {
    hide Abs, MaxAbs, WithinHalf, Block8;
    MaxAbsBounds(s, 32);
    var m := MaxAbsAt(s, 32);
    forall i | 0 <= i < 32
      ensures WithinHalf(Block8(half, s), s, i) <==> Abs(s[i]) <= 127.5 * Block8(half, s).d
    {
      WithinIff(half, s, i);
    }
  }

  /** Where the largest magnitude stands; the length if there is none. */
  lemma {:induction false} MaxAbsAt(s: seq<real>, n: nat) returns (m: nat)
    requires n <= |s|
    ensures m <= n && (m == n ==> MaxAbs(s, n) == 0.0) && (m < n ==> Abs(s[m]) == MaxAbs(s, n))
    decreases n
  {
    hide Abs;
    if n == 0 {
      m := 0;
    } else if Abs(s[n - 1]) > MaxAbs(s, n - 1) {
      m := n - 1;
    } else {
      m := MaxAbsAt(s, n - 1);
      if m == n - 1 {
        m := n;
      }
    }
  }

  /** A rounding that loses at most one part in 256, as half precision does for normal
      numbers, keeps the promise for every block. */
  lemma Block8Rounded(half: real -> real, s: seq<real>, i: nat)
    requires |s| == 32 && i < 32 && forall x: real | x >= 0.0 :: half(x) >= x - x / 256.0
    ensures WithinHalf(Block8(half, s), s, i)
  {
    hide Quant8, Abs, MaxAbs, WithinHalf;
    var x := MaxAbs(s, 32) / 127.0;
    assert half(x) >= x - x / 256.0;
    assert Block8(half, s).d == half(x);
    Block8ErrorIff(half, s);
  }

  /** The whole block is lost if its scale is rounded to zero. */
  lemma ScaleLost(half: real -> real, s: seq<real>, i: nat)
    requires |s| == 32 && i < 32 && half(MaxAbs(s, 32) / 127.0) == 0.0
    ensures Block8(half, s).qs[i] == 0
  {
    hide MaxAbs;
  }

  lemma NoValue(v: real, q: int, d: real)
    requires Abs(v) <= 0.0 && d == 0.0
    ensures Abs((q as real) * d - v) <= d / 2.0
  {
  }

  /** Quantize every block of 32. */
  method QuantizeQ8(half: real -> real, src: seq<real>, out: array<BlockQ8>)
    requires |src| == out.Length * 32
    modifies out
    ensures forall i | 0 <= i < out.Length :: out[i] == Block8(half, src[i * 32..i * 32 + 32]) && ValidQ8(out[i])
    ensures Avx2.Clamped(out[..])
  {
    hide Block8;
    var i := 0;
    while i < out.Length
      invariant 0 <= i <= out.Length
      invariant forall k | 0 <= k < i :: out[k] == Block8(half, src[k * 32..k * 32 + 32])
    {
      var b := QuantizeBlock(half, src[i * 32..i * 32 + 32]);
      out[i] := b;
      i := i + 1;
    }
    forall k | 0 <= k < out.Length ensures ValidQ8(out[k]) && forall j | 0 <= j < 32 :: -127 <= out[k].qs[j] <= 127 {
      Block8Clamped(half, src[k * 32..k * 32 + 32]);
    }
  }

  method QuantizeBlock(half: real -> real, chunk: seq<real>) returns (b: BlockQ8)
    requires |chunk| == 32
    ensures b == Block8(half, chunk)
  {
    hide Quant8, Abs;
    var amax := 0.0;
    var i := 0;
    while i < 32
      invariant 0 <= i <= 32 && amax == MaxAbs(chunk, i)
    {
      amax := if Abs(chunk[i]) > amax then Abs(chunk[i]) else amax;
      i := i + 1;
    }
    var d := half(amax / 127.0);
    var qs: seq<int> := [];
    i := 0;
    while i < 32
      invariant 0 <= i <= 32 && qs == Block8(half, chunk).qs[..i]
    {
      qs := qs + [Quant8(chunk[i], d)];
      i := i + 1;
    }
    b := BlockQ8(d, qs);
  }

  // ---- Q8_K --------------------------------------------------------------------------------

  /** The first value of largest magnitude among the first `n`. */
  function Peak(s: seq<real>, n: nat): real
    requires n <= |s|
  {
    if n == 0 then 0.0 else if Abs(s[n - 1]) > MaxAbs(s, n - 1) then s[n - 1] else Peak(s, n - 1)
  }

  lemma {:induction false} PeakIsMax(s: seq<real>, n: nat)
    requires n <= |s|
    ensures Abs(Peak(s, n)) == MaxAbs(s, n)
  {
    if n > 0 {
      PeakIsMax(s, n - 1);
    }
  }

  /** One value against the scale that takes the peak to -128. */
  function QuantK(v: real, iscale: real): int {
    var q := Nearest(Mul(iscale, v));
    Wrap8(if q < 127 then q else 127)
  }

  function GroupTotals(q: seq<int>): (s: seq<int>)
    requires |q| == 256
    ensures |s| == 16 && forall g | 0 <= g < 16 :: s[g] == Sum(q[g * 16..g * 16 + 16])
  {
    seq(16, g requires 0 <= g < 16 => Sum(q[g * 16..g * 16 + 16]))
  }

  function QuantsK(s: seq<real>, iscale: real): (q: seq<int>)
    requires |s| == 256
    ensures |q| == 256 && forall i | 0 <= i < 256 :: q[i] == QuantK(s[i], iscale)
  {
    seq(256, i requires 0 <= i < 256 => QuantK(s[i], iscale))
  }

  function BlockK(s: seq<real>): (b: BlockQ8K)
    requires |s| == 256
  {
    if MaxAbs(s, 256) == 0.0 then BlockQ8K(0.0, Splat(256, 0), Splat(16, 0))
    else
      PeakIsMax(s, 256);
      ScaleNonzero(Peak(s, 256));
      var iscale := IScale(Peak(s, 256));
      var q := QuantsK(s, iscale);
      BlockQ8K(1.0 / iscale, q, GroupTotals(q))
  }

  function IScale(p: real): real
    requires p != 0.0
  {
    -128.0 / p
  }

  lemma ScaleNonzero(p: real)
    requires p != 0.0
    ensures IScale(p) != 0.0 && Mul(IScale(p), p) == -128.0
  {
  }

  lemma Scaled128(v: real, p: real)
    requires p != 0.0 && Abs(v) <= Abs(p)
    ensures Abs(Mul(IScale(p), v)) <= 128.0
  {
    hide IScale;
    ScaleNonzero(p);
    var c := IScale(p);
    AbsMul(c, p);
    AbsMul(c, v);
    RealMono(Abs(v), Abs(p), Abs(c));
  }

  /** No quant leaves a byte before the cast, so the cast never wraps. */
  lemma QuantKRange(v: real, p: real)
    requires p != 0.0 && Abs(v) <= Abs(p)
    ensures var q := Nearest(Mul(IScale(p), v)); -128 <= q <= 128 && QuantK(v, IScale(p)) == if q < 127 then q else 127
  {
    hide Nearest, Mul, IScale, Abs;
    Scaled128(v, p);
    NearestBound(Mul(IScale(p), v), 128);
  }

  lemma {:induction false} SumBound(s: seq<int>, m: nat)
    requires Within(s, m)
    ensures -(m * |s|) <= Sum(s) <= m * |s|
    decreases |s|
  {
    if s != [] {
      SumBound(s[1..], m);
      assert m * |s| == m * |s[1..]| + m;
    }
  }

  /** Every block is well formed, with group sums that are exact and fit 16 bits. */
  lemma BlockKExact(s: seq<real>)
    requires |s| == 256
    ensures ValidQ8K(BlockK(s)) && ExactSums(BlockK(s))
  {
    hide QuantK, Sum, Nearest;
    var b := BlockK(s);
    MaxAbsBounds(s, 256);
    if MaxAbs(s, 256) == 0.0 {
      forall g | 0 <= g < 16 ensures Sum(b.qs[g * 16..g * 16 + 16]) == 0 {
        ZeroSlice(b.qs, g);
      }
    } else {
      PeakIsMax(s, 256);
      forall i | 0 <= i < 256 ensures I8(b.qs[i]) {
        QuantKRange(s[i], Peak(s, 256));
      }
      forall g | 0 <= g < 16 ensures I16(b.bsums[g]) {
        SumBound(b.qs[g * 16..g * 16 + 16], 128);
      }
    }
  }

  lemma ZeroSlice(q: seq<int>, g: nat)
    requires |q| == 256 && g < 16 && forall i | 0 <= i < 256 :: q[i] == 0
    ensures Sum(q[g * 16..g * 16 + 16]) == 0
  {
    SumBound(q[g * 16..g * 16 + 16], 0);
  }

  /** What a stored quant stands for. */
  function DequantK(q: int, iscale: real): real
    requires iscale != 0.0
  {
    Mul(q as real, Step(iscale))
  }

  function Step(iscale: real): real
    requires iscale != 0.0
  {
    1.0 / iscale
  }

  /** Dequantizing a Q8_K value is off by at most one step. */
  lemma QuantKError(v: real, p: real)
    requires p != 0.0 && Abs(v) <= Abs(p)
    ensures IScale(p) != 0.0 && Abs(DequantK(QuantK(v, IScale(p)), IScale(p)) - v) <= Abs(Step(IScale(p)))
  {
    hide Nearest, QuantK, Mul, IScale, Abs, DequantK, Step;
    ScaleNonzero(p);
    QuantKRange(v, p);
    Scaled128(v, p);
    QuantKClose(Mul(IScale(p), v), QuantK(v, IScale(p)));
    StepError(QuantK(v, IScale(p)), IScale(p), v);
  }

  lemma QuantKClose(y: real, q: int)
    requires Abs(y) <= 128.0 && q == (if Nearest(y) < 127 then Nearest(y) else 127)
    ensures Abs(q as real - y) <= 1.0
  {
    hide Nearest;
    NearestClose(y);
  }

  lemma StepError(q: int, iscale: real, v: real)
    requires iscale != 0.0 && Abs(q as real - Mul(iscale, v)) <= 1.0
    ensures Abs(DequantK(q, iscale) - v) <= Abs(Step(iscale))
  {
    hide Mul, Step, Abs;
    var d, y := Step(iscale), Mul(iscale, v);
    InverseBack(iscale, v);
    MulMinus(q as real, y, d);
    AbsMul(q as real - y, d);
    RealMono(Abs(q as real - y), 1.0, Abs(d));
    OneMul(Abs(d));
  }

  lemma MulMinus(a: real, b: real, d: real)
    ensures Mul(a - b, d) == Mul(a, d) - Mul(b, d)
  {
  }

  lemma OneMul(d: real)
    ensures Mul(1.0, d) == d
  {
  }

  lemma InverseBack(iscale: real, v: real)
    requires iscale != 0.0
    ensures Mul(Mul(iscale, v), Step(iscale)) == v
  {
    var d := 1.0 / iscale;
    assert d * iscale == 1.0;
    assert iscale * v * d == v * (d * iscale);
  }

  lemma BlockKStep(s: seq<real>)
    requires |s| == 256 && MaxAbs(s, 256) != 0.0
    ensures Peak(s, 256) != 0.0 && IScale(Peak(s, 256)) != 0.0
    ensures var c := IScale(Peak(s, 256)); BlockK(s).d == Step(c) && BlockK(s).qs == QuantsK(s, c)
  {
    hide QuantK;
    PeakIsMax(s, 256);
    ScaleNonzero(Peak(s, 256));
  }

  /** Every value of every block, against the scale the block stores: off by at most one
      step, and exact where all values are zero. */
  lemma BlockKError(s: seq<real>, i: nat)
    requires |s| == 256 && i < 256
    ensures var b := BlockK(s); |b.qs| == 256 && Abs((b.qs[i] as real) * b.d - s[i]) <= Abs(b.d)
  {
    hide BlockK, Abs, MaxAbs;
    if MaxAbs(s, 256) == 0.0 {
      ZeroError(s, i);
    } else {
      ScaledError(s, i);
    }
  }

  lemma ZeroError(s: seq<real>, i: nat)
    requires |s| == 256 && i < 256 && MaxAbs(s, 256) == 0.0
    ensures var b := BlockK(s); |b.qs| == 256 && Abs((b.qs[i] as real) * b.d - s[i]) <= Abs(b.d)
  {
    hide BlockK, Abs, MaxAbs;
    MaxAbsBounds(s, 256);
    ZeroBlock(s);
    NoValue(s[i], 0, 0.0);
    NoStep();
  }

  lemma ScaledError(s: seq<real>, i: nat)
    requires |s| == 256 && i < 256 && MaxAbs(s, 256) != 0.0
    ensures var b := BlockK(s); |b.qs| == 256 && Abs((b.qs[i] as real) * b.d - s[i]) <= Abs(b.d)
  {
    hide QuantK, Abs, IScale, Step, DequantK, BlockK, MaxAbs, Peak;
    MaxAbsBounds(s, 256);
    BlockKStep(s);
    PeakIsMax(s, 256);
    var c := IScale(Peak(s, 256));
    QuantKError(s[i], Peak(s, 256));
    DequantIs(QuantK(s[i], c), c);
  }

  lemma ZeroBlock(s: seq<real>)
    requires |s| == 256 && MaxAbs(s, 256) == 0.0
    ensures BlockK(s).d == 0.0 && |BlockK(s).qs| == 256 && forall i | 0 <= i < 256 :: BlockK(s).qs[i] == 0
  {
  }

  lemma NoStep()
    ensures Abs(0.0) == 0.0
  {
  }

  lemma DequantIs(q: int, c: real)
    requires c != 0.0
    ensures DequantK(q, c) == (q as real) * Step(c)
  {
  }

  /** The distance of a scaled value from its quant. */
  lemma HalfAway(y: real, q: int)
    requires Abs(y) <= 128.0 && q == (if Nearest(y) < 127 then Nearest(y) else 127)
    ensures Abs(q as real - y) <= 0.5 <==> y <= 127.5
  {
    hide Nearest;
    NearestClose(y);
  }

  /** The error is within half a step exactly for values that the scale takes to at
      most 127.5: values near the largest magnitude, of the other sign, are cut. */
  lemma HalfStepIff(v: real, p: real)
    requires p != 0.0 && Abs(v) <= Abs(p)
    ensures IScale(p) != 0.0
    ensures Abs(DequantK(QuantK(v, IScale(p)), IScale(p)) - v) <= 0.5 * Abs(Step(IScale(p))) <==> v / p >= -255.0 / 256.0
  {
    hide Nearest, QuantK, Mul, IScale, Abs, DequantK, Step;
    ScaleNonzero(p);
    QuantKRange(v, p);
    Scaled128(v, p);
    var c := IScale(p);
    HalfAway(Mul(c, v), QuantK(v, c));
    StepErrorIs(QuantK(v, c), c, v);
    StepPositive(c);
    LessTimes(Abs(QuantK(v, c) as real - Mul(c, v)), 0.5, Abs(Step(c)));
    RatioIs(v, p);
  }

  lemma StepErrorIs(q: int, c: real, v: real)
    requires c != 0.0
    ensures Abs(DequantK(q, c) - v) == Mul(Abs(q as real - Mul(c, v)), Abs(Step(c)))
  {
    hide Mul, Step, Abs;
    InverseBack(c, v);
    MulMinus(q as real, Mul(c, v), Step(c));
    AbsMul(q as real - Mul(c, v), Step(c));
  }

  lemma StepPositive(c: real)
    requires c != 0.0
    ensures Abs(Step(c)) > 0.0
  {
  }

  lemma LessTimes(a: real, b: real, d: real)
    requires d > 0.0
    ensures Mul(a, d) <= b * d <==> a <= b
  {
    if a <= b {
      RealMono(a, b, d);
    } else {
      Strict(a, b, d);
    }
  }

  lemma Strict(a: real, b: real, d: real)
    requires d > 0.0 && a > b
    ensures Mul(a, d) > b * d
  {
    assert (a - b) * d > 0.0;
  }

  lemma RatioIs(v: real, p: real)
    requires p != 0.0
    ensures Mul(IScale(p), v) == -128.0 * (v / p)
  {
    assert (-128.0 / p) * v == -128.0 * (v / p);
  }

  /** The other end of the scale is a whole step away. */
  lemma OppositePeak(p: real)
    requires p != 0.0
    ensures IScale(p) != 0.0 && QuantK(-p, IScale(p)) == 127
    ensures Abs(DequantK(127, IScale(p)) - (-p)) == Abs(Step(IScale(p)))
  {
    hide Nearest, Mul, IScale, Abs, DequantK, Step;
    ScaleNonzero(p);
    NegMul(IScale(p), p);
    AbsNeg(p);
    QuantKRange(-p, p);
    NearestTop();
    StepErrorIs(127, IScale(p), -p);
    OneMul(Abs(Step(IScale(p))));
    AbsOne();
  }

  lemma AbsNeg(p: real)
    ensures Abs(-p) == Abs(p)
  {
  }

  lemma AbsOne()
    ensures Abs(127.0 - 128.0) == 1.0
  {
  }

  lemma NearestTop()
    ensures Nearest(128.0) == 128
  {
  }

  /** The first value of largest magnitude is stored as -128 and comes back as it was. */
  lemma PeakExact(s: seq<real>, i: nat)
    requires |s| == 256 && i < 256 && MaxAbs(s, 256) != 0.0 && s[i] == Peak(s, 256)
    ensures BlockK(s).qs[i] == -128 && -128.0 * BlockK(s).d == s[i]
  {
    hide BlockK, IScale, Abs, QuantK, Nearest, Mul, Step;
    BlockKStep(s);
    var p := Peak(s, 256);
    var c := IScale(p);
    ScaleNonzero(p);
    QuantKRange(p, p);
    NearestWhole();
    InverseBack(c, p);
    MulIs(-128.0, Step(c));
  }

  lemma NearestWhole()
    ensures Nearest(-128.0) == -128
  {
  }

  lemma MulIs(a: real, b: real)
    ensures Mul(a, b) == a * b
  {
  }

  /** Quantize every block of 256. */
  method QuantizeQ8K(src: seq<real>, out: array<BlockQ8K>)
    requires |src| == out.Length * 256
    modifies out
    ensures forall i | 0 <= i < out.Length ::
      out[i] == BlockK(src[i * 256..i * 256 + 256]) && ValidQ8K(out[i]) && ExactSums(out[i])
  {
    hide BlockK, ValidQ8K, ExactSums;
    var i := 0;
    while i < out.Length
      invariant 0 <= i <= out.Length
      invariant forall k | 0 <= k < i :: out[k] == BlockK(src[k * 256..k * 256 + 256])
    {
      var b := QuantizeBlockK(src[i * 256..i * 256 + 256]);
      out[i] := b;
      i := i + 1;
    }
    forall k | 0 <= k < out.Length ensures ValidQ8K(out[k]) && ExactSums(out[k]) {
      BlockKExact(src[k * 256..k * 256 + 256]);
    }
  }

  method QuantizeBlockK(chunk: seq<real>) returns (b: BlockQ8K)
    requires |chunk| == 256
    ensures b == BlockK(chunk)
  {
    hide QuantK, Abs, Sum, I16, Wrap16;
    var amax, max := 0.0, 0.0;
    var i := 0;
    while i < 256
      invariant 0 <= i <= 256 && amax == MaxAbs(chunk, i) && max == Peak(chunk, i)
    {
      if Abs(chunk[i]) > amax {
        amax := Abs(chunk[i]);
        max := chunk[i];
      }
      i := i + 1;
    }
    if amax == 0.0 {
      return BlockQ8K(0.0, Splat(256, 0), Splat(16, 0));
    }
    PeakNonzero(chunk);
    ScaleNonzero(max);
    var iscale := IScale(max);
    var qs: seq<int> := [];
    i := 0;
    while i < 256
      invariant 0 <= i <= 256 && qs == QuantsK(chunk, iscale)[..i]
    {
      qs := qs + [QuantK(chunk[i], iscale)];
      i := i + 1;
    }
    assert qs == QuantsK(chunk, iscale);
    var bsums := GroupLoop(chunk, qs);
    b := BlockQ8K(1.0 / iscale, qs, bsums);
  }

  lemma PeakNonzero(s: seq<real>)
    requires |s| == 256 && MaxAbs(s, 256) != 0.0
    ensures Peak(s, 256) != 0.0
  {
    PeakIsMax(s, 256);
  }

  /** The sums of sixteen, cast to 16 bits. */
  method GroupLoop(ghost chunk: seq<real>, qs: seq<int>) returns (bsums: seq<int>)
    requires |chunk| == 256 && |qs| == 256 && MaxAbs(chunk, 256) != 0.0 && Peak(chunk, 256) != 0.0
    requires qs == QuantsK(chunk, IScale(Peak(chunk, 256)))
    ensures bsums == GroupTotals(qs)
  {
    hide QuantK, Sum, Abs;
    bsums := [];
    BlockKExact(chunk);
    var j := 0;
    while j < 16
      invariant 0 <= j <= 16 && bsums == GroupTotals(qs)[..j]
    {
      var s := 0;
      var k := 0;
      ghost var group := qs[j * 16..j * 16 + 16];
      NoSum(group);
      while k < 16
        invariant 0 <= k <= 16 && s == Sum(group[..k])
      {
        Avx2.SumStep(group, k);
        s := s + qs[j * 16 + k];
        k := k + 1;
      }
      assert group[..16] == group;
      assert BlockK(chunk).bsums[j] == Sum(group);
      bsums := bsums + [Wrap16(s)];
      j := j + 1;
    }
  }

  lemma NoSum(s: seq<int>)
    ensures Sum(s[..0]) == 0
  {
  }
}
