/** SIMD lanes as sequences of integers, with the saturation and wrap-around of
    the instructions, and the sums they are used for. Each instruction has a lemma
    that gives its exact result for operands within stated bounds. */
module Lanes {
  import opened Wire

  predicate I8(x: int) { -128 <= x <= 127 }
  predicate I16(x: int) { -32768 <= x <= 32767 }
  predicate I32(x: int) { -0x8000_0000 <= x <= 0x7fff_ffff }

  /** Saturation to 16 bits. */
  function Sat16(x: int): (r: int)
    ensures I16(r) && (I16(x) ==> r == x)
  {
    if x < -32768 then -32768 else if x > 32767 then 32767 else x
  }

  /** Two's-complement wrap-around at each width. */
  function Wrap8(x: int): (r: int)
    ensures I8(r) && (I8(x) ==> r == x)
  {
    (x + 128) % 256 - 128
  }

  function Wrap16(x: int): (r: int)
    ensures I16(r) && (I16(x) ==> r == x)
  {
    (x + 32768) % 65536 - 32768
  }

  function Wrap32(x: int): (r: int)
    ensures I32(r) && (I32(x) ==> r == x)
  {
    (x + 0x8000_0000) % 0x1_0000_0000 - 0x8000_0000
  }

  // ---- Sums ---------------------------------------------------------------------------

  function Sum(s: seq<int>): int {
    if s == [] then 0 else s[0] + Sum(s[1..])
  }

  lemma {:induction false} SumAppend(s: seq<int>, t: seq<int>)
    ensures Sum(s + t) == Sum(s) + Sum(t)
  {
    if s == [] {
      assert s + t == t;
    } else {
      assert (s + t)[1..] == s[1..] + t;
      SumAppend(s[1..], t);
    }
  }

  function Products(a: seq<int>, b: seq<int>): (p: seq<int>)
    requires |a| == |b|
    ensures |p| == |a| && forall i | 0 <= i < |a| :: p[i] == a[i] * b[i]
  {
    seq(|a|, i requires 0 <= i < |a| => a[i] * b[i])
  }

  /** The scalar kernels' integer dot. */
  function Dot(a: seq<int>, b: seq<int>): int
    requires |a| == |b|
  {
    Sum(Products(a, b))
  }

  /** Sums of neighbours. */
  function PairSums(s: seq<int>): (p: seq<int>)
    requires |s| % 2 == 0
    ensures |p| == |s| / 2 && forall i | 0 <= i < |p| :: p[i] == s[2 * i] + s[2 * i + 1]
  {
    seq(|s| / 2, i requires 0 <= i < |s| / 2 => s[2 * i] + s[2 * i + 1])
  }

  lemma {:induction false} PairSumsTotal(s: seq<int>)
    requires |s| % 2 == 0
    ensures Sum(PairSums(s)) == Sum(s)
    decreases |s|
  {
    if s != [] {
      PairSumsTotal(s[2..]);
      assert PairSums(s)[1..] == PairSums(s[2..]);
      assert s[1..][1..] == s[2..];
    }
  }

  function Scaled(c: int, s: seq<int>): (p: seq<int>)
    ensures |p| == |s| && forall i | 0 <= i < |s| :: p[i] == c * s[i]
  {
    seq(|s|, i requires 0 <= i < |s| => c * s[i])
  }

  lemma {:induction false} ScaledTotal(c: int, s: seq<int>)
    ensures Sum(Scaled(c, s)) == c * Sum(s)
    decreases |s|
  {
    if s != [] {
      ScaledTotal(c, s[1..]);
      assert Scaled(c, s)[1..] == Scaled(c, s[1..]);
      Distribute(c, s[0], Sum(s[1..]));
    }
  }

  lemma Distribute(c: int, x: int, y: int)
    ensures c * (x + y) == c * x + c * y
  {
  }

  function Added(s: seq<int>, t: seq<int>): (p: seq<int>)
    requires |s| == |t|
    ensures |p| == |s| && forall i | 0 <= i < |s| :: p[i] == s[i] + t[i]
  {
    seq(|s|, i requires 0 <= i < |s| => s[i] + t[i])
  }

  lemma {:induction false} AddedTotal(s: seq<int>, t: seq<int>)
    requires |s| == |t|
    ensures Sum(Added(s, t)) == Sum(s) + Sum(t)
    decreases |s|
  {
    if s != [] {
      AddedTotal(s[1..], t[1..]);
      assert Added(s, t)[1..] == Added(s[1..], t[1..]);
    }
  }

  // ---- Bounds --------------------------------------------------------------------------

  ghost predicate Within(s: seq<int>, bound: int) {
    forall i | 0 <= i < |s| :: -bound <= s[i] <= bound
  }

  lemma WithinAt(s: seq<int>, bound: int, i: nat)
    requires Within(s, bound) && i < |s|
    ensures -bound <= s[i] <= bound
  {
  }

  lemma ProductWithin(a: int, b: int, m: int, n: int)
    requires -m <= a <= m && -n <= b <= n
    ensures -(m * n) <= a * b <= m * n
  {
    var x, y := if a < 0 then -a else a, if b < 0 then -b else b;
    Mono(x, m, y);
    Mono(y, n, m);
    assert x * y <= m * y <= m * n;
    assert a * b == x * y || a * b == -(x * y);
  }

  lemma Mono(a: nat, b: nat, k: nat)
    requires a <= b
    ensures a * k <= b * k && k * a <= k * b
  {
  }

  lemma ProductsWithin(a: seq<int>, b: seq<int>, m: int, n: int)
    requires |a| == |b| && Within(a, m) && Within(b, n)
    ensures Within(Products(a, b), m * n)
  {
    forall i | 0 <= i < |a| ensures -(m * n) <= Products(a, b)[i] <= m * n {
      ProductWithin(a[i], b[i], m, n);
    }
  }

  lemma PairSumsWithin(s: seq<int>, m: int)
    requires |s| % 2 == 0 && Within(s, m)
    ensures Within(PairSums(s), 2 * m)
  {
  }

  // ---- x86 instructions on 256-bit registers ----------------------------------------------

  /** `maddubs`: unsigned times signed bytes, neighbours added with saturation. */
  function Maddubs(a: seq<int>, b: seq<int>): (r: seq<int>)
    requires |a| == |b| == 32
    ensures |r| == 16
  {
    seq(16, i requires 0 <= i < 16 => Sat16(a[2 * i] * b[2 * i] + a[2 * i + 1] * b[2 * i + 1]))
  }

  /** `madd`: 16-bit products, neighbours added, 32-bit results. */
  function Madd(a: seq<int>, b: seq<int>): (r: seq<int>)
    requires |a| == |b| == 16
    ensures |r| == 8
  {
    seq(8, i requires 0 <= i < 8 => Wrap32(a[2 * i] * b[2 * i] + a[2 * i + 1] * b[2 * i + 1]))
  }

  function Add32(a: seq<int>, b: seq<int>): (r: seq<int>)
    requires |a| == |b| == 8
    ensures |r| == 8
  {
    seq(8, i requires 0 <= i < 8 => Wrap32(a[i] + b[i]))
  }

  function Sub16(a: seq<int>, b: seq<int>): (r: seq<int>)
    requires |a| == |b| == 16
    ensures |r| == 16
  {
    seq(16, i requires 0 <= i < 16 => Wrap16(a[i] - b[i]))
  }

  /** `sign`: the negation of the most negative byte wraps to itself. */
  function Sign8(a: seq<int>, b: seq<int>): (r: seq<int>)
    requires |a| == |b| == 32
    ensures |r| == 32
  {
    seq(32, i requires 0 <= i < 32 => if b[i] < 0 then Wrap8(-a[i]) else if b[i] == 0 then 0 else a[i])
  }

  function Splat(n: nat, x: int): (r: seq<int>)
    ensures |r| == n && forall i | 0 <= i < n :: r[i] == x
  {
    seq(n, _ => x)
  }

  function ZeroLanes(): (r: seq<int>)
    ensures |r| == 8
  {
    Splat(8, 0)
  }

  lemma ZeroTotal()
    ensures Sum(ZeroLanes()) == 0
  {
    assert Scaled(0, ZeroLanes()) == ZeroLanes();
    ScaledTotal(0, ZeroLanes());
  }

  /** Without overflow `maddubs` is exact. */
  lemma MaddubsExact(a: seq<int>, b: seq<int>, m: nat, n: nat)
    requires |a| == |b| == 32 && Within(a, m) && Within(b, n) && 2 * (m * n) <= 32767
    ensures Maddubs(a, b) == PairSums(Products(a, b)) && Within(Maddubs(a, b), 2 * (m * n))
  {
    ProductsWithin(a, b, m, n);
    PairSumsWithin(Products(a, b), m * n);
    var p := PairSums(Products(a, b));
    forall i | 0 <= i < 16 ensures Maddubs(a, b)[i] == p[i] {
      assert p[i] == Products(a, b)[2 * i] + Products(a, b)[2 * i + 1];
      assert -32767 <= p[i] <= 32767;
    }
  }

  lemma MaddExact(a: seq<int>, b: seq<int>, m: nat, n: nat)
    requires |a| == |b| == 16 && Within(a, m) && Within(b, n) && 2 * (m * n) <= 0x7fff_ffff
    ensures Madd(a, b) == PairSums(Products(a, b)) && Within(Madd(a, b), 2 * (m * n))
  {
    ProductsWithin(a, b, m, n);
    PairSumsWithin(Products(a, b), m * n);
    var p := PairSums(Products(a, b));
    forall i | 0 <= i < 8 ensures Madd(a, b)[i] == p[i] {
      assert p[i] == Products(a, b)[2 * i] + Products(a, b)[2 * i + 1];
      assert -0x7fff_ffff <= p[i] <= 0x7fff_ffff;
    }
  }

  lemma Add32Exact(a: seq<int>, b: seq<int>, m: nat, n: nat)
    requires |a| == |b| == 8 && Within(a, m) && Within(b, n) && m + n <= 0x7fff_ffff
    ensures Add32(a, b) == Added(a, b) && Within(Add32(a, b), m + n) && Sum(Add32(a, b)) == Sum(a) + Sum(b)
  {
    hide Sum;
    var r := Add32(a, b);
    forall i | 0 <= i < 8 ensures r[i] == a[i] + b[i] && -(m + n) <= r[i] <= m + n {
      WithinAt(a, m, i);
      WithinAt(b, n, i);
    }
    AddedTotal(a, b);
  }

  /** Bytes as 16-bit lanes shifted right: bits cross from the upper byte into the
      lower one. */
  function Srli16(v: seq<int>, n: nat): (r: seq<int>)
    requires |v| == 32 && 1 <= n <= 8
    ensures |r| == 32
  {
    seq(32, i requires 0 <= i < 32 =>
      if i % 2 == 0 then (v[i] + 256 * v[i + 1]) / Power(n) % 256 else (v[i - 1] + 256 * v[i]) / Power(n) / 256)
  }

  /** Lanes shifted left by four, as 16-bit units. */
  function Slli16By4(v: seq<int>): (r: seq<int>)
    requires |v| == 32
    ensures |r| == 32
  {
    seq(32, i requires 0 <= i < 32 =>
      if i % 2 == 0 then (v[i] + 256 * v[i + 1]) * 16 % 65536 % 256 else (v[i - 1] + 256 * v[i]) * 16 % 65536 / 256)
  }

  function Power(n: nat): (p: nat)
    requires n <= 8
    ensures p > 0
  {
    if n == 0 then 1 else if n == 1 then 2 else if n == 2 then 4 else if n == 3 then 8 else if n == 4 then 16
    else if n == 5 then 32 else if n == 6 then 64 else if n == 7 then 128 else 256
  }

  /** `and` with a byte mask of low ones, one more than which is `m`. */
  function AndLow(v: seq<int>, m: nat): (r: seq<int>)
    requires |v| == 32 && m > 0
    ensures |r| == 32
  {
    seq(32, i requires 0 <= i < 32 => v[i] % m)
  }

  /** `or` of bytes whose bits do not meet. */
  function OrApart(a: seq<int>, b: seq<int>): (r: seq<int>)
    requires |a| == |b| == 32
    ensures |r| == 32
  {
    seq(32, i requires 0 <= i < 32 => a[i] + b[i])
  }

  ghost predicate BytesOk(v: seq<int>) {
    forall i | 0 <= i < |v| :: 0 <= v[i] < 256
  }

  /** Shifting 16-bit lanes and masking what crossed over is shifting each byte. */
  lemma ShiftMask(v: seq<int>, n: nat, m: nat)
    requires |v| == 32 && BytesOk(v) && (n == 2 || n == 4 || n == 6) && (m == 4 || m == 16) && Power(n) * m <= 256
    ensures AndLow(Srli16(v, n), m) == seq(32, i requires 0 <= i < 32 => v[i] / Power(n) % m)
  {
    forall i | 0 <= i < 32 ensures AndLow(Srli16(v, n), m)[i] == v[i] / Power(n) % m {
      if i % 2 == 0 {
        LowShift(v[i], v[i + 1], n, m);
      } else {
        HighShift(v[i - 1], v[i], n);
      }
    }
  }

  lemma LowShift(lo: int, hi: int, n: nat, m: nat)
    requires 0 <= lo < 256 && 0 <= hi < 256 && (n == 2 || n == 4 || n == 6) && (m == 4 || m == 16) && Power(n) * m <= 256
    ensures (lo + 256 * hi) / Power(n) % 256 % m == lo / Power(n) % m
  {
    if n == 2 {
      Digit4(lo / 4, hi);
      assert (lo + 256 * hi) / 4 == lo / 4 + 64 * hi;
    } else if n == 4 {
      Digit16(lo / 16, hi);
      assert (lo + 256 * hi) / 16 == lo / 16 + 16 * hi;
    } else {
      Digit64(lo / 64, hi);
      assert (lo + 256 * hi) / 64 == lo / 64 + 4 * hi;
    }
  }

  lemma Digit4(q: nat, hi: nat)
    requires q < 64
    ensures (q + 64 * hi) % 256 % 4 == q % 4 && (q + 64 * hi) % 256 % 16 == q % 16
  {
    KeepDigit(q, hi % 4, hi / 4, 64);
    assert q + 64 * hi == (q + 64 * (hi % 4)) + 256 * (hi / 4);
    assert (q + 64 * hi) % 256 == q + 64 * (hi % 4);
  }

  lemma KeepDigit(q: nat, r: nat, h: nat, step: nat)
    requires step == 64 && q < 64 && r < 4
    ensures (q + 64 * r) % 4 == q % 4 && (q + 64 * r) % 16 == q % 16
  {
    assert q + 64 * r == q + 4 * (16 * r) && q + 64 * r == q + 16 * (4 * r);
  }

  lemma Digit16(q: nat, hi: nat)
    requires q < 16
    ensures (q + 16 * hi) % 256 % 4 == q % 4 && (q + 16 * hi) % 256 % 16 == q % 16
  {
    LowByte16(q, hi % 16, hi / 16);
    LowNibble(q, hi % 16);
  }

  lemma LowByte16(q: nat, r: nat, h: nat)
    requires q < 16 && r < 16
    ensures (q + 16 * (r + 16 * h)) % 256 == q + 16 * r
  {
    assert q + 16 * (r + 16 * h) == (q + 16 * r) + 256 * h;
  }

  lemma LowNibble(q: nat, r: nat)
    requires q < 16 && r < 16
    ensures (q + 16 * r) % 16 == q && (q + 16 * r) % 4 == q % 4
  {
    assert q + 16 * r == q + 4 * (4 * r);
  }

  lemma Digit64(q: nat, hi: nat)
    requires q < 4
    ensures (q + 4 * hi) % 256 % 4 == q % 4
  {
  }

  lemma HighShift(lo: int, hi: int, n: nat)
    requires 0 <= lo < 256 && 0 <= hi < 256 && (n == 2 || n == 4 || n == 6)
    ensures (lo + 256 * hi) / Power(n) / 256 == hi / Power(n)
  {
  }

  /** Two bits moved up four places stay inside their byte. */
  lemma LiftTwo(v: seq<int>)
    requires |v| == 32 && forall i | 0 <= i < 32 :: 0 <= v[i] < 4
    ensures Slli16By4(v) == seq(32, i requires 0 <= i < 32 => 16 * v[i])
  {
    forall i | 0 <= i < 32 ensures Slli16By4(v)[i] == 16 * v[i] {
      if i % 2 == 0 {
        LiftPair(v[i], v[i + 1]);
      } else {
        LiftPair(v[i - 1], v[i]);
      }
    }
  }

  lemma LiftPair(lo: int, hi: int)
    requires 0 <= lo < 4 && 0 <= hi < 4
    ensures (lo + 256 * hi) * 16 % 65536 % 256 == 16 * lo && (lo + 256 * hi) * 16 % 65536 / 256 == 16 * hi
  {
  }

  // ---- NEON instructions on 128-bit registers ------------------------------------------------

  /** `vmull_s8` on the half starting at `from`. */
  function Mull8(a: seq<int>, b: seq<int>, from: nat): (r: seq<int>)
    requires |a| == |b| == 16 && (from == 0 || from == 8)
    ensures |r| == 8
  {
    seq(8, i requires 0 <= i < 8 => Wrap16(a[from + i] * b[from + i]))
  }

  /** `vpadalq_s16`: add neighbouring 16-bit lanes into 32-bit ones. */
  function Padal(acc: seq<int>, p: seq<int>): (r: seq<int>)
    requires |acc| == 4 && |p| == 8
    ensures |r| == 4
  {
    seq(4, i requires 0 <= i < 4 => Wrap32(acc[i] + p[2 * i] + p[2 * i + 1]))
  }

  /** `sdot`: four products into each 32-bit lane. */
  function Sdot(acc: seq<int>, a: seq<int>, b: seq<int>): (r: seq<int>)
    requires |acc| == 4 && |a| == |b| == 16
    ensures |r| == 4
  {
    seq(4, i requires 0 <= i < 4 => Wrap32(acc[i] + Sum(Products(a[4 * i..4 * i + 4], b[4 * i..4 * i + 4]))))
  }

  /** `vaddvq_s32`. */
  function Addv(v: seq<int>): int
    requires |v| == 4
  {
    Wrap32(v[0] + v[1] + v[2] + v[3])
  }
}
