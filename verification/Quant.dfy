/** The quantized block formats over exact reals: a dot is the dot of the
    dequantized vectors. */
module Quant {
  import opened Wire
  import opened Lanes

  /** 32 signed bytes with one scale. */
  datatype BlockQ8 = BlockQ8(d: real, qs: seq<int>)
  /** 256 weights: two super-scales, packed 6-bit scales and minimums, nibbles. */
  datatype BlockQ4K = BlockQ4K(d: real, dmin: real, scales: seq<bv8>, qs: Bytes)
  /** 256 weights: low nibbles, two high bits, 16 signed scales. */
  datatype BlockQ6K = BlockQ6K(ql: Bytes, qh: Bytes, scales: seq<int>, d: real)
  /** 256 activations with sums of each sixteen. */
  datatype BlockQ8K = BlockQ8K(d: real, qs: seq<int>, bsums: seq<int>)

  ghost predicate Signed(s: seq<int>) {
    forall i | 0 <= i < |s| :: I8(s[i])
  }

  ghost predicate ValidQ8(b: BlockQ8) { |b.qs| == 32 && Signed(b.qs) }
  predicate ValidQ4K(b: BlockQ4K) { |b.scales| == 12 && |b.qs| == 128 }
  ghost predicate ValidQ6K(b: BlockQ6K) { |b.ql| == 128 && |b.qh| == 64 && |b.scales| == 16 && Signed(b.scales) }
  ghost predicate ValidQ8K(b: BlockQ8K) { |b.qs| == 256 && Signed(b.qs) && |b.bsums| == 16 && forall i | 0 <= i < 16 :: I16(b.bsums[i]) }

  /** The sums are what they are named for. */
  ghost predicate ExactSums(b: BlockQ8K) {
    |b.qs| == 256 && |b.bsums| == 16 && forall g | 0 <= g < 16 :: b.bsums[g] == Sum(b.qs[g * 16..g * 16 + 16])
  }

  // ---- 6-bit scales and minimums -------------------------------------------------------

  /** The j-th (scale, minimum) pair. */
  function ScaleMin(scales: seq<bv8>, j: nat): (bv8, bv8)
    requires |scales| == 12 && j < 8
  {
    if j < 4 then (scales[j] & 63, scales[j + 4] & 63)
    else
      ((scales[j + 4] & 0x0F) | ((scales[j - 4] >> 6) << 4),
       (scales[j + 4] >> 4) | ((scales[j] >> 6) << 4))
  }

  /** Byte `i` of the reference quantizer's packing. */
  function PackByte(s: seq<bv8>, m: seq<bv8>, i: nat): bv8
    requires |s| == |m| == 8 && i < 12
  {
    if i < 4 then (s[i] & 63) | ((s[i + 4] >> 4) << 6)
    else if i < 8 then (m[i - 4] & 63) | ((m[i] >> 4) << 6)
    else (s[i - 4] & 0x0F) | ((m[i - 4] & 0x0F) << 4)
  }

  function PackScales(s: seq<bv8>, m: seq<bv8>): (p: seq<bv8>)
    requires |s| == |m| == 8
    ensures |p| == 12
  {
    seq(12, i requires 0 <= i < 12 => PackByte(s, m, i))
  }

  predicate SixBit(x: bv8) { x >> 6 == 0 }

  lemma LowSix(a: bv8, b: bv8)
    requires SixBit(a) && SixBit(b)
    ensures ((a & 63) | ((b >> 4) << 6)) & 63 == a
    ensures ((a & 63) | ((b >> 4) << 6)) >> 6 == b >> 4
  {
  }

  lemma Nibbles(s: bv8, m: bv8)
    requires SixBit(s) && SixBit(m)
    ensures (((s & 0x0F) | ((m & 0x0F) << 4)) & 0x0F) | ((s >> 4) << 4) == s
    ensures (((s & 0x0F) | ((m & 0x0F) << 4)) >> 4) | ((m >> 4) << 4) == m
  {
  }

  /** Unpacking inverts packing. */
  lemma UnpackPacked(s: seq<bv8>, m: seq<bv8>, j: nat)
    requires |s| == |m| == 8 && j < 8 && forall i | 0 <= i < 8 :: SixBit(s[i]) && SixBit(m[i])
    ensures ScaleMin(PackScales(s, m), j) == (s[j], m[j])
  {
    if j < 4 {
      LowSix(s[j], s[j + 4]);
      LowSix(m[j], m[j + 4]);
    } else {
      LowSix(s[j - 4], s[j]);
      LowSix(m[j - 4], m[j]);
      Nibbles(s[j], m[j]);
    }
  }

  lemma Rejoin(a: bv8, c: bv8)
    ensures (a & 63) | ((((c & 0x0F) | ((a >> 6) << 4)) >> 4) << 6) == a
    ensures (a & 63) | ((((c >> 4) | ((a >> 6) << 4)) >> 4) << 6) == a
  {
  }

  lemma RejoinLow(a: bv8, b: bv8, c: bv8)
    ensures (((c & 0x0F) | ((a >> 6) << 4)) & 0x0F) | ((((c >> 4) | ((b >> 6) << 4)) & 0x0F) << 4) == c
  {
  }

  /** Packing inverts unpacking: every 12 bytes encode some eight pairs. */
  lemma PackUnpacked(p: seq<bv8>, s: seq<bv8>, m: seq<bv8>)
    requires |p| == 12 && |s| == |m| == 8 && forall j | 0 <= j < 8 :: (s[j], m[j]) == ScaleMin(p, j)
    ensures PackScales(s, m) == p
  {
    forall i | 0 <= i < 12 ensures PackScales(s, m)[i] == p[i] {
      if i < 4 {
        assert (s[i + 4], m[i + 4]) == ScaleMin(p, i + 4) && (s[i], m[i]) == ScaleMin(p, i);
        Rejoin(p[i], p[i + 8]);
        MaskTwice(p[i]);
      } else if i < 8 {
        assert (s[i], m[i]) == ScaleMin(p, i) && (s[i - 4], m[i - 4]) == ScaleMin(p, i - 4);
        Rejoin(p[i], p[i + 4]);
        MaskTwice(p[i]);
      } else {
        assert (s[i - 4], m[i - 4]) == ScaleMin(p, i - 4);
        RejoinLow(p[i - 8], p[i - 4], p[i]);
      }
    }
  }

  lemma MaskTwice(a: bv8)
    ensures (a & 63) & 63 == a & 63
  {
  }

  lemma SixBitScales(scales: seq<bv8>, j: nat)
    requires |scales| == 12 && j < 8
    ensures SixBit(ScaleMin(scales, j).0) && SixBit(ScaleMin(scales, j).1)
  {
    SixBits(scales[j], scales[j + 4], if j < 4 then 0 else scales[j - 4]);
  }

  lemma SixBits(a: bv8, b: bv8, c: bv8)
    ensures SixBit(a & 63) && SixBit(b & 63) && SixBit((b & 0x0F) | ((c >> 6) << 4)) && SixBit((b >> 4) | ((a >> 6) << 4))
  {
  }

  /** A byte as a number. */
  function Num(x: bv8): (n: nat)
    ensures n < 256
  {
    x as nat
  }

  lemma SixBitNum(x: bv8)
    requires SixBit(x)
    ensures Num(x) < 64
  {
  }

  function Scale(b: BlockQ4K, j: nat): nat
    requires ValidQ4K(b) && j < 8
  {
    Num(ScaleMin(b.scales, j).0)
  }

  function Minimum(b: BlockQ4K, j: nat): nat
    requires ValidQ4K(b) && j < 8
  {
    Num(ScaleMin(b.scales, j).1)
  }

  lemma ScaleBound(b: BlockQ4K, j: nat)
    requires ValidQ4K(b) && j < 8
    ensures Scale(b, j) < 64 && Minimum(b, j) < 64
  {
    hide ScaleMin, Num;
    SixBitScales(b.scales, j);
    SixBitNum(ScaleMin(b.scales, j).0);
    SixBitNum(ScaleMin(b.scales, j).1);
  }

  // ---- Quants -----------------------------------------------------------------------------

  function Nibble(b: Byte, high: bool): (n: int)
    ensures 0 <= n < 16
  {
    if high then b / 16 else b % 16
  }

  /** The 32 quants of sub-block `j`. */
  function W4(b: BlockQ4K, j: nat): (w: seq<int>)
    requires ValidQ4K(b) && j < 8
    ensures |w| == 32
  {
    seq(32, k requires 0 <= k < 32 => Nibble(b.qs[j / 2 * 32 + k], j % 2 == 1))
  }

  lemma W4Range(b: BlockQ4K, j: nat)
    requires ValidQ4K(b) && j < 8
    ensures forall k | 0 <= k < 32 :: 0 <= W4(b, j)[k] < 16
  {
    forall k | 0 <= k < 32 ensures 0 <= W4(b, j)[k] < 16 {
      NibbleRange(b.qs[j / 2 * 32 + k], j % 2 == 1);
    }
  }

  lemma NibbleRange(b: Byte, high: bool)
    ensures 0 <= Nibble(b, high) < 16
  {
  }

  function X32(x: BlockQ8K, j: nat): (s: seq<int>)
    requires ValidQ8K(x) && j < 8
    ensures |s| == 32 && Signed(s)
  {
    x.qs[j * 32..j * 32 + 32]
  }

  /** Quant `i` of a Q6_K block, before the offset of 32. */
  function Q6At(b: BlockQ6K, i: nat): (q: int)
    requires ValidQ6K(b) && i < 256
    ensures 0 <= q < 64
  {
    var half, slot, l := i / 128, i % 128 / 32, i % 32;
    Nibble(b.ql[half * 64 + slot % 2 * 32 + l], slot >= 2) + 16 * (b.qh[half * 32 + l] / Power(2 * slot) % 4)
  }

  /** The 16 offset quants of group `g`. */
  function W6(b: BlockQ6K, g: nat): (w: seq<int>)
    requires ValidQ6K(b) && g < 16
    ensures |w| == 16
  {
    seq(16, k requires 0 <= k < 16 => Q6At(b, g * 16 + k) - 32)
  }

  lemma W6Range(b: BlockQ6K, g: nat)
    requires ValidQ6K(b) && g < 16
    ensures forall k | 0 <= k < 16 :: -32 <= W6(b, g)[k] < 32
  {
    forall k | 0 <= k < 16 ensures -32 <= W6(b, g)[k] < 32 {
      Q6Range(b, g * 16 + k);
    }
  }

  lemma Q6Range(b: BlockQ6K, i: nat)
    requires ValidQ6K(b) && i < 256
    ensures 0 <= Q6At(b, i) < 64
  {
  }

  function X16(x: BlockQ8K, g: nat): (s: seq<int>)
    requires ValidQ8K(x) && g < 16
    ensures |s| == 16 && Signed(s)
  {
    x.qs[g * 16..g * 16 + 16]
  }

  // ---- Packing of the Q6_K planes ------------------------------------------------------------

  function PackLow(q: seq<int>): (p: seq<int>)
    requires |q| == 256 && forall i | 0 <= i < 256 :: 0 <= q[i] < 64
    ensures |p| == 128
  {
    seq(128, n requires 0 <= n < 128 =>
      var at := n / 64 * 128 + n % 64;
      q[at] % 16 + 16 * (q[at + 64] % 16))
  }

  function PackHigh(q: seq<int>): (p: seq<int>)
    requires |q| == 256 && forall i | 0 <= i < 256 :: 0 <= q[i] < 64
    ensures |p| == 64
  {
    seq(64, n requires 0 <= n < 64 =>
      var at := n / 32 * 128 + n % 32;
      q[at] / 16 + 4 * (q[at + 32] / 16) + 16 * (q[at + 64] / 16) + 64 * (q[at + 96] / 16))
  }

  lemma PackRange(q: seq<int>)
    requires |q| == 256 && forall i | 0 <= i < 256 :: 0 <= q[i] < 64
    ensures forall n | 0 <= n < 128 :: 0 <= PackLow(q)[n] < 256
    ensures forall n | 0 <= n < 64 :: 0 <= PackHigh(q)[n] < 256
  {
  }

  lemma PlaneDigits(a: int, b: int, c: int, d: int)
    requires 0 <= a < 4 && 0 <= b < 4 && 0 <= c < 4 && 0 <= d < 4
    ensures var v := a + 4 * b + 16 * c + 64 * d;
      v % 4 == a && v / 4 % 4 == b && v / 16 % 4 == c && v / 64 % 4 == d
  {
    var v := a + 4 * b + 16 * c + 64 * d;
    assert v / 4 == b + 4 * c + 16 * d;
    assert v / 16 == c + 4 * d;
    assert v / 64 == d;
  }

  lemma LowDigits(a: int, b: int)
    requires 0 <= a < 64 && 0 <= b < 64
    ensures (a % 16 + 16 * (b % 16)) % 16 == a % 16 && (a % 16 + 16 * (b % 16)) / 16 == b % 16
  {
  }

  /** Unpacking the planes inverts packing them. */
  lemma PlanesRoundTrip(q: seq<int>, scales: seq<int>, d: real, i: nat)
    requires |q| == 256 && (forall i | 0 <= i < 256 :: 0 <= q[i] < 64) && |scales| == 16 && Signed(scales) && i < 256
    ensures (forall n | 0 <= n < 128 :: 0 <= PackLow(q)[n] < 256) && forall n | 0 <= n < 64 :: 0 <= PackHigh(q)[n] < 256
    ensures Q6At(BlockQ6K(PackLow(q), PackHigh(q), scales, d), i) == q[i]
  {
    PackRange(q);
    var half, slot, l := i / 128, i % 128 / 32, i % 32;
    assert i == half * 128 + slot * 32 + l;
    PlanePlaces(q, half, slot, l);
    PlaneBack(q, half, slot, l);
  }

  /** One plane read back. */
  lemma PlaneBack(q: seq<int>, half: nat, slot: nat, l: nat)
    requires |q| == 256 && (forall i | 0 <= i < 256 :: 0 <= q[i] < 64) && half < 2 && slot < 4 && l < 32
    ensures (forall n | 0 <= n < 128 :: 0 <= PackLow(q)[n] < 256) && forall n | 0 <= n < 64 :: 0 <= PackHigh(q)[n] < 256
    ensures Nibble(PackLow(q)[half * 64 + slot % 2 * 32 + l], slot >= 2) + 16 * (PackHigh(q)[half * 32 + l] / Power(2 * slot) % 4)
      == q[half * 128 + slot * 32 + l]
  {
    hide PackLow, PackHigh, Nibble, Power;
    PackRange(q);
    PlanePlaces(q, half, slot, l);
    var base := half * 128 + l;
    DigitBack(q[base], q[base + 32], q[base + 64], q[base + 96], slot);
    SlotIs(q, base, slot);
  }

  lemma SlotIs(q: seq<int>, base: nat, slot: nat)
    requires slot < 4 && base + 96 < |q|
    ensures q[base + slot * 32] == if slot == 0 then q[base] else if slot == 1 then q[base + 32] else if slot == 2 then q[base + 64] else q[base + 96]
    ensures q[base + slot % 2 * 32] == (if slot % 2 == 0 then q[base] else q[base + 32])
    ensures q[base + slot % 2 * 32 + 64] == (if slot % 2 == 0 then q[base + 64] else q[base + 96])
  {
  }

  /** The same on numbers: `slot` picks one of four quants. */
  lemma DigitBack(a: int, b: int, c: int, d: int, slot: nat)
    requires 0 <= a < 64 && 0 <= b < 64 && 0 <= c < 64 && 0 <= d < 64 && slot < 4
    ensures var low := if slot % 2 == 0 then a % 16 + 16 * (c % 16) else b % 16 + 16 * (d % 16);
      var high := a / 16 + 4 * (b / 16) + 16 * (c / 16) + 64 * (d / 16);
      && 0 <= low < 256
      && Nibble(low, slot >= 2) + 16 * (high / Power(2 * slot) % 4) == if slot == 0 then a else if slot == 1 then b else if slot == 2 then c else d
  {
    hide Power;
    HighPlane(a / 16, b / 16, c / 16, d / 16, slot);
    LowDigits(a, c);
    LowDigits(b, d);
  }

  lemma HighPlane(a: int, b: int, c: int, d: int, slot: nat)
    requires 0 <= a < 4 && 0 <= b < 4 && 0 <= c < 4 && 0 <= d < 4 && slot < 4
    ensures (a + 4 * b + 16 * c + 64 * d) / Power(2 * slot) % 4 == if slot == 0 then a else if slot == 1 then b else if slot == 2 then c else d
  {
    PlaneDigits(a, b, c, d);
    assert Power(0) == 1 && Power(2) == 4 && Power(4) == 16 && Power(6) == 64;
  }

  /** Where one plane reads. */
  lemma PlanePlaces(q: seq<int>, half: nat, slot: nat, l: nat)
    requires |q| == 256 && (forall i | 0 <= i < 256 :: 0 <= q[i] < 64) && half < 2 && slot < 4 && l < 32
    ensures var base := half * 128 + l; var at := base + slot % 2 * 32;
      && PackLow(q)[half * 64 + slot % 2 * 32 + l] == q[at] % 16 + 16 * (q[at + 64] % 16)
      && PackHigh(q)[half * 32 + l] == q[base] / 16 + 4 * (q[base + 32] / 16) + 16 * (q[base + 64] / 16) + 64 * (q[base + 96] / 16)
  {
    var n := half * 64 + slot % 2 * 32 + l;
    assert n / 64 == half && n % 64 == slot % 2 * 32 + l;
    assert (half * 32 + l) / 32 == half && (half * 32 + l) % 32 == l;
  }

  // ---- Real sums -----------------------------------------------------------------------------

  function RSum(s: seq<real>): real {
    if s == [] then 0.0 else s[0] + RSum(s[1..])
  }

  lemma {:induction false} RSumAppend(s: seq<real>, t: seq<real>)
    ensures RSum(s + t) == RSum(s) + RSum(t)
  {
    if s == [] {
      assert s + t == t;
    } else {
      assert (s + t)[1..] == s[1..] + t;
      RSumAppend(s[1..], t);
    }
  }

  /** The dot of two real vectors. */
  function RDot(a: seq<real>, b: seq<real>): real
    requires |a| == |b|
  {
    if a == [] then 0.0 else a[0] * b[0] + RDot(a[1..], b[1..])
  }

  lemma {:induction false} RDotAppend(a: seq<real>, b: seq<real>, a': seq<real>, b': seq<real>)
    requires |a| == |b| && |a'| == |b'|
    ensures RDot(a + a', b + b') == RDot(a, b) + RDot(a', b')
    decreases |a|
  {
    if a == [] {
      assert a + a' == a' && b + b' == b';
    } else {
      assert (a + a')[1..] == a[1..] + a' && (b + b')[1..] == b[1..] + b';
      RDotAppend(a[1..], b[1..], a', b');
    }
  }

  /** A super-scale times a small integer scale. */
  function Times(a: real, n: int): real { a * (n as real) }

  function Prod(a: int, b: int): int { a * b }

  /** The value of one quant. */
  function Level(q: int, a: real, c: real): real { a * (q as real) - c }

  /** Affine dequantization of integers. */
  function Affine(w: seq<int>, a: real, c: real): (r: seq<real>)
    ensures |r| == |w| && forall i | 0 <= i < |w| :: r[i] == Level(w[i], a, c)
  {
    seq(|w|, i requires 0 <= i < |w| => Level(w[i], a, c))
  }

  lemma AffineTail(w: seq<int>, a: real, c: real)
    requires w != []
    ensures Affine(w, a, c)[1..] == Affine(w[1..], a, c) && Affine(w, a, c)[0] == Level(w[0], a, c)
  {
    hide Level;
  }

  /** Dequantizing a slice is slicing the dequantized vector. */
  lemma AffineSlice(w: seq<int>, a: real, c: real, lo: nat, mid: nat)
    requires lo <= mid <= |w|
    ensures Affine(w, a, c)[..mid] == Affine(w, a, c)[..lo] + Affine(w[lo..mid], a, c)
  {
    hide Level;
  }

  lemma AffineTerm(a: real, w: real, c: real, d: real, x: real)
    ensures (a * w - c) * (d * x - 0.0) == d * (a * (w * x) - c * x)
  {
  }

  lemma AffineSum(a: real, c: real, d: real, p: real, q: real, x: real, y: real)
    ensures d * (a * p - c * x) + d * (a * q - c * y) == d * (a * (p + q) - c * (x + y))
  {
  }

  lemma AsReal(a: int, b: int)
    ensures (a * b) as real == (a as real) * (b as real)
  {
  }

  /** A dequantized dot from its two integer sums. */
  function Part(a: real, c: real, d: real, p: int, s: int): real { d * (a * (p as real) - c * (s as real)) }

  /** A block's value from its two integer totals. */
  function Combine(d: real, dmin: real, dx: real, p: int, s: int): real { d * dx * (p as real) - dmin * dx * (s as real) }

  /** The dot of two dequantized vectors through integer sums. */
  lemma {:induction false} AffineDot(w: seq<int>, x: seq<int>, a: real, c: real, d: real)
    requires |w| == |x|
    ensures RDot(Affine(w, a, c), Affine(x, d, 0.0)) == Part(a, c, d, Dot(w, x), Sum(x))
    decreases |w|
  {
    hide Affine, Dot, Products, Part, Level;
    if w != [] {
      AffineDot(w[1..], x[1..], a, c, d);
      AffineTail(w, a, c);
      AffineTail(x, d, 0.0);
      DotTail(w, x);
      AffineStep(w[0], x[0], a, c, d, Dot(w[1..], x[1..]), Sum(x[1..]));
    } else {
      DotNothing();
      PartNone(a, c, d);
    }
  }

  lemma PartNone(a: real, c: real, d: real)
    ensures Part(a, c, d, 0, 0) == 0.0
  {
  }

  lemma DotTail(w: seq<int>, x: seq<int>)
    requires |w| == |x| > 0
    ensures Dot(w, x) == w[0] * x[0] + Dot(w[1..], x[1..])
  {
    assert Products(w, x)[1..] == Products(w[1..], x[1..]);
  }

  lemma DotNothing()
    ensures Dot([], []) == 0
  {
  }

  lemma AffineStep(w: int, x: int, a: real, c: real, d: real, p: int, s: int)
    ensures Level(w, a, c) * Level(x, d, 0.0) + Part(a, c, d, p, s) == Part(a, c, d, w * x + p, x + s)
  {
    AffineTerm(a, w as real, c, d, x as real);
    AsReal(w, x);
    AffineSum(a, c, d, (w * x) as real, p as real, x as real, s as real);
  }

  // ---- Dequantized blocks -------------------------------------------------------------------

  function Dequant8(b: BlockQ8): (y: seq<real>)
    ensures |y| == |b.qs|
  {
    Affine(b.qs, b.d, 0.0)
  }

  function DequantX(x: BlockQ8K): seq<real> {
    Affine(x.qs, x.d, 0.0)
  }

  function SubDequant(b: BlockQ4K, j: nat): (y: seq<real>)
    requires ValidQ4K(b) && j < 8
    ensures |y| == 32
  {
    Affine(W4(b, j), Times(b.d, Scale(b, j)), Times(b.dmin, Minimum(b, j)))
  }

  function GroupDequant(b: BlockQ6K, g: nat): (y: seq<real>)
    requires ValidQ6K(b) && g < 16
    ensures |y| == 16
  {
    Affine(W6(b, g), Times(b.d, b.scales[g]), 0.0)
  }

  /** The first `n` sub-blocks of a dequantized Q4_K block. */
  function Dequant4(b: BlockQ4K, n: nat): (y: seq<real>)
    requires ValidQ4K(b) && n <= 8
    ensures |y| == 32 * n
  {
    if n == 0 then []
    else Dequant4(b, n - 1) + SubDequant(b, n - 1)
  }

  /** The first `n` groups of a dequantized Q6_K block. */
  function Dequant6(b: BlockQ6K, n: nat): (y: seq<real>)
    requires ValidQ6K(b) && n <= 16
    ensures |y| == 16 * n
  {
    if n == 0 then [] else Dequant6(b, n - 1) + GroupDequant(b, n - 1)
  }

  // ---- The scalar dots ------------------------------------------------------------------------

  function Term4(b: BlockQ4K, x: BlockQ8K, j: nat): int
    requires ValidQ4K(b) && ValidQ8K(x) && j < 8
  {
    Prod(Scale(b, j), Dot(W4(b, j), X32(x, j)))
  }

  function MinTerm4(b: BlockQ4K, x: BlockQ8K, j: nat): int
    requires ValidQ4K(b) && ValidQ8K(x) && j < 8
  {
    Prod(Minimum(b, j), x.bsums[2 * j] + x.bsums[2 * j + 1])
  }

  function Term6(b: BlockQ6K, x: BlockQ8K, g: nat): int
    requires ValidQ6K(b) && ValidQ8K(x) && g < 16
  {
    Prod(b.scales[g], Dot(W6(b, g), X16(x, g)))
  }

  /** Integer sum of the first `n` sub-blocks, each times its scale. */
  function IntSum4(b: BlockQ4K, x: BlockQ8K, n: nat): int
    requires ValidQ4K(b) && ValidQ8K(x) && n <= 8
  {
    if n == 0 then 0 else IntSum4(b, x, n - 1) + Term4(b, x, n - 1)
  }

  /** Sum of the minimums times the pair sums of the activations. */
  function MinSum4(b: BlockQ4K, x: BlockQ8K, n: nat): int
    requires ValidQ4K(b) && ValidQ8K(x) && n <= 8
  {
    if n == 0 then 0 else MinSum4(b, x, n - 1) + MinTerm4(b, x, n - 1)
  }

  lemma MinStep4(b: BlockQ4K, x: BlockQ8K, j: nat)
    requires ValidQ4K(b) && ValidQ8K(x) && j < 8
    ensures MinSum4(b, x, j + 1) == MinSum4(b, x, j) + Prod(Minimum(b, j), x.bsums[2 * j] + x.bsums[2 * j + 1])
  {
  }

  function BlockDot4(b: BlockQ4K, x: BlockQ8K): real
    requires ValidQ4K(b) && ValidQ8K(x)
  {
    Combine(b.d, b.dmin, x.d, IntSum4(b, x, 8), MinSum4(b, x, 8))
  }

  function IntSum6(b: BlockQ6K, x: BlockQ8K, n: nat): int
    requires ValidQ6K(b) && ValidQ8K(x) && n <= 16
  {
    if n == 0 then 0 else IntSum6(b, x, n - 1) + Term6(b, x, n - 1)
  }

  function BlockDot6(b: BlockQ6K, x: BlockQ8K): real
    requires ValidQ6K(b) && ValidQ8K(x)
  {
    Combine(b.d, 0.0, x.d, IntSum6(b, x, 16), 0)
  }

  lemma SubTerm(d: real, sc: real, dmin: real, m: real, dx: real, p: real, s: real, p0: real, s0: real)
    ensures (d * dx * p0 - dmin * dx * s0) + dx * (d * sc * p - dmin * m * s) ==
      d * dx * (p0 + sc * p) - dmin * dx * (s0 + m * s)
  {
  }

  /** One more sub-block: its scale and minimum multiply the integer sums. */
  lemma CombineStep(d: real, dmin: real, dx: real, sc: int, m: int, p: int, s: int, p0: int, s0: int)
    ensures Combine(d, dmin, dx, p0, s0) + Part(Times(d, sc), Times(dmin, m), dx, p, s) == Combine(d, dmin, dx, p0 + Prod(sc, p), s0 + Prod(m, s))
  {
    AsReal(sc, p);
    AsReal(m, s);
    SubTerm(d, sc as real, dmin, m as real, dx, p as real, s as real, p0 as real, s0 as real);
  }

  lemma CombineNone(d: real, dmin: real, dx: real)
    ensures Combine(d, dmin, dx, 0, 0) == 0.0
  {
  }

  /** The same without a minimum. */
  lemma CombinePlain(d: real, dx: real, sc: int, p: int, s: int, p0: int)
    ensures Combine(d, 0.0, dx, p0, 0) + Part(Times(d, sc), 0.0, dx, p, s) == Combine(d, 0.0, dx, p0 + Prod(sc, p), 0)
  {
    AsReal(sc, p);
    PlainTerm(d, sc as real, dx, p as real, s as real, p0 as real);
  }

  lemma PlainTerm(d: real, sc: real, dx: real, p: real, s: real, p0: real)
    ensures (d * dx * p0 - 0.0 * dx * 0.0) + dx * (d * sc * p - 0.0 * s) == d * dx * (p0 + sc * p) - 0.0 * dx * 0.0
  {
  }

  /** The pair of sums for sub-block `j` is the sum of its 32 activations. */
  lemma PairOfSums(x: BlockQ8K, j: nat)
    requires ValidQ8K(x) && ExactSums(x) && j < 8
    ensures x.bsums[2 * j] + x.bsums[2 * j + 1] == Sum(X32(x, j))
  {
    assert X32(x, j) == x.qs[2 * j * 16..2 * j * 16 + 16] + x.qs[(2 * j + 1) * 16..(2 * j + 1) * 16 + 16];
    SumAppend(x.qs[2 * j * 16..2 * j * 16 + 16], x.qs[(2 * j + 1) * 16..(2 * j + 1) * 16 + 16]);
  }

  lemma {:induction false} SubBlocks4(b: BlockQ4K, x: BlockQ8K, n: nat)
    requires ValidQ4K(b) && ValidQ8K(x) && ExactSums(x) && n <= 8
    ensures |DequantX(x)| == 256
    ensures RDot(Dequant4(b, n), DequantX(x)[..32 * n]) == Combine(b.d, b.dmin, x.d, IntSum4(b, x, n), MinSum4(b, x, n))
    decreases n
  {
    hide Scale, Minimum, W4, X32, ExactSums, ValidQ8K, Affine, Dot, DequantX, Combine, Part, SubDequant, GroupDequant, Term4, MinTerm4, Term6;
    XLength(x);
    if n == 0 {
      assert DequantX(x)[..0] == [];
      CombineNone(b.d, b.dmin, x.d);
    } else {
      var j := n - 1;
      SubBlocks4(b, x, j);
      SliceX(x, j);
      RDotAppend(Dequant4(b, j), DequantX(x)[..32 * j], SubDequant(b, j), Affine(X32(x, j), x.d, 0.0));
      SubStep(b, x, j, IntSum4(b, x, j), MinSum4(b, x, j));
    }
  }

  /** One more run of quants with its scale and minimum. */
  lemma StepOver(w: seq<int>, s: seq<int>, d: real, dmin: real, dx: real, sc: int, m: int, total: int, p0: int, s0: int)
    requires |w| == |s| && total == Sum(s)
    ensures Combine(d, dmin, dx, p0, s0) + RDot(Affine(w, Times(d, sc), Times(dmin, m)), Affine(s, dx, 0.0)) ==
      Combine(d, dmin, dx, p0 + Prod(sc, Dot(w, s)), s0 + Prod(m, total))
  {
    hide Part, Affine, Dot, Combine, Times, Prod;
    AffineDot(w, s, Times(d, sc), Times(dmin, m), dx);
    CombineStep(d, dmin, dx, sc, m, Dot(w, s), Sum(s), p0, s0);
  }

  lemma PlainOver(w: seq<int>, s: seq<int>, d: real, dx: real, sc: int, p0: int)
    requires |w| == |s|
    ensures Combine(d, 0.0, dx, p0, 0) + RDot(Affine(w, Times(d, sc), 0.0), Affine(s, dx, 0.0)) ==
      Combine(d, 0.0, dx, p0 + Prod(sc, Dot(w, s)), 0)
  {
    hide Part, Affine, Dot, Combine, Times, Prod;
    AffineDot(w, s, Times(d, sc), 0.0, dx);
    CombinePlain(d, dx, sc, Dot(w, s), Sum(s), p0);
  }

  lemma SubStep(b: BlockQ4K, x: BlockQ8K, j: nat, p0: int, s0: int)
    requires ValidQ4K(b) && ValidQ8K(x) && ExactSums(x) && j < 8
    ensures Combine(b.d, b.dmin, x.d, p0, s0) + RDot(SubDequant(b, j), Affine(X32(x, j), x.d, 0.0)) ==
      Combine(b.d, b.dmin, x.d, p0 + Term4(b, x, j), s0 + MinTerm4(b, x, j))
  {
    hide Affine, Dot, Combine, ExactSums, W4, Scale, Minimum, RDot, Sum, Times, Prod;
    PairOfSums(x, j);
    StepOver(W4(b, j), X32(x, j), b.d, b.dmin, x.d, Scale(b, j), Minimum(b, j), x.bsums[2 * j] + x.bsums[2 * j + 1], p0, s0);
  }

  lemma GroupStep(b: BlockQ6K, x: BlockQ8K, g: nat, p0: int)
    requires ValidQ6K(b) && ValidQ8K(x) && g < 16
    ensures Combine(b.d, 0.0, x.d, p0, 0) + RDot(GroupDequant(b, g), Affine(X16(x, g), x.d, 0.0)) ==
      Combine(b.d, 0.0, x.d, p0 + Term6(b, x, g), 0)
  {
    hide Affine, Dot, Combine, W6, RDot, Sum, Times, Prod;
    PlainOver(W6(b, g), X16(x, g), b.d, x.d, b.scales[g], p0);
  }

  lemma XLength(x: BlockQ8K)
    requires ValidQ8K(x)
    ensures |DequantX(x)| == 256 && |x.qs| == 256 && |x.bsums| == 16
  {
  }

  lemma SliceX(x: BlockQ8K, j: nat)
    requires ValidQ8K(x) && j < 8
    ensures |DequantX(x)| == 256 && DequantX(x)[..32 * (j + 1)] == DequantX(x)[..32 * j] + Affine(X32(x, j), x.d, 0.0)
  {
    AffineSlice(x.qs, x.d, 0.0, 32 * j, 32 * (j + 1));
  }

  /** Over exact reals the Q4_K dot of a block is the dot of the dequantized block
      with the dequantized activations, the minimum term going through the sums. */
  lemma BlockDot4IsDequantized(b: BlockQ4K, x: BlockQ8K)
    requires ValidQ4K(b) && ValidQ8K(x) && ExactSums(x)
    ensures |DequantX(x)| == 256 && BlockDot4(b, x) == RDot(Dequant4(b, 8), DequantX(x))
  {
    hide Dequant4, DequantX, IntSum4, MinSum4, ExactSums;
    XLength(x);
    SubBlocks4(b, x, 8);
    assert DequantX(x)[..256] == DequantX(x);
  }

  lemma {:induction false} Groups6(b: BlockQ6K, x: BlockQ8K, n: nat)
    requires ValidQ6K(b) && ValidQ8K(x) && n <= 16
    ensures |DequantX(x)| == 256
    ensures RDot(Dequant6(b, n), DequantX(x)[..16 * n]) == Combine(b.d, 0.0, x.d, IntSum6(b, x, n), 0)
    decreases n
  {
    hide W6, X16, ValidQ8K, Affine, Dot, DequantX, Combine, Part, SubDequant, GroupDequant, Term4, MinTerm4, Term6;
    XLength(x);
    if n == 0 {
      assert DequantX(x)[..0] == [];
      CombineNone(b.d, 0.0, x.d);
    } else {
      var g := n - 1;
      Groups6(b, x, g);
      SliceX16(x, g);
      RDotAppend(Dequant6(b, g), DequantX(x)[..16 * g], GroupDequant(b, g), Affine(X16(x, g), x.d, 0.0));
      GroupStep(b, x, g, IntSum6(b, x, g));
    }
  }

  lemma SliceX16(x: BlockQ8K, g: nat)
    requires ValidQ8K(x) && g < 16
    ensures |DequantX(x)| == 256 && DequantX(x)[..16 * (g + 1)] == DequantX(x)[..16 * g] + Affine(X16(x, g), x.d, 0.0)
  {
    AffineSlice(x.qs, x.d, 0.0, 16 * g, 16 * (g + 1));
  }

  /** The same for Q6_K. */
  lemma BlockDot6IsDequantized(b: BlockQ6K, x: BlockQ8K)
    requires ValidQ6K(b) && ValidQ8K(x)
    ensures |DequantX(x)| == 256 && BlockDot6(b, x) == RDot(Dequant6(b, 16), DequantX(x))
  {
    hide Dequant6, DequantX, IntSum6;
    XLength(x);
    Groups6(b, x, 16);
    assert DequantX(x)[..256] == DequantX(x);
  }

  // ---- Rows of blocks ----------------------------------------------------------------------------

  ghost predicate Row4(w: seq<BlockQ4K>, x: seq<BlockQ8K>) {
    |w| == |x| && forall i | 0 <= i < |w| :: ValidQ4K(w[i]) && ValidQ8K(x[i])
  }

  ghost predicate Row6(w: seq<BlockQ6K>, x: seq<BlockQ8K>) {
    |w| == |x| && forall i | 0 <= i < |w| :: ValidQ6K(w[i]) && ValidQ8K(x[i])
  }

  function Dot4(w: seq<BlockQ4K>, x: seq<BlockQ8K>, n: nat): real
    requires Row4(w, x) && n <= |w|
  {
    if n == 0 then 0.0 else Dot4(w, x, n - 1) + BlockDot4(w[n - 1], x[n - 1])
  }

  function Dot6(w: seq<BlockQ6K>, x: seq<BlockQ8K>, n: nat): real
    requires Row6(w, x) && n <= |w|
  {
    if n == 0 then 0.0 else Dot6(w, x, n - 1) + BlockDot6(w[n - 1], x[n - 1])
  }

  function Weights4(w: seq<BlockQ4K>, n: nat): (y: seq<real>)
    requires n <= |w| && forall i | 0 <= i < |w| :: ValidQ4K(w[i])
    ensures |y| == 256 * n
  {
    if n == 0 then [] else Weights4(w, n - 1) + Dequant4(w[n - 1], 8)
  }

  function Weights6(w: seq<BlockQ6K>, n: nat): (y: seq<real>)
    requires n <= |w| && forall i | 0 <= i < |w| :: ValidQ6K(w[i])
    ensures |y| == 256 * n
  {
    if n == 0 then [] else Weights6(w, n - 1) + Dequant6(w[n - 1], 16)
  }

  function Activations(x: seq<BlockQ8K>, n: nat): (y: seq<real>)
    requires n <= |x| && forall i | 0 <= i < |x| :: ValidQ8K(x[i])
    ensures |y| == 256 * n
  {
    if n == 0 then [] else Activations(x, n - 1) + DequantX(x[n - 1])
  }

  /** For every number of blocks, the Q4_K dot is the dot of the dequantized rows. */
  lemma {:induction false} Dot4IsDequantized(w: seq<BlockQ4K>, x: seq<BlockQ8K>, n: nat)
    requires Row4(w, x) && n <= |w| && forall i | 0 <= i < |x| :: ExactSums(x[i])
    ensures Dot4(w, x, n) == RDot(Weights4(w, n), Activations(x, n))
    decreases n
  {
    hide BlockDot4, Dequant4, DequantX, ExactSums;
    if n > 0 {
      Dot4IsDequantized(w, x, n - 1);
      BlockDot4IsDequantized(w[n - 1], x[n - 1]);
      RDotAppend(Weights4(w, n - 1), Activations(x, n - 1), Dequant4(w[n - 1], 8), DequantX(x[n - 1]));
    }
  }

  lemma {:induction false} Dot6IsDequantized(w: seq<BlockQ6K>, x: seq<BlockQ8K>, n: nat)
    requires Row6(w, x) && n <= |w|
    ensures Dot6(w, x, n) == RDot(Weights6(w, n), Activations(x, n))
    decreases n
  {
    hide BlockDot6, Dequant6, DequantX;
    if n > 0 {
      Dot6IsDequantized(w, x, n - 1);
      BlockDot6IsDequantized(w[n - 1], x[n - 1]);
      RDotAppend(Weights6(w, n - 1), Activations(x, n - 1), Dequant6(w[n - 1], 16), DequantX(x[n - 1]));
    }
  }
}
