/** The scalar reference dots and the dequantizers, as the loops of the source,
    proved against the functions that define the formats. */
module Scalar {
  import opened Wire
  import opened Lanes
  import opened Quant
  import opened Singles
  import Avx2

  // ---- Q8_0 ----------------------------------------------------------------------------------

  /** The scalar Q8_0 dot. */
  method DotQ8<F>(o: Floats<F>, w: seq<BlockQ8>, x: seq<BlockQ8>) returns (sum: F)
    requires Avx2.Row8(w, x)
    ensures sum == FloatDot8(o, w, x, |w|)
  {
    hide Dot;
    sum := o.zero;
    var i := 0;
    while i < |w|
      invariant 0 <= i <= |w| && sum == FloatDot8(o, w, x, i)
    {
      var acc := DotLoop(w[i].qs, x[i].qs);
      var term := o.mul(o.mul(o.ofInt(acc), o.of(w[i].d)), o.of(x[i].d));
      sum := o.add(sum, term);
      i := i + 1;
    }
  }

  /** The scalar inner loop. */
  method DotLoop(w: seq<int>, x: seq<int>) returns (acc: int)
    requires |w| == |x|
    ensures acc == Dot(w, x)
  {
    acc := 0;
    var k := 0;
    while k < |w|
      invariant 0 <= k <= |w| && acc == Sum(Products(w, x)[..k])
    {
      Avx2.SumStep(Products(w, x), k);
      acc := acc + w[k] * x[k];
      k := k + 1;
    }
    assert Products(w, x)[..k] == Products(w, x);
  }

  // ---- Q4_K ----------------------------------------------------------------------------------

  /** The scalar Q4_K dot. */
  method DotQ4K<F>(o: Floats<F>, w: seq<BlockQ4K>, x: seq<BlockQ8K>) returns (sumf: F)
    requires Row4(w, x)
    ensures sumf == FloatDot4(o, w, x, |w|)
  {
    hide ScaledSum4, MinSum4;
    sumf := o.zero;
    var i := 0;
    while i < |w|
      invariant 0 <= i <= |w| && sumf == FloatDot4(o, w, x, i)
    {
      var sumQ, sumM := Q4KSums(o, w[i], x[i]);
      var dAll, dminAll := o.mul(o.of(w[i].d), o.of(x[i].d)), o.mul(o.of(w[i].dmin), o.of(x[i].d));
      sumf := o.add(sumf, o.sub(o.mul(dAll, sumQ), o.mul(dminAll, o.ofInt(sumM))));
      i := i + 1;
    }
  }

  /** The two sums of one block. */
  method Q4KSums<F>(o: Floats<F>, b: BlockQ4K, x: BlockQ8K) returns (sumQ: F, sumM: int)
    requires ValidQ4K(b) && ValidQ8K(x)
    ensures sumQ == ScaledSum4(o, b, x, 8) && sumM == MinSum4(b, x, 8)
  {
    hide Scale, Minimum, Dot, W4, Prod, ScaledSum4, MinSum4;
    NothingSummed4(o, b, x);
    sumQ, sumM := o.zero, 0;
    var j := 0;
    while j < 8
      invariant 0 <= j <= 8 && sumQ == ScaledSum4(o, b, x, j) && sumM == MinSum4(b, x, j)
    {
      var sub := Q4KSub(b, x, j);
      sumQ := o.add(sumQ, o.mul(o.ofInt(Scale(b, j)), o.ofInt(sub)));
      sumM := sumM + Prod(Minimum(b, j), x.bsums[2 * j] + x.bsums[2 * j + 1]);
      ScaledStep4(o, b, x, j);
      MinStep4(b, x, j);
      j := j + 1;
    }
  }

  /** The integer dot of sub-block `j`. */
  method Q4KSub(b: BlockQ4K, x: BlockQ8K, j: nat) returns (sub: int)
    requires ValidQ4K(b) && ValidQ8K(x) && j < 8
    ensures sub == Dot(W4(b, j), X32(x, j))
  {
    hide Dot, Products, W4;
    sub := 0;
    var k := 0;
    while k < 32
      invariant 0 <= k <= 32 && sub == Sum(Products(W4(b, j), X32(x, j))[..k])
    {
      var qv := if j % 2 == 1 then b.qs[j / 2 * 32 + k] / 16 else b.qs[j / 2 * 32 + k] % 16;
      QuantStep(b, x, j, k);
      sub := sub + qv * x.qs[j * 32 + k];
      k := k + 1;
    }
    SubIsDot(b, x, j);
  }

  lemma SubIsDot(b: BlockQ4K, x: BlockQ8K, j: nat)
    requires ValidQ4K(b) && ValidQ8K(x) && j < 8
    ensures Sum(Products(W4(b, j), X32(x, j))[..32]) == Dot(W4(b, j), X32(x, j))
  {
    assert Products(W4(b, j), X32(x, j))[..32] == Products(W4(b, j), X32(x, j));
  }

  lemma QuantStep(b: BlockQ4K, x: BlockQ8K, j: nat, k: nat)
    requires ValidQ4K(b) && ValidQ8K(x) && j < 8 && k < 32
    ensures var qv := if j % 2 == 1 then b.qs[j / 2 * 32 + k] / 16 else b.qs[j / 2 * 32 + k] % 16;
      var p := Products(W4(b, j), X32(x, j)); Sum(p[..k + 1]) == Sum(p[..k]) + qv * x.qs[j * 32 + k]
  {
    var p := Products(W4(b, j), X32(x, j));
    Avx2.SumStep(p, k);
    assert W4(b, j)[k] == Nibble(b.qs[j / 2 * 32 + k], j % 2 == 1);
    assert X32(x, j)[k] == x.qs[j * 32 + k];
  }

  // ---- Q6_K ----------------------------------------------------------------------------------

  /** The scalar Q6_K dot. */
  method DotQ6K<F>(o: Floats<F>, w: seq<BlockQ6K>, x: seq<BlockQ8K>) returns (sumf: F)
    requires Row6(w, x)
    ensures sumf == FloatDot6(o, w, x, |w|)
  {
    hide ScaledSum6;
    sumf := o.zero;
    var i := 0;
    while i < |w|
      invariant 0 <= i <= |w| && sumf == FloatDot6(o, w, x, i)
    {
      var sum := Q6KSum(o, w[i], x[i]);
      var dAll := o.mul(o.of(w[i].d), o.of(x[i].d));
      sumf := o.add(sumf, o.mul(dAll, sum));
      i := i + 1;
    }
  }

  /** The first `c` products of group `g`. */
  function Partial(b: BlockQ6K, x: BlockQ8K, g: nat, c: nat): int
    requires ValidQ6K(b) && ValidQ8K(x) && g < 16 && c <= 16
  {
    Sum(Products(W6(b, g), X16(x, g))[..c])
  }

  /** How many products a group has after `l` steps of the inner loop. */
  function Count(part: nat, l: nat): (c: nat)
    requires part < 2 && l <= 32
    ensures c <= 16
  {
    if part == 0 then (if l < 16 then l else 16) else if l < 16 then 0 else l - 16
  }

  ghost predicate GroupSums(gs: seq<int>, b: BlockQ6K, x: BlockQ8K, half: nat, l: nat)
    requires ValidQ6K(b) && ValidQ8K(x) && half < 2 && l <= 32
  {
    |gs| == 8 && forall g | 0 <= g < 8 :: gs[g] == Partial(b, x, half * 8 + g, Count(g % 2, l))
  }

  method Q6KSum<F>(o: Floats<F>, b: BlockQ6K, x: BlockQ8K) returns (sum: F)
    requires ValidQ6K(b) && ValidQ8K(x)
    ensures sum == ScaledSum6(o, b, x, 16)
  {
    hide Partial, Q6At, Dot, W6;
    sum := o.zero;
    var half := 0;
    while half < 2
      invariant 0 <= half <= 2 && sum == ScaledSum6(o, b, x, half * 8)
    {
      var gs := [0, 0, 0, 0, 0, 0, 0, 0];
      NoProducts(b, x, half);
      var l := 0;
      while l < 32
        invariant 0 <= l <= 32 && GroupSums(gs, b, x, half, l)
      {
        var slot := 0;
        ghost var before := gs;
        while slot < 4
          invariant 0 <= slot <= 4 && |gs| == 8
          invariant forall g | 0 <= g < 8 :: gs[g] == Partial(b, x, half * 8 + g, Count(g % 2, if g / 2 < slot then l + 1 else l))
        {
          var q := Q6At(b, half * 128 + slot * 32 + l) - 32;
          ProductStep(b, x, half, slot, l);
          gs := gs[2 * slot + l / 16 := gs[2 * slot + l / 16] + q * x.qs[half * 128 + slot * 32 + l]];
          slot := slot + 1;
        }
        l := l + 1;
      }
      var g := 0;
      while g < 8
        invariant 0 <= g <= 8 && sum == ScaledSum6(o, b, x, half * 8 + g)
      {
        FullGroup(b, x, half * 8 + g);
        sum := o.add(sum, o.mul(o.ofInt(b.scales[half * 8 + g]), o.ofInt(gs[g])));
        g := g + 1;
      }
      half := half + 1;
    }
  }

  lemma NoProducts(b: BlockQ6K, x: BlockQ8K, half: nat)
    requires ValidQ6K(b) && ValidQ8K(x) && half < 2
    ensures GroupSums([0, 0, 0, 0, 0, 0, 0, 0], b, x, half, 0)
  {
    hide W6, X16;
  }

  lemma FullGroup(b: BlockQ6K, x: BlockQ8K, g: nat)
    requires ValidQ6K(b) && ValidQ8K(x) && g < 16
    ensures Partial(b, x, g, 16) == Dot(W6(b, g), X16(x, g))
  {
    assert Products(W6(b, g), X16(x, g))[..16] == Products(W6(b, g), X16(x, g));
  }

  /** One product joins its group; the other group of the slot does not move. */
  lemma ProductStep(b: BlockQ6K, x: BlockQ8K, half: nat, slot: nat, l: nat)
    requires ValidQ6K(b) && ValidQ8K(x) && half < 2 && slot < 4 && l < 32
    ensures var g := half * 8 + 2 * slot + l / 16; var part := l / 16;
      && (2 * slot + part) % 2 == part && (2 * slot + part) / 2 == slot
      && Partial(b, x, g, Count(part, l + 1)) ==
           Partial(b, x, g, Count(part, l)) + (Q6At(b, half * 128 + slot * 32 + l) - 32) * x.qs[half * 128 + slot * 32 + l]
      && Count(1 - part, l + 1) == Count(1 - part, l)
  {
    hide Q6At;
    var g, k := half * 8 + 2 * slot + l / 16, l % 16;
    assert g * 16 + k == half * 128 + slot * 32 + l;
    Avx2.SumStep(Products(W6(b, g), X16(x, g)), k);
    GroupElement(b, x, g, k);
  }

  lemma GroupElement(b: BlockQ6K, x: BlockQ8K, g: nat, k: nat)
    requires ValidQ6K(b) && ValidQ8K(x) && g < 16 && k < 16
    ensures Products(W6(b, g), X16(x, g))[k] == (Q6At(b, g * 16 + k) - 32) * x.qs[g * 16 + k]
  {
    hide Q6At;
    assert W6(b, g)[k] == Q6At(b, g * 16 + k) - 32 && X16(x, g)[k] == x.qs[g * 16 + k];
  }

  // ---- Dequantizers --------------------------------------------------------------------------

  /** Write one Q4_K block's values: 32 low nibbles, then 32 high ones, per chunk. */
  method DequantQ4K(b: BlockQ4K, out: array<real>)
    requires ValidQ4K(b) && out.Length == 256
    modifies out
    ensures out[..] == Dequant4(b, 8)
  {
    hide SubDequant;
    var chunk := 0;
    while chunk < 4
      invariant 0 <= chunk <= 4 && out[..64 * chunk] == Dequant4(b, 2 * chunk)
    {
      DequantSub(b, 2 * chunk, out);
      DequantSub(b, 2 * chunk + 1, out);
      chunk := chunk + 1;
    }
    assert out[..256] == out[..];
  }

  method DequantSub(b: BlockQ4K, j: nat, out: array<real>)
    requires ValidQ4K(b) && out.Length == 256 && j < 8 && out[..32 * j] == Dequant4(b, j)
    modifies out
    ensures out[..32 * j + 32] == Dequant4(b, j + 1)
  {
    hide Scale, Minimum, Times, Level, W4;
    var d1, min1 := Times(b.d, Scale(b, j)), Times(b.dmin, Minimum(b, j));
    var k := 0;
    while k < 32
      invariant 0 <= k <= 32 && out[..32 * j] == Dequant4(b, j)
      invariant forall i | 0 <= i < k :: out[32 * j + i] == Level(W4(b, j)[i], d1, min1)
    {
      var qq := if j % 2 == 1 then b.qs[j / 2 * 32 + k] / 16 else b.qs[j / 2 * 32 + k] % 16;
      QuantAt(b, j, k);
      out[32 * j + k] := Level(qq, d1, min1);
      k := k + 1;
    }
    assert out[32 * j..32 * j + 32] == SubDequant(b, j);
    assert out[..32 * j + 32] == out[..32 * j] + out[32 * j..32 * j + 32];
  }

  lemma QuantAt(b: BlockQ4K, j: nat, k: nat)
    requires ValidQ4K(b) && j < 8 && k < 32
    ensures W4(b, j)[k] == if j % 2 == 1 then b.qs[j / 2 * 32 + k] / 16 else b.qs[j / 2 * 32 + k] % 16
  {
    assert W4(b, j)[k] == Nibble(b.qs[j / 2 * 32 + k], j % 2 == 1);
  }

  /** Element `i` of a dequantized Q6_K block. */
  function Value6(b: BlockQ6K, i: nat): real
    requires ValidQ6K(b) && i < 256
  {
    Level(Q6At(b, i) - 32, Times(b.d, b.scales[i / 16]), 0.0)
  }

  lemma {:induction false} Value6Is(b: BlockQ6K, n: nat, i: nat)
    requires ValidQ6K(b) && n <= 16 && i < 16 * n
    ensures Dequant6(b, n)[i] == Value6(b, i)
    decreases n
  {
    hide Level, Times, Q6At;
    if i < 16 * (n - 1) {
      Value6Is(b, n - 1, i);
    } else {
      var k := i - 16 * (n - 1);
      assert i / 16 == n - 1;
      assert GroupDequant(b, n - 1)[k] == Level(W6(b, n - 1)[k], Times(b.d, b.scales[n - 1]), 0.0);
      assert W6(b, n - 1)[k] == Q6At(b, i) - 32;
    }
  }

  /** Positions written before plane `slot` of step `l` in this half. */
  predicate Written(i: nat, half: nat, l: nat, slot: nat) {
    i / 128 < half || (i / 128 == half && (i % 32 < l || (i % 32 == l && i % 128 / 32 < slot)))
  }

  ghost predicate Filled(out: seq<real>, b: BlockQ6K, half: nat, l: nat, slot: nat)
    requires ValidQ6K(b) && |out| == 256
  {
    forall i | 0 <= i < 256 && Written(i, half, l, slot) :: out[i] == Value6(b, i)
  }

  lemma FillOne(out: seq<real>, b: BlockQ6K, half: nat, l: nat, slot: nat)
    requires ValidQ6K(b) && |out| == 256 && half < 2 && l < 32 && slot < 4 && Filled(out, b, half, l, slot)
    ensures var i := PlaneIndex(half, slot, l); Filled(out[i := Value6(b, i)], b, half, l, slot + 1)
  {
    hide Value6, Written, PlaneIndex;
    forall i | 0 <= i < 256 && Written(i, half, l, slot + 1) && i != PlaneIndex(half, slot, l) ensures Written(i, half, l, slot) {
      WrittenStep(i, half, l, slot);
    }
  }

  lemma WrittenStep(i: nat, half: nat, l: nat, slot: nat)
    requires i < 256 && half < 2 && l < 32 && slot < 4 && Written(i, half, l, slot + 1)
    ensures Written(i, half, l, slot) || i == PlaneIndex(half, slot, l)
  {
    assert i == i / 128 * 128 + i % 128 / 32 * 32 + i % 32;
  }

  lemma FillStep(out: seq<real>, b: BlockQ6K, half: nat, l: nat)
    requires ValidQ6K(b) && |out| == 256 && Filled(out, b, half, l, 4)
    ensures Filled(out, b, half, l + 1, 0)
  {
    hide Value6;
  }

  lemma FillHalf(out: seq<real>, b: BlockQ6K, half: nat)
    requires ValidQ6K(b) && |out| == 256 && Filled(out, b, half, 32, 0)
    ensures Filled(out, b, half + 1, 0, 0)
  {
    hide Value6;
  }

  /** Write one Q6_K block: four planes at a time in each half. */
  method DequantQ6K(b: BlockQ6K, out: array<real>)
    requires ValidQ6K(b) && out.Length == 256
    modifies out
    ensures out[..] == Dequant6(b, 16)
  {
    hide Value6, Filled, Written;
    FillNothing(out[..], b);
    var half := 0;
    while half < 2
      invariant 0 <= half <= 2 && Filled(out[..], b, half, 0, 0)
    {
      var l := 0;
      while l < 32
        invariant 0 <= l <= 32 && Filled(out[..], b, half, l, 0)
      {
        var slot := 0;
        while slot < 4
          invariant 0 <= slot <= 4 && Filled(out[..], b, half, l, slot)
        {
          var q := Q6At(b, half * 128 + slot * 32 + l) - 32;
          PlaneScale(b, half, slot, l);
          FillOne(out[..], b, half, l, slot);
          ghost var before := out[..];
          out[PlaneIndex(half, slot, l)] := Level(q, Times(b.d, b.scales[half * 8 + l / 16 + 2 * slot]), 0.0);
          assert out[..] == before[PlaneIndex(half, slot, l) := Value6(b, PlaneIndex(half, slot, l))];
          slot := slot + 1;
        }
        FillStep(out[..], b, half, l);
        l := l + 1;
      }
      FillHalf(out[..], b, half);
      half := half + 1;
    }
    FilledAll(out[..], b);
  }

  lemma FillNothing(out: seq<real>, b: BlockQ6K)
    requires ValidQ6K(b) && |out| == 256
    ensures Filled(out, b, 0, 0, 0)
  {
  }

  lemma FilledAll(out: seq<real>, b: BlockQ6K)
    requires ValidQ6K(b) && |out| == 256 && Filled(out, b, 2, 0, 0)
    ensures out == Dequant6(b, 16)
  {
    hide Value6, Dequant6;
    forall i | 0 <= i < 256 ensures out[i] == Dequant6(b, 16)[i] {
      Value6Is(b, 16, i);
      assert Written(i, 2, 0, 0);
    }
  }

  function PlaneIndex(half: nat, slot: nat, l: nat): (i: nat)
    requires half < 2 && slot < 4 && l < 32
    ensures i < 256 && i == half * 128 + slot * 32 + l
  {
    half * 128 + slot * 32 + l
  }

  lemma PlaneScale(b: BlockQ6K, half: nat, slot: nat, l: nat)
    requires ValidQ6K(b) && half < 2 && slot < 4 && l < 32
    ensures Value6(b, PlaneIndex(half, slot, l)) ==
      Level(Q6At(b, half * 128 + slot * 32 + l) - 32, Times(b.d, b.scales[half * 8 + l / 16 + 2 * slot]), 0.0)
  {
    hide Level, Times, Q6At;
    assert (half * 128 + slot * 32 + l) / 16 == half * 8 + l / 16 + 2 * slot;
  }
}
