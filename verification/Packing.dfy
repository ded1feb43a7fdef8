/** What a packed block means: dequantizing returns, value by value, what the packer was
    given. */
module Packing {
  import opened Wire
  import opened Lanes
  import opened Quant

  ghost predicate Levels(q: seq<int>, n: int) {
    |q| == 256 && forall i | 0 <= i < 256 :: 0 <= q[i] < n
  }

  /** Low nibbles hold the even groups of 32, high nibbles the odd ones. */
  function PackNibbles(q: seq<int>): (p: Bytes)
    requires |q| == 256 && forall i | 0 <= i < 256 :: 0 <= q[i] < 16
    ensures |p| == 128
  {
    seq(128, n requires 0 <= n < 128 => var at := n / 32 * 64 + n % 32; NibblePair(q[at], q[at + 32]))
  }

  function NibblePair(lo: int, hi: int): Byte
    requires 0 <= lo < 16 && 0 <= hi < 16
  {
    lo + 16 * hi
  }

  function Packed4(d: real, dmin: real, s: seq<bv8>, m: seq<bv8>, q: seq<int>): (b: BlockQ4K)
    requires |s| == |m| == 8 && |q| == 256 && forall i | 0 <= i < 256 :: 0 <= q[i] < 16
    ensures ValidQ4K(b)
  {
    BlockQ4K(d, dmin, PackScales(s, m), PackNibbles(q))
  }

  lemma NibbleBack(d: real, dmin: real, s: seq<bv8>, m: seq<bv8>, q: seq<int>, j: nat, k: nat)
    requires |s| == |m| == 8 && Levels(q, 16) && j < 8 && k < 32
    ensures W4(Packed4(d, dmin, s, m, q), j)[k] == q[32 * j + k]
  {
    hide PackScales;
    var n := j / 2 * 32 + k;
    assert n / 32 == j / 2 && n % 32 == k;
    var at := j / 2 * 64 + k;
    assert PackNibbles(q)[n] == NibblePair(q[at], q[at + 32]);
    PairBack(q[at], q[at + 32]);
    assert 32 * j + k == if j % 2 == 1 then at + 32 else at;
    assert W4(Packed4(d, dmin, s, m, q), j)[k] == Nibble(PackNibbles(q)[n], j % 2 == 1);
  }

  lemma PairBack(lo: int, hi: int)
    requires 0 <= lo < 16 && 0 <= hi < 16
    ensures Nibble(NibblePair(lo, hi), true) == hi && Nibble(NibblePair(lo, hi), false) == lo
  {
  }

  lemma {:induction false} Dequant4At(b: BlockQ4K, n: nat, i: nat)
    requires ValidQ4K(b) && n <= 8 && i < 32 * n
    ensures Dequant4(b, n)[i] == SubDequant(b, i / 32)[i % 32]
    decreases n
  {
    hide SubDequant;
    if i < 32 * (n - 1) {
      Dequant4At(b, n - 1, i);
    } else {
      assert i / 32 == n - 1 && i % 32 == i - 32 * (n - 1);
    }
  }

  /** Value `i` of a packed Q4_K block: scale times quant less minimum. */
  lemma DequantPacked4(d: real, dmin: real, s: seq<bv8>, m: seq<bv8>, q: seq<int>, i: nat)
    requires |s| == |m| == 8 && (forall j | 0 <= j < 8 :: SixBit(s[j]) && SixBit(m[j])) && Levels(q, 16) && i < 256
    ensures Dequant4(Packed4(d, dmin, s, m, q), 8)[i] ==
      d * (Num(s[i / 32]) as real) * (q[i] as real) - dmin * (Num(m[i / 32]) as real)
  {
    hide ScaleMin, PackScales, W4, Dequant4, Num, PackNibbles;
    var b, j, k := Packed4(d, dmin, s, m, q), i / 32, i % 32;
    assert 32 * j + k == i;
    Dequant4At(b, 8, i);
    UnpackPacked(s, m, j);
    NibbleBack(d, dmin, s, m, q, j, k);
  }

  lemma {:induction false} Dequant6At(b: BlockQ6K, n: nat, i: nat)
    requires ValidQ6K(b) && n <= 16 && i < 16 * n
    ensures Dequant6(b, n)[i] == GroupDequant(b, i / 16)[i % 16]
    decreases n
  {
    hide GroupDequant;
    if i < 16 * (n - 1) {
      Dequant6At(b, n - 1, i);
    } else {
      assert i / 16 == n - 1 && i % 16 == i - 16 * (n - 1);
    }
  }

  lemma PlanesAreBytes(q: seq<int>)
    requires Levels(q, 64)
    ensures (forall n | 0 <= n < 128 :: 0 <= PackLow(q)[n] < 256) && forall n | 0 <= n < 64 :: 0 <= PackHigh(q)[n] < 256
  {
    hide PackLow, PackHigh;
    PackRange(q);
  }

  /** Value `i` of a packed Q6_K block: scale times the quant, offset by 32. */
  lemma DequantPacked6(d: real, scales: seq<int>, q: seq<int>, i: nat)
    requires Levels(q, 64) && |scales| == 16 && Signed(scales) && i < 256
    ensures (forall n | 0 <= n < 128 :: 0 <= PackLow(q)[n] < 256) && forall n | 0 <= n < 64 :: 0 <= PackHigh(q)[n] < 256
    ensures Dequant6(BlockQ6K(PackLow(q), PackHigh(q), scales, d), 16)[i] ==
      d * (scales[i / 16] as real) * ((q[i] - 32) as real)
  {
    hide PackLow, PackHigh, Q6At, Dequant6;
    PlanesAreBytes(q);
    var b := BlockQ6K(PackLow(q), PackHigh(q), scales, d);
    PlanesRoundTrip(q, scales, d, i);
    Dequant6At(b, 16, i);
    assert i / 16 * 16 + i % 16 == i;
  }

  /** Value `i` of a Q8_0 block. */
  lemma Dequant8At(b: BlockQ8, i: nat)
    requires i < |b.qs|
    ensures Dequant8(b)[i] == b.d * (b.qs[i] as real)
  {
  }
}
