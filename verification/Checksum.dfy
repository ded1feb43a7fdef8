/** Ones'-complement sums (section 1 of RFC 1071). */
module Checksum {
  import opened Wire

  function Word16(hi: nat, lo: nat): nat { hi * 256 + lo }

  /** Sum of the big-endian 16-bit words, an odd last byte padded with zero. */
  function Sum16(b: Bytes): nat {
    if b == [] then 0
    else if |b| == 1 then Word16(b[0], 0)
    else Word16(b[0], b[1]) + Sum16(b[2..])
  }

  /** Fold the carries of a 32-bit sum back in until it fits 16 bits. */
  function Fold(sum: nat): (r: nat)
    ensures r < 0x1_0000
  {
    if sum / 0x1_0000 == 0 then sum else FoldSmaller(sum); Fold(sum % 0x1_0000 + sum / 0x1_0000)
  }

  lemma FoldSmaller(sum: nat)
    requires sum / 0x1_0000 != 0
    ensures sum % 0x1_0000 + sum / 0x1_0000 < sum
  {
  }

  function Finalize(sum: nat): (r: nat)
    ensures r < 0x1_0000
  {
    0xffff - Fold(sum)
  }

  function ChecksumOf(b: Bytes): (r: nat)
    ensures r < 0x1_0000
  {
    Finalize(Sum16(b))
  }

  /** The representative of a number modulo 65535 that lies in 1..65535. */
  function Residue(n: nat): (r: nat)
    requires n > 0
    ensures 1 <= r <= 65535
  {
    (n - 1) % 65535 + 1
  }

  /** Folding computes the residue in 1..65535; only the zero sum folds to zero. */
  lemma {:induction false} FoldIsResidue(sum: nat)
    ensures Fold(sum) == if sum == 0 then 0 else Residue(sum)
    decreases sum
  {
    if sum / 0x1_0000 != 0 {
      FoldSmaller(sum);
      var next := sum % 0x1_0000 + sum / 0x1_0000;
      FoldIsResidue(next);
      SameResidue(next, sum, sum / 0x1_0000);
    }
  }

  lemma SameResidue(a: nat, b: nat, k: nat)
    requires a > 0 && b == a + k * 65535
    ensures Residue(a) == Residue(b)
  {
  }

  /** Adding a checksum to its own sum always verifies. */
  lemma SelfChecks(sum: nat)
    ensures Finalize(sum + Finalize(sum)) == 0
  {
    FoldIsResidue(sum);
    var c := Finalize(sum);
    FoldIsResidue(sum + c);
    if sum > 0 {
      FullResidue(sum, sum + c);
    }
  }

  lemma FullResidue(sum: nat, total: nat)
    requires sum > 0 && total == sum + 65535 - Residue(sum)
    ensures Residue(total) == 65535
  {
    var q := (sum - 1) / 65535;
    assert total == q * 65535 + 65535;
  }

  /** The same with the all-ones form that UDP sends for a zero checksum. */
  lemma ZeroSent(sum: nat)
    requires Finalize(sum) == 0
    ensures Finalize(sum + 0xffff) == 0
  {
    FoldIsResidue(sum);
    FoldIsResidue(sum + 0xffff);
    SameResidue(sum, sum + 0xffff, 1);
  }

  lemma {:induction false} SumAppend(a: Bytes, b: Bytes)
    requires |a| % 2 == 0
    ensures Sum16(a + b) == Sum16(a) + Sum16(b)
    decreases |a|
  {
    if a == [] {
      assert a + b == b;
    } else {
      assert (a + b)[2..] == a[2..] + b;
      SumAppend(a[2..], b);
    }
  }

  lemma SumField(v: nat)
    requires v < 0x1_0000
    ensures Sum16(Be(v, 2)) == v
  {
    assert Be(v, 2) == [v / 256 % 256, v % 256];
    assert Be(v, 2)[2..] == [];
  }

  /** A checksum field stored at an even offset adds its value to the sum. */
  lemma StoreField(a: Bytes, v: nat, b: Bytes)
    requires |a| % 2 == 0 && v < 0x1_0000
    ensures Sum16(a + Be(v, 2) + b) == Sum16(a + [0, 0] + b) + v
  {
    hide Sum16;
    SumAppend(a + Be(v, 2), b);
    SumAppend(a, Be(v, 2));
    SumAppend(a + [0, 0], b);
    SumAppend(a, [0, 0]);
    SumField(v);
    ZeroField();
  }

  lemma ZeroField()
    ensures Sum16([0, 0]) == 0
  {
    assert [0, 0][2..] == [];
  }

  /** A packet whose field at an even offset holds the checksum of the rest
      verifies. */
  lemma FieldVerifies(a: Bytes, b: Bytes)
    requires |a| % 2 == 0
    ensures ChecksumOf(a + Be(ChecksumOf(a + [0, 0] + b), 2) + b) == 0
  {
    hide Sum16;
    var s := Sum16(a + [0, 0] + b);
    StoreField(a, Finalize(s), b);
    SelfChecks(s);
  }

  lemma {:induction false} SumBound(b: Bytes)
    ensures Sum16(b) <= 65535 * ((|b| + 1) / 2)
    decreases |b|
  {
    if |b| >= 2 {
      SumBound(b[2..]);
    }
  }

  /** Up to this many bytes the 32-bit sum cannot wrap. */
  const NO_WRAP: nat := 131074

  /** A sum kept in 32 bits. */
  function Wrapped(sum: nat): (r: nat)
    ensures r < WORD && (sum < WORD ==> r == sum)
  {
    sum % WORD
  }

  lemma NoWrap(b: Bytes)
    requires |b| <= NO_WRAP
    ensures Wrapped(Sum16(b)) == Sum16(b)
  {
    SumBound(b);
  }

  lemma ResidueEqual(a: nat, b: nat)
    requires 0 < a <= b
    ensures Residue(a) == Residue(b) <==> (b - a) % 65535 == 0
  {
    var m, n := (a - 1) / 65535, (b - 1) / 65535;
    assert a - 1 == 65535 * m + (a - 1) % 65535 && b - 1 == 65535 * n + (b - 1) % 65535;
    if (b - a) % 65535 == 0 {
      assert b == a + (b - a) / 65535 * 65535;
      SameResidue(a, b, (b - a) / 65535);
    }
  }

  /** A wrapped sum gives the right checksum exactly when the number of wraps is
      a multiple of 65535 and something is left. */
  lemma WrappedIff(sum: nat)
    ensures Finalize(Wrapped(sum)) == Finalize(sum) <==> (sum / WORD) % 65535 == 0 && (sum % WORD == 0 ==> sum == 0)
  {
    FoldIsResidue(sum);
    FoldIsResidue(sum % WORD);
    var q, r := sum / WORD, sum % WORD;
    assert sum == q * WORD + r;
    if r > 0 {
      ResidueEqual(r, sum);
      WrapsModulo(q);
    }
  }

  lemma {:induction false} SumOnes(n: nat)
    ensures Sum16(seq(2 * n, _ => 255)) == 65535 * n
    decreases n
  {
    if n > 0 {
      SumOnes(n - 1);
      var b: Bytes := seq(2 * n, _ => 255);
      assert b[2..] == seq(2 * (n - 1), _ => 255);
    }
  }

  /** Bytes whose sum wraps, to a wrong checksum: 65538 words of ones. */
  lemma WrapsWrongly()
    ensures var b: Bytes := seq(2 * 65538, _ => 255); Finalize(Wrapped(Sum16(b))) != ChecksumOf(b)
  {
    SumOnes(65538);
    WrappedIff(65535 * 65538);
  }

  lemma WrapsModulo(q: nat)
    ensures (q * WORD) % 65535 == q % 65535
  {
    assert q * WORD == q + 65535 * (65537 * q);
  }

  lemma AddWrapped(a: nat, b: nat)
    ensures Wrapped(Wrapped(a) + b) == Wrapped(a + b)
  {
  }

  /** The running 32-bit sum, which wraps. */
  method PartialSum(sum0: nat, b: Bytes) returns (sum: nat)
    requires sum0 < WORD
    ensures sum == Wrapped(sum0 + Sum16(b))
  {
    hide Wrapped;
    sum := sum0;
    ghost var total: nat := sum0;
    var i := 0;
    while i + 2 <= |b|
      invariant 0 <= i <= |b| && i % 2 == 0
      invariant sum == Wrapped(total) && total + Sum16(b[i..]) == sum0 + Sum16(b)
    {
      assert b[i..][2..] == b[i + 2..];
      AddWrapped(total, Word16(b[i], b[i + 1]));
      total := total + Word16(b[i], b[i + 1]);
      sum := Wrapped(sum + Word16(b[i], b[i + 1]));
      i := i + 2;
    }
    if i < |b| {
      AddWrapped(total, Word16(b[i], 0));
      sum := Wrapped(sum + Word16(b[i], 0));
    }
  }

  method FinalizeSum(sum0: nat) returns (r: nat)
    ensures r == Finalize(sum0)
  {
    var sum := sum0;
    while sum / 0x1_0000 != 0
      invariant Fold(sum) == Fold(sum0)
      decreases sum
    {
      FoldSmaller(sum);
      sum := sum % 0x1_0000 + sum / 0x1_0000;
    }
    r := 0xffff - sum;
  }

  /** The checksum of any bytes: of the wrapped sum, and so of the sum for
      everything an IPv4 packet can hold. */
  method ComputeChecksum(b: Bytes) returns (r: nat)
    ensures r == Finalize(Wrapped(Sum16(b)))
    ensures |b| <= NO_WRAP ==> r == ChecksumOf(b)
  {
    var sum := PartialSum(0, b);
    r := FinalizeSum(sum);
    if |b| <= NO_WRAP {
      NoWrap(b);
    }
  }
}
