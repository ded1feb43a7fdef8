/** Unsigned words as bit masks, by halving: setting a bit, the mask of the low
    bits, and that a word is determined by its bits. Used for bytes and for the
    64-bit mask of the reassembler. */
module Masks {
  function Pow2(n: nat): (p: nat)
    ensures p > 0
  {
    if n == 0 then 1 else 2 * Pow2(n - 1)
  }

  function BitAt(n: nat, i: nat): bool
    decreases i
  {
    if i == 0 then n % 2 == 1 else BitAt(n / 2, i - 1)
  }

  /** `n | 1 << i`. */
  function SetBit(n: nat, i: nat): nat
    decreases i
  {
    if i == 0 then (if n % 2 == 1 then n else n + 1) else 2 * SetBit(n / 2, i - 1) + n % 2
  }

  lemma {:induction false} SetBitAt(n: nat, i: nat, j: nat)
    ensures BitAt(SetBit(n, i), j) <==> i == j || BitAt(n, j)
    decreases i
  {
    if i == 0 {
      if j > 0 {
        assert SetBit(n, 0) / 2 == n / 2;
      }
    } else {
      var m := SetBit(n, i);
      assert m / 2 == SetBit(n / 2, i - 1) && m % 2 == n % 2;
      if j > 0 {
        SetBitAt(n / 2, i - 1, j - 1);
      }
    }
  }

  lemma Halve(n: nat, p: nat)
    requires n < 2 * p
    ensures n / 2 < p && (n % 2 == 0 ==> n + 1 < 2 * p)
  {
  }

  lemma {:induction false} SetBitBound(n: nat, i: nat, width: nat)
    requires n < Pow2(width) && i < width
    ensures SetBit(n, i) < Pow2(width)
    decreases i
  {
    var p := Pow2(width - 1);
    Halve(n, p);
    if i > 0 {
      SetBitBound(n / 2, i - 1, width - 1);
    }
  }

  /** The mask of the low `c` bits. */
  lemma {:induction false} LowBits(c: nat, j: nat)
    ensures BitAt(Pow2(c) - 1, j) <==> j < c
    decreases c
  {
    if c == 0 {
      NoBits(j);
    } else {
      var m := Pow2(c) - 1;
      assert m % 2 == 1 && m / 2 == Pow2(c - 1) - 1;
      if j > 0 {
        LowBits(c - 1, j - 1);
      }
    }
  }

  lemma {:induction false} NoBits(j: nat)
    ensures !BitAt(0, j)
  {
    if j > 0 {
      NoBits(j - 1);
    }
  }

  ghost predicate SameBits(a: nat, b: nat) {
    forall j: nat :: BitAt(a, j) <==> BitAt(b, j)
  }

  /** A word is determined by its bits. */
  lemma {:induction false} BitsDetermine(a: nat, b: nat)
    requires SameBits(a, b)
    ensures a == b
    decreases a + b
  {
    assert BitAt(a, 0) <==> BitAt(b, 0);
    if a + b > 0 {
      forall j: nat ensures BitAt(a / 2, j) <==> BitAt(b / 2, j) {
        assert BitAt(a, j + 1) <==> BitAt(b, j + 1);
      }
      BitsDetermine(a / 2, b / 2);
    }
  }

  /** Numbers below `2^n` that agree in their low `n` bits are equal. */
  lemma {:induction false} LowBitsDetermine(i: nat, j: nat, n: nat)
    requires i < Pow2(n) && j < Pow2(n) && forall k: nat | k < n :: BitAt(i, k) == BitAt(j, k)
    ensures i == j
    decreases n
  {
    if n > 0 {
      assert BitAt(i, 0) == BitAt(j, 0);
      forall k: nat | k < n - 1 ensures BitAt(i / 2, k) == BitAt(j / 2, k) {
        assert BitAt(i, k + 1) == BitAt(j, k + 1);
      }
      LowBitsDetermine(i / 2, j / 2, n - 1);
    }
  }

  lemma ByteWidth(n: nat)
    ensures Pow2(n + 8) == 256 * Pow2(n)
  {
    assert Pow2(n + 4) == 16 * Pow2(n) by {
      assert Pow2(n + 2) == 4 * Pow2(n);
    }
    assert Pow2(n + 6) == 4 * Pow2(n + 4);
  }

  lemma WordWidth()
    ensures Pow2(64) == 0x1_0000_0000_0000_0000
  {
    hide Pow2;
    PowZero();
    ByteWidth(0);
    ByteWidth(8);
    ByteWidth(16);
    ByteWidth(24);
    ByteWidth(32);
    ByteWidth(40);
    ByteWidth(48);
    ByteWidth(56);
  }

  lemma PowZero()
    ensures Pow2(0) == 1
  {
  }
}
