/** What the gates on header scalars and entry sizes mean in numbers. */
module Gates {
  import opened Wire
  import opened Wrappers
  import opened Format

  // ---- Single precision ------------------------------------------------------------------

  function Exp2(n: nat): (r: real)
    ensures r >= 1.0
  {
    if n == 0 then 1.0 else 2.0 * Exp2(n - 1)
  }

  /** The magnitude of the finite number with exponent `e` and fraction `f` (IEEE 754,
      section 3.4): subnormal for exponent zero. */
  function Magnitude(e: nat, f: nat): (r: real)
    ensures r >= 0.0 && (r == 0.0 <==> e == 0 && f == 0)
  {
    if e == 0 then Product(f as real, 1.0 / Exp2(149))
    else Product((0x80_0000 + f) as real, Exp2(e - 1) / Exp2(149))
  }

  function Product(a: real, b: real): (r: real)
    requires a >= 0.0 && b > 0.0
    ensures r >= 0.0 && (r == 0.0 <==> a == 0.0)
  {
    a * b
  }

  /** The number a finite bit pattern stands for. */
  function Value(bits: nat): real
    requires bits < WORD && Finite(bits)
  {
    var m := Magnitude(bits / 0x80_0000 % 256, bits % 0x80_0000);
    if bits / 0x8000_0000 == 1 then -m else m
  }

  lemma SignsAreSigns(bits: nat)
    requires bits < WORD && Finite(bits)
    ensures Negative(bits) <==> Value(bits) < 0.0
    ensures NotPositive(bits) <==> Value(bits) <= 0.0
  {
    hide Magnitude;
    var e, f := bits / 0x80_0000 % 256, bits % 0x80_0000;
    BitsOfZero(bits, e, f);
  }

  lemma BitsOfZero(bits: nat, e: nat, f: nat)
    requires bits < WORD && e == bits / 0x80_0000 % 256 && f == bits % 0x80_0000
    ensures e == 0 && f == 0 <==> bits == 0 || bits == 0x8000_0000
  {
    var q := bits / 0x80_0000;
    assert bits == 0x80_0000 * q + f;
    assert q == 256 * (q / 256) + e;
  }

  /** The scalars a header may hold: finite, with a non-negative attention scale and
      positive residual and logit scales. */
  lemma CoherentIff(m: Meta)
    requires m.embedScale < WORD && m.attnScale < WORD && m.residualScale < WORD && m.logitScale < WORD
    ensures Coherent(m) <==>
      && Finite(m.embedScale) && Finite(m.attnScale) && Finite(m.residualScale) && Finite(m.logitScale)
      && Value(m.attnScale) >= 0.0 && Value(m.residualScale) > 0.0 && Value(m.logitScale) > 0.0
  {
    hide Value, Negative, NotPositive, Finite;
    if Finite(m.attnScale) {
      SignsAreSigns(m.attnScale);
    }
    if Finite(m.residualScale) {
      SignsAreSigns(m.residualScale);
    }
    if Finite(m.logitScale) {
      SignsAreSigns(m.logitScale);
    }
  }

  /** One is 0x3f800000, and the largest pattern below infinity is finite. */
  lemma OneIsOne()
    ensures Finite(0x3f80_0000) && Value(0x3f80_0000) == 1.0
    ensures Finite(0x7f7f_ffff) && !Finite(0x7f80_0000) && !Finite(0xff80_0000) && !Finite(0x7fc0_0000)
  {
    hide Magnitude;
    assert 0x3f80_0000 / 0x80_0000 % 256 == 127;
    OneMagnitude();
  }

  lemma OneMagnitude()
    ensures Magnitude(127, 0) == 1.0
  {
    hide Exp2;
    Halves(126, 23);
    ExpValue();
    Quotient(Exp2(126));
  }

  lemma Quotient(x: real)
    requires x >= 1.0
    ensures 8388608.0 * (x / (x * 8388608.0)) == 1.0
  {
    var y := x * 8388608.0;
    assert x == (1.0 / 8388608.0) * y;
    assert x / y == 1.0 / 8388608.0;
  }

  lemma {:induction false} Halves(a: nat, b: nat)
    ensures Exp2(a + b) == Exp2(a) * Exp2(b)
    decreases b
  {
    if b > 0 {
      Halves(a, b - 1);
    }
  }

  lemma ExpValue()
    ensures Exp2(23) == 8388608.0
  {
    assert Exp2(4) == 16.0;
    assert Exp2(8) == 256.0;
    assert Exp2(12) == 4096.0;
    assert Exp2(16) == 65536.0;
    assert Exp2(20) == 1048576.0;
  }

  // ---- Sizes ---------------------------------------------------------------------------------

  /** Elements and bytes of one block. */
  function PerBlock(t: Dtype): nat {
    match t case F32 => 1 case Q8 => 32 case Q4K => 256 case Q6K => 256
  }

  /** A float; a half and 32 bytes; two halves, 12 bytes of scales and 128 of nibbles;
      192 bytes of planes, 16 scales and a half. */
  function BlockBytes(t: Dtype): nat {
    match t case F32 => 4 case Q8 => 2 + 32 case Q4K => 2 + 2 + 12 + 128 case Q6K => 128 + 64 + 16 + 2
  }

  /** A tensor has a size exactly if whole blocks fill it, and then that of its blocks. */
  lemma SizeIff(t: Dtype, n: nat, r: nat)
    ensures ByteSize(t, n) == Ok(r) <==> r < LIMIT && exists k: nat :: n == k * PerBlock(t) && r == k * BlockBytes(t)
  {
    var k := n / PerBlock(t);
    if ByteSize(t, n) == Ok(r) {
      assert n == k * PerBlock(t) && r == k * BlockBytes(t);
    }
    if r < LIMIT && exists i: nat :: n == i * PerBlock(t) && r == i * BlockBytes(t) {
      var i: nat :| n == i * PerBlock(t) && r == i * BlockBytes(t);
      assert i == k;
    }
  }

  /** The tags of the table. */
  lemma TagsIff(v: nat)
    ensures DtypeOf(v).Ok? <==> v <= 3
    ensures DtypeOf(0) == Ok(F32) && DtypeOf(1) == Ok(Q8) && DtypeOf(2) == Ok(Q4K) && DtypeOf(3) == Ok(Q6K)
  {
  }

  /** In a file that parses every tensor lies inside the data section, on a multiple of
      64 bytes, and has the size of its whole blocks. */
  lemma EntryMeans(b: Bytes, i: nat)
    requires ParseSpec(b).Ok? && i < |ParseSpec(b).value.entries|
    ensures var m := ParseSpec(b).value; var e := m.entries[i];
      && e.offset % 64 == 0 && e.offset + e.size <= |m.data|
      && exists k: nat :: e.rows * e.cols == k * PerBlock(e.dtype) && e.size == k * BlockBytes(e.dtype)
  {
    hide U32, U64, MetaAt, RegionsAt, EntryAt, Coherent, ByteSize, Crc32;
    var g := RegionsAt(b);
    EntriesGood(b, g.tableOff, g.count, g.dataSize, i);
    var e := ParseSpec(b).value.entries[i];
    MulProduct(e.rows, e.cols);
    SizeIff(e.dtype, e.rows * e.cols, e.size);
  }
}
