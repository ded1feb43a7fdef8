/** Bytes on the wire or in a file: integers laid out in them in either order,
    fields inside a buffer, writing into a buffer, and the CRC of byte values. */
module Wire {
  import Crc
  import Masks

  type Byte = i: int | 0 <= i < 256
  type Bytes = seq<Byte>

  /** One past the largest `u32`, and one past the largest `u64` (and `usize`). */
  const WORD: nat := 0x1_0000_0000
  const LIMIT: nat := 0x1_0000_0000_0000_0000

  /** The low `n` bytes of `v`, least significant first. */
  function Le(v: nat, n: nat): (s: Bytes)
    ensures |s| == n
  {
    if n == 0 then [] else [v % 256] + Le(v / 256, n - 1)
  }

  function LeNum(s: Bytes): nat {
    if s == [] then 0 else s[0] + 256 * LeNum(s[1..])
  }

  /** The same most significant first. */
  function Be(v: nat, n: nat): (s: Bytes)
    ensures |s| == n
  {
    if n == 0 then [] else Be(v / 256, n - 1) + [v % 256]
  }

  function BeNum(s: Bytes): nat {
    if s == [] then 0 else 256 * BeNum(s[..|s| - 1]) + s[|s| - 1]
  }

  function Pow256(n: nat): (p: nat)
    ensures p > 0
  {
    if n == 0 then 1 else 256 * Pow256(n - 1)
  }

  lemma Pow256Values()
    ensures Pow256(1) == 0x100 && Pow256(2) == 0x1_0000 && Pow256(3) == 0x100_0000 && Pow256(4) == WORD
    ensures Pow256(5) == 0x100_0000_0000 && Pow256(8) == 0x1_0000_0000_0000_0000
  {
    assert Pow256(2) == 0x1_0000 && Pow256(3) == 0x100_0000 && Pow256(4) == WORD;
    assert Pow256(5) == 0x100_0000_0000 && Pow256(6) == 0x1_0000_0000_0000;
  }

  lemma {:induction false} LeRoundTrip(v: nat, n: nat)
    requires v < Pow256(n)
    ensures LeNum(Le(v, n)) == v
  {
    if n > 0 {
      LeRoundTrip(v / 256, n - 1);
      assert Le(v, n)[1..] == Le(v / 256, n - 1);
    }
  }

  lemma {:induction false} BeRoundTrip(v: nat, n: nat)
    requires v < Pow256(n)
    ensures BeNum(Be(v, n)) == v
  {
    if n > 0 {
      BeRoundTrip(v / 256, n - 1);
      assert Be(v, n)[..n - 1] == Be(v / 256, n - 1);
    }
  }

  lemma {:induction false} LeBound(s: Bytes)
    ensures LeNum(s) < Pow256(|s|)
  {
    if s != [] {
      LeBound(s[1..]);
    }
  }

  lemma {:induction false} BeBound(s: Bytes)
    ensures BeNum(s) < Pow256(|s|)
  {
    if s != [] {
      BeBound(s[..|s| - 1]);
    }
  }

  lemma {:induction false} LeSplit(s: Bytes, k: nat)
    requires k <= |s|
    ensures LeNum(s) == LeNum(s[..k]) + Pow256(k) * LeNum(s[k..])
    decreases k
  {
    if k == 0 {
      assert s[0..] == s;
    } else {
      LeSplit(s[1..], k - 1);
      assert s[..k][1..] == s[1..][..k - 1] && s[1..][k - 1..] == s[k..];
      ScaledStep(Pow256(k - 1), LeNum(s[k..]));
    }
  }

  lemma ScaledStep(p: nat, n: nat)
    ensures 256 * (p * n) == (256 * p) * n
  {
  }

  lemma {:induction false} LeInjective(s: Bytes, t: Bytes)
    requires |s| == |t| && LeNum(s) == LeNum(t)
    ensures s == t
    decreases |s|
  {
    if s != [] {
      LeInjective(s[1..], t[1..]);
      assert s == [s[0]] + s[1..] && t == [t[0]] + t[1..];
    }
  }

  lemma {:induction false} BeOfNum(s: Bytes)
    ensures Be(BeNum(s), |s|) == s
  {
    if s != [] {
      BeOfNum(s[..|s| - 1]);
    }
  }

  // ---- Little-endian fields inside a buffer --------------------------------------------

  function U16(b: Bytes, off: nat): (v: nat)
    requires off + 2 <= |b|
    ensures v < 0x1_0000
  {
    LeBound(b[off..off + 2]);
    Pow256Values();
    LeNum(b[off..off + 2])
  }

  function U32(b: Bytes, off: nat): (v: nat)
    requires off + 4 <= |b|
    ensures v < WORD
  {
    LeBound(b[off..off + 4]);
    Pow256Values();
    LeNum(b[off..off + 4])
  }

  function U64(b: Bytes, off: nat): (v: nat)
    requires off + 8 <= |b|
    ensures v < LIMIT
  {
    LeBound(b[off..off + 8]);
    Pow256Values();
    LeNum(b[off..off + 8])
  }

  function Words(vs: seq<nat>): (s: Bytes)
    ensures |s| == 4 * |vs|
  {
    if vs == [] then [] else Words(vs[..|vs| - 1]) + Le(vs[|vs| - 1], 4)
  }

  lemma {:induction false} WordAt(vs: seq<nat>, i: nat)
    requires i < |vs|
    ensures Words(vs)[4 * i..4 * i + 4] == Le(vs[i], 4)
    decreases |vs|
  {
    if i < |vs| - 1 {
      WordAt(vs[..|vs| - 1], i);
      assert Words(vs)[4 * i..4 * i + 4] == Words(vs[..|vs| - 1])[4 * i..4 * i + 4];
    }
  }

  /** Reading a word back from inside a larger buffer. */
  lemma WordBack(b: Bytes, at: nat, vs: seq<nat>, i: nat)
    requires at + |Words(vs)| <= |b| && b[at..at + |Words(vs)|] == Words(vs) && i < |vs| && vs[i] < WORD
    ensures U32(b, at + 4 * i) == vs[i]
  {
    hide LeNum, Le, Words, Pow256;
    WordAt(vs, i);
    Pow256Values();
    LeRoundTrip(vs[i], 4);
    Inside(b, at, Words(vs), 4 * i, 4 * i + 4);
  }

  lemma Inside(b: Bytes, at: nat, s: Bytes, i: nat, j: nat)
    requires at + |s| <= |b| && b[at..at + |s|] == s && i <= j <= |s|
    ensures b[at + i..at + j] == s[i..j]
  {
    forall k | i <= k < j ensures b[at + k] == s[k] {
      assert b[at..at + |s|][k] == s[k];
    }
    assert b[at + i..at + j] == s[i..j];
  }

  lemma HalfBack(b: Bytes, at: nat, v: nat)
    requires at + 2 <= |b| && b[at..at + 2] == Le(v, 2) && v < 0x1_0000
    ensures U16(b, at) == v
  {
    Pow256Values();
    LeRoundTrip(v, 2);
  }

  // ---- Writing into a buffer -------------------------------------------------------------

  /** `m` with `v` written over it at `at`. */
  function Splice(m: Bytes, at: nat, v: Bytes): (r: Bytes)
    requires at + |v| <= |m|
    ensures |r| == |m|
  {
    m[..at] + v + m[at + |v|..]
  }

  /** Write bytes at a position. */
  method Put(out: array<Byte>, at: nat, s: Bytes)
    requires at + |s| <= out.Length
    modifies out
    ensures out[..] == old(out[..at]) + s + old(out[at + |s|..])
  {
    ghost var was := out[..];
    var j := 0;
    while j < |s|
      invariant 0 <= j <= |s|
      invariant forall k | 0 <= k < j :: out[at + k] == s[k]
      invariant forall k | 0 <= k < out.Length && !(at <= k < at + j) :: out[k] == was[k]
    {
      out[at + j] := s[j];
      j := j + 1;
    }
    assert out[at..at + |s|] == s;
    assert out[..at] == was[..at] && out[at + |s|..] == was[at + |s|..];
    assert out[..] == out[..at] + out[at..at + |s|] + out[at + |s|..];
  }

  /** Write the next part of a datagram `len` bytes long. */
  method PutNext(out: array<Byte>, at: nat, s: Bytes, len: nat, ghost head: Bytes) returns (next: nat)
    requires at + |s| <= len <= out.Length && out[..at] == head
    modifies out
    ensures next == at + |s| && out[..next] == head + s && out[len..] == old(out[len..])
  {
    Put(out, at, s);
    next := at + |s|;
    assert forall k | len <= k < out.Length :: out[k] == old(out[at + |s|..])[k - at - |s|];
  }

  // ---- CRC of wire bytes -----------------------------------------------------------------

  function Raw(s: Bytes): (r: Crc.Bytes)
    ensures |r| == |s|
  {
    seq(|s|, i requires 0 <= i < |s| => Octet(s[i]))
  }

  function Pack(a: bool, b: bool, c: bool, d: bool, e: bool, f: bool, g: bool, h: bool): bv8 {
    (if a then 1 else 0) | (if b then 2 else 0) | (if c then 4 else 0) | (if d then 8 else 0)
    | (if e then 16 else 0) | (if f then 32 else 0) | (if g then 64 else 0) | (if h then 128 else 0)
  }

  /** A byte as a bit vector. */
  function Octet(i: Byte): bv8 {
    Pack(Masks.BitAt(i, 0), Masks.BitAt(i, 1), Masks.BitAt(i, 2), Masks.BitAt(i, 3), Masks.BitAt(i, 4), Masks.BitAt(i, 5), Masks.BitAt(i, 6), Masks.BitAt(i, 7))
  }

  lemma PackInjective(a: bool, b: bool, c: bool, d: bool, e: bool, f: bool, g: bool, h: bool,
                      a': bool, b': bool, c': bool, d': bool, e': bool, f': bool, g': bool, h': bool)
    requires Pack(a, b, c, d, e, f, g, h) == Pack(a', b', c', d', e', f', g', h')
    ensures a == a' && b == b' && c == c' && d == d' && e == e' && f == f' && g == g' && h == h'
  {
  }

  lemma ByteBelow(i: Byte)
    ensures i < Masks.Pow2(8)
  {
    assert Masks.Pow2(4) == 16;
  }

  lemma OctetInjective(i: Byte, j: Byte)
    requires Octet(i) == Octet(j)
    ensures i == j
  {
    hide Pack, Masks.BitAt, Masks.Pow2;
    PackInjective(Masks.BitAt(i, 0), Masks.BitAt(i, 1), Masks.BitAt(i, 2), Masks.BitAt(i, 3), Masks.BitAt(i, 4), Masks.BitAt(i, 5), Masks.BitAt(i, 6), Masks.BitAt(i, 7),
                  Masks.BitAt(j, 0), Masks.BitAt(j, 1), Masks.BitAt(j, 2), Masks.BitAt(j, 3), Masks.BitAt(j, 4), Masks.BitAt(j, 5), Masks.BitAt(j, 6), Masks.BitAt(j, 7));
    ByteBelow(i);
    ByteBelow(j);
    Masks.LowBitsDetermine(i, j, 8);
  }

  /** Every bit vector of eight bits is some byte. */
  lemma OctetOnto(x: bv8) returns (i: Byte)
    ensures Octet(i) == x
  {
    hide Pack, Masks.BitAt;
    var a, b, c, d := x & 1 != 0, x & 2 != 0, x & 4 != 0, x & 8 != 0;
    var e, f, g, h := x & 16 != 0, x & 32 != 0, x & 64 != 0, x & 128 != 0;
    i := One(a) + 2 * One(b) + 4 * One(c) + 8 * One(d) + 16 * One(e) + 32 * One(f) + 64 * One(g) + 128 * One(h);
    BitsOf(a, b, c, d, e, f, g, h);
    PackBits(x);
  }

  function One(b: bool): (n: nat)
    ensures n <= 1
  {
    if b then 1 else 0
  }

  lemma PackBits(x: bv8)
    ensures Pack(x & 1 != 0, x & 2 != 0, x & 4 != 0, x & 8 != 0, x & 16 != 0, x & 32 != 0, x & 64 != 0, x & 128 != 0) == x
  {
  }

  lemma LowBit(b: bool, n: nat)
    ensures Masks.BitAt(One(b) + 2 * n, 0) == b
    ensures forall k: nat :: Masks.BitAt(One(b) + 2 * n, k + 1) == Masks.BitAt(n, k)
  {
  }

  lemma BitsOf(a: bool, b: bool, c: bool, d: bool, e: bool, f: bool, g: bool, h: bool)
    ensures var i := One(a) + 2 * One(b) + 4 * One(c) + 8 * One(d) + 16 * One(e) + 32 * One(f) + 64 * One(g) + 128 * One(h);
      && Masks.BitAt(i, 0) == a && Masks.BitAt(i, 1) == b && Masks.BitAt(i, 2) == c && Masks.BitAt(i, 3) == d
      && Masks.BitAt(i, 4) == e && Masks.BitAt(i, 5) == f && Masks.BitAt(i, 6) == g && Masks.BitAt(i, 7) == h
  {
    hide Masks.BitAt;
    var n7 := One(h);
    var n6 := One(g) + 2 * n7;
    var n5 := One(f) + 2 * n6;
    var n4 := One(e) + 2 * n5;
    var n3 := One(d) + 2 * n4;
    var n2 := One(c) + 2 * n3;
    var n1 := One(b) + 2 * n2;
    LowBit(a, n1);
    LowBit(b, n2);
    LowBit(c, n3);
    LowBit(d, n4);
    LowBit(e, n5);
    LowBit(f, n6);
    LowBit(g, n7);
    LowBit(h, 0);
    assert n7 == One(h) + 2 * 0;
  }

  lemma {:induction false} RawOnto(x: Crc.Bytes) returns (s: Bytes)
    ensures |s| == |x| && Raw(s) == x
    decreases |x|
  {
    hide Octet;
    if x == [] {
      s := [];
    } else {
      var i := OctetOnto(x[0]);
      var rest := RawOnto(x[1..]);
      s := [i] + rest;
      RawAppend([i], rest);
      assert Raw([i]) == [Octet(i)];
    }
  }

  /** Some four bytes behind `s` give it any checksum of another list. */
  lemma Forge(s: Bytes, t: Bytes) returns (w: Bytes)
    ensures |w| == 4 && Crc32(s + w) == Crc32(t)
  {
    hide Raw, Crc.State;
    var x := Crc.Reach(Crc.State(Crc.INIT, Raw(s)), Crc.State(Crc.INIT, Raw(t)));
    w := RawOnto(x);
    RawAppend(s, w);
    Crc.StateAppend(Crc.INIT, Raw(s), x);
  }

  lemma PackValues()
    ensures Pack(false, false, false, false, false, false, false, false) == 0
    ensures Pack(true, true, true, false, true, false, false, true) == 0x97
  {
  }

  lemma OctetValues()
    ensures Octet(0) == 0 && Octet(0x97) == 0x97
  {
    hide Masks.BitAt, Pack;
    BitsOf(false, false, false, false, false, false, false, false);
    BitsOf(true, true, true, false, true, false, false, true);
    PackValues();
  }

  /** Two lists that differ in one byte, with checksums that differ above the lowest
      byte only. */
  lemma ForgeNear(s: Bytes) returns (w: Bytes)
    ensures |w| == 4 && Crc32(s + [0] + w) == 0 && Crc32(s + [0x97] + w) == 0x6326_fb00
  {
    hide Octet, Crc.Checksum, Crc.State;
    var x := Crc.NearMiss(Raw(s));
    w := RawOnto(x);
    OctetValues();
    RawAppend(s, [0]);
    RawAppend(s + [0], w);
    RawAppend(s, [0x97]);
    RawAppend(s + [0x97], w);
    assert Raw([0]) == [0] && Raw([0x97]) == [0x97];
    NumberValues();
  }

  lemma NumberValues()
    ensures Number(0) == 0 && Number(0x6326_fb00) == 0x6326_fb00
  {
  }

  lemma RawInjective(s: Bytes, t: Bytes)
    requires Raw(s) == Raw(t)
    ensures s == t
  {
    hide Octet;
    forall i | 0 <= i < |s| ensures s[i] == t[i] {
      assert Raw(s)[i] == Raw(t)[i];
      OctetInjective(s[i], t[i]);
    }
  }

  lemma RawAppend(s: Bytes, t: Bytes)
    ensures Raw(s + t) == Raw(s) + Raw(t)
  {
  }

  function Number(c: bv32): (n: nat)
    ensures n < WORD
  {
    c as nat
  }

  function Crc32(s: Bytes): (n: nat)
    ensures n < WORD
  {
    Number(Crc.Checksum(Raw(s)))
  }

  /** Changing any four (or fewer) consecutive bytes changes the CRC. */
  lemma Burst(p: Bytes, x: Bytes, y: Bytes, q: Bytes)
    requires |x| == |y| <= 4 && x != y
    ensures Crc32(p + x + q) != Crc32(p + y + q)
  {
    hide Crc.Checksum, Raw;
    RawAppend(p, x);
    RawAppend(p, y);
    RawAppend(p + x, q);
    RawAppend(p + y, q);
    if Raw(x) == Raw(y) {
      RawInjective(x, y);
    }
    Crc.BurstDetected(Raw(p), Raw(x), Raw(y), Raw(q));
    var a, b := Crc.Checksum(Raw(p + x + q)), Crc.Checksum(Raw(p + y + q));
    if Number(a) == Number(b) {
      Crc.NumberInjective(a, b);
    }
  }
}
