/** CRC-32, its bitwise definition and its fast forms. */
module Crc {
  // The bit-at-a-time definition of section 3.2.9 of IEEE 802.3 is the reference;
  // the slicing-by-8 tables, the streaming hasher and the mask form of the datagram
  // protocol are proved to compute it.

  const POLY: bv32 := 0xEDB8_8320
  const INIT: bv32 := 0xFFFF_FFFF

  type Bytes = seq<bv8>

  // Named so that proofs about whole strings can treat them as black boxes.
  function Xor(a: bv32, b: bv32): bv32 { a ^ b }
  function Wide(b: bv8): bv32 { b as bv32 }
  function Up(w: bv32): bv32 { w << 8 }
  function Down(w: bv32): bv32 { w >> 8 }

  /** One bit of the reflected shift register. */
  function Bit(c: bv32): bv32 {
    if c & 1 != 0 then POLY ^ (c >> 1) else c >> 1
  }

  /** `n` bits with no input: the effect of `n / 8` zero bytes. */
  function Bits(c: bv32, n: nat): bv32
    decreases n
  {
    if n == 0 then c else Bits(Bit(c), n - 1)
  }

  /** One byte of input. */
  function Feed(c: bv32, b: bv8): bv32 {
    Bits(Xor(c, Wide(b)), 8)
  }

  /** The bitwise definition: feed every byte of `s` to the register. */
  function State(c: bv32, s: Bytes): bv32
    decreases |s|
  {
    if s == [] then c else State(Feed(c, s[0]), s[1..])
  }

  function Checksum(s: Bytes): bv32 {
    Xor(State(INIT, s), INIT)
  }

  // ---- Exclusive or ----------------------------------------------------------

  lemma XorCancel(a: bv32, b: bv32, x: bv32)
    requires Xor(a, x) == Xor(b, x) || Xor(x, a) == Xor(x, b)
    ensures a == b
  {
  }

  lemma XorZero(c: bv32)
    ensures Xor(c, 0) == c
    ensures Xor(0, c) == c
  {
  }

  lemma XorAssoc(a: bv32, b: bv32, c: bv32)
    ensures Xor(Xor(a, b), c) == Xor(a, Xor(b, c))
  {
  }

  // ---- The shift register is an injective GF(2)-linear map -------------------

  lemma BitLinear00(a: bv32, b: bv32)
    requires a & 1 == 0 && b & 1 == 0
    ensures Bit(a ^ b) == Bit(a) ^ Bit(b)
  {
  }

  lemma BitLinear01(a: bv32, b: bv32)
    requires a & 1 == 0 && b & 1 == 1
    ensures Bit(a ^ b) == Bit(a) ^ Bit(b)
  {
  }

  lemma BitLinear10(a: bv32, b: bv32)
    requires a & 1 == 1 && b & 1 == 0
    ensures Bit(a ^ b) == Bit(a) ^ Bit(b)
  {
  }

  lemma BitLinear11(a: bv32, b: bv32)
    requires a & 1 == 1 && b & 1 == 1
    ensures Bit(a ^ b) == Bit(a) ^ Bit(b)
  {
  }

  lemma LowBit(a: bv32)
    ensures a & 1 == 0 || a & 1 == 1
  {
  }

  lemma BitLinear(a: bv32, b: bv32)
    ensures Bit(Xor(a, b)) == Xor(Bit(a), Bit(b))
  {
    hide Bit;
    LowBit(a);
    LowBit(b);
    if a & 1 == 0 {
      if b & 1 == 0 { BitLinear00(a, b); } else { BitLinear01(a, b); }
    } else {
      if b & 1 == 0 { BitLinear10(a, b); } else { BitLinear11(a, b); }
    }
  }

  lemma {:induction false} BitsLinear(a: bv32, b: bv32, n: nat)
    ensures Bits(Xor(a, b), n) == Xor(Bits(a, n), Bits(b, n))
    decreases n
  {
    hide Bit, Xor;
    if n > 0 {
      BitLinear(a, b);
      BitsLinear(Bit(a), Bit(b), n - 1);
    }
  }

  lemma BitInjective(a: bv32, b: bv32)
    requires Bit(a) == Bit(b)
    ensures a == b
  {
  }

  lemma {:induction false} BitsInjective(a: bv32, b: bv32, n: nat)
    requires Bits(a, n) == Bits(b, n)
    ensures a == b
    decreases n
  {
    hide Bit;
    if n > 0 {
      BitsInjective(Bit(a), Bit(b), n - 1);
      BitInjective(a, b);
    }
  }

  lemma {:induction false} BitsAdd(c: bv32, m: nat, n: nat)
    ensures Bits(Bits(c, m), n) == Bits(c, m + n)
    decreases m
  {
    hide Bit;
    if m > 0 {
      BitsAdd(Bit(c), m - 1, n);
    }
  }

  lemma BitsFour(c: bv32)
    ensures Bits(c, 4) == Bit(Bit(Bit(Bit(c))))
  {
    hide Bit;
    assert Bits(Bit(Bit(c)), 2) == Bits(Bit(Bit(Bit(c))), 1);
  }

  lemma BitsEight(c: bv32)
    ensures Bits(c, 8) == Bit(Bit(Bit(Bit(Bit(Bit(Bit(Bit(c))))))))
  {
    hide Bit;
    BitsAdd(c, 4, 4);
    BitsFour(c);
    BitsFour(Bits(c, 4));
  }

  lemma ShiftEight(c: bv32)
    requires c & 0xff == 0
    ensures Bit(Bit(Bit(Bit(Bit(Bit(Bit(Bit(c)))))))) == Down(c)
  {
  }

  /** A byte that has not reached the low end yet only moves down. */
  lemma BitsShift(c: bv32)
    requires c & 0xff == 0
    ensures Bits(c, 8) == Down(c)
  {
    hide *;
    ShiftEight(c);
    BitsEight(c);
  }

  // ---- Streaming, injectivity and bursts -------------------------------------

  lemma {:induction false} StateAppend(c: bv32, p: Bytes, q: Bytes)
    ensures State(c, p + q) == State(State(c, p), q)
    decreases |p|
  {
    hide Feed;
    if p == [] {
      assert p + q == q;
    } else {
      assert (p + q)[0] == p[0] && (p + q)[1..] == p[1..] + q;
      StateAppend(Feed(c, p[0]), p[1..], q);
    }
  }

  lemma FeedInjective(a: bv32, b: bv32, x: bv8)
    requires Feed(a, x) == Feed(b, x)
    ensures a == b
  {
    hide Bits, Xor, Wide;
    BitsInjective(Xor(a, Wide(x)), Xor(b, Wide(x)), 8);
    XorCancel(a, b, Wide(x));
  }

  /** Streaming the same suffix never merges two different registers. */
  lemma {:induction false} StateInjective(a: bv32, b: bv32, s: Bytes)
    requires State(a, s) == State(b, s)
    ensures a == b
    decreases |s|
  {
    hide Feed;
    if s != [] {
      StateInjective(Feed(a, s[0]), Feed(b, s[0]), s[1..]);
      FeedInjective(a, b, s[0]);
    }
  }

  function Push(b: bv8, w: bv32): bv32 {
    Wide(b) | Up(w)
  }

  /** Up to four bytes as a little-endian word. */
  function Word(s: Bytes): bv32
    requires |s| <= 4
  {
    if s == [] then 0 else Push(s[0], Word(s[1..]))
  }

  /** The top `4 - n` bytes of `w` are zero. */
  predicate Fits(w: bv32, n: nat) {
    if n == 0 then w == 0
    else if n == 1 then w >> 8 == 0
    else if n == 2 then w >> 16 == 0
    else if n == 3 then w >> 24 == 0
    else true
  }

  lemma PushFits0(b: bv8, w: bv32) ensures Fits(w, 0) ==> Fits(Push(b, w), 1) {}
  lemma PushFits1(b: bv8, w: bv32) ensures Fits(w, 1) ==> Fits(Push(b, w), 2) {}
  lemma PushFits2(b: bv8, w: bv32) ensures Fits(w, 2) ==> Fits(Push(b, w), 3) {}
  lemma FitsUp0(w: bv32) ensures Fits(w, 0) ==> Fits(w, 3) {}
  lemma FitsUp1(w: bv32) ensures Fits(w, 1) ==> Fits(w, 3) {}
  lemma FitsUp2(w: bv32) ensures Fits(w, 2) ==> Fits(w, 3) {}
  lemma FitsFour(w: bv32) ensures Fits(w, 4) {}
  lemma FitsZero() ensures Fits(0, 0) {}

  lemma {:induction false} WordFits(s: Bytes)
    requires |s| <= 4
    ensures Fits(Word(s), |s|)
  {
    hide Fits, Push;
    if s == [] {
      FitsZero();
    } else {
      var w := Word(s[1..]);
      WordFits(s[1..]);
      PushFits0(s[0], w);
      PushFits1(s[0], w);
      PushFits2(s[0], w);
      FitsFour(Word(s));
    }
  }

  lemma WordFitsThree(s: Bytes)
    requires |s| <= 3
    ensures Fits(Word(s), 3)
  {
    hide *;
    WordFits(s);
    FitsUp0(Word(s));
    FitsUp1(Word(s));
    FitsUp2(Word(s));
  }

  lemma PushParts(b: bv8, w: bv32, b': bv8, w': bv32)
    requires Fits(w, 3) && Fits(w', 3) && Push(b, w) == Push(b', w')
    ensures w == w' && b == b'
  {
    PushTail(b, w);
    PushTail(b', w');
    PushHead(b, w);
    PushHead(b', w');
  }

  lemma PushTail(b: bv8, w: bv32)
    requires Fits(w, 3)
    ensures Down(Push(b, w)) == w
  {
  }

  lemma PushHead(b: bv8, w: bv32)
    ensures (Push(b, w) & 0xff) as bv8 == b
  {
  }

  lemma {:induction false} WordInjective(s: Bytes, t: Bytes)
    requires |s| == |t| <= 4 && Word(s) == Word(t)
    ensures s == t
  {
    hide Fits, Push;
    if s != [] {
      WordFitsThree(s[1..]);
      WordFitsThree(t[1..]);
      PushParts(s[0], Word(s[1..]), t[0], Word(t[1..]));
      WordInjective(s[1..], t[1..]);
      assert s == [s[0]] + s[1..] && t == [t[0]] + t[1..];
    }
  }

  lemma PushXor(c: bv32, b: bv8, w: bv32)
    ensures Xor(c, Push(b, w)) == Xor(Xor(c, Wide(b)), Up(w))
  {
  }

  lemma UpDown(w: bv32)
    requires Fits(w, 3)
    ensures Up(w) & 0xff == 0 && Down(Up(w)) == w
  {
  }

  lemma BitsUp(w: bv32)
    requires Fits(w, 3)
    ensures Bits(Up(w), 8) == w
  {
    hide *;
    UpDown(w);
    BitsShift(Up(w));
  }

  /** Up to four bytes enter the register as one word. */
  lemma {:induction false} StateWord(c: bv32, s: Bytes)
    requires |s| <= 4
    ensures State(c, s) == Bits(Xor(c, Word(s)), 8 * |s|)
    decreases |s|
  {
    hide Bit, Xor, Fits, Push, Up, Down, Wide;
    if s == [] {
      XorZero(c);
    } else {
      var b, w, r := Wide(s[0]), Word(s[1..]), 8 * (|s| - 1);
      WordFitsThree(s[1..]);
      StateWord(Feed(c, s[0]), s[1..]);
      assert State(c, s) == Bits(Xor(Bits(Xor(c, b), 8), w), r);
      BitsUp(w);
      BitsLinear(Xor(c, b), Up(w), 8);
      PushXor(c, s[0], w);
      BitsAdd(Xor(c, Word(s)), 8, r);
    }
  }

  /** Two registers fed different bytes of one length, at most four, differ. */
  lemma ShortBurst(c: bv32, x: Bytes, y: Bytes)
    requires |x| == |y| <= 4 && x != y
    ensures State(c, x) != State(c, y)
  {
    hide *;
    if State(c, x) == State(c, y) {
      StateWord(c, x);
      StateWord(c, y);
      BitsInjective(Xor(c, Word(x)), Xor(c, Word(y)), 8 * |x|);
      XorCancel(Word(x), Word(y), c);
      WordInjective(x, y);
    }
  }

  /** Any change confined to at most four consecutive bytes changes the CRC,
      at every length and position. */
  lemma BurstDetected(p: Bytes, x: Bytes, y: Bytes, q: Bytes)
    requires |x| == |y| <= 4 && x != y
    ensures Checksum(p + x + q) != Checksum(p + y + q)
  {
    hide State, Xor;
    var c := State(INIT, p);
    ShortBurst(c, x, y);
    StateAppend(INIT, p, x);
    StateAppend(INIT, p, y);
    StateAppend(INIT, p + x, q);
    StateAppend(INIT, p + y, q);
    if Checksum(p + x + q) == Checksum(p + y + q) {
      XorCancel(State(INIT, p + x + q), State(INIT, p + y + q), INIT);
      StateInjective(State(c, x), State(c, y), q);
    }
  }

  // ---- Slicing-by-8 ------------------------------------------------------------

  function Low(c: bv32): bv8 { (c & 0xff) as bv8 }

  function Byte(i: nat): bv8
    requires i < 256
  {
    i as bv8
  }

  /** Array index taken from the low byte of a register. */
  function Index(c: bv32): (i: nat)
    ensures i < 256 && Byte(i) == Low(c)
  {
    (c & 0xff) as nat
  }

  /** Entry `i` of table `s`, by the recurrence the tables are built with. */
  function Entry(s: nat, i: bv8): bv32 {
    if s == 0 then Bits(Wide(i), 8)
    else Xor(Entry(0, Low(Entry(s - 1, i))), Down(Entry(s - 1, i)))
  }

  function HighPart(c: bv32): bv32 { c & 0xffff_ff00 }

  lemma SplitLow(c: bv32)
    ensures c == Xor(Wide(Low(c)), HighPart(c))
    ensures HighPart(c) & 0xff == 0 && Down(HighPart(c)) == Down(c)
  {
  }

  lemma ByteLookup(c: bv32)
    ensures Bits(c, 8) == Xor(Entry(0, Low(c)), Down(c))
  {
    hide Bits, Xor, Wide, Low, Down, HighPart;
    SplitLow(c);
    BitsLinear(Wide(Low(c)), HighPart(c), 8);
    BitsShift(HighPart(c));
  }

  lemma {:induction false} EntryBits(s: nat, i: bv8)
    ensures Entry(s, i) == Bits(Wide(i), 8 * (s + 1))
    decreases s
  {
    hide Bits, Xor, Wide, Low, Down;
    if s > 0 {
      EntryBits(s - 1, i);
      ByteLookup(Entry(s - 1, i));
      BitsAdd(Wide(i), 8 * s, 8);
    }
  }

  function Zeros(n: nat): (s: Bytes)
    ensures |s| == n
  {
    seq(n, _ => 0)
  }

  lemma {:induction false} StateZeros(c: bv32, n: nat)
    ensures State(c, Zeros(n)) == Bits(c, 8 * n)
    decreases n
  {
    hide Bit, Xor, Wide;
    if n > 0 {
      assert Zeros(n)[0] == 0 && Zeros(n)[1..] == Zeros(n - 1);
      WideZero();
      XorZero(c);
      StateZeros(Bits(c, 8), n - 1);
      BitsAdd(c, 8, 8 * (n - 1));
    }
  }

  lemma WideZero()
    ensures Wide(0) == 0
  {
  }

  /** Table `s`, entry `i`: the register after byte `i` and `s` zero bytes. */
  lemma EntryMeaning(s: nat, i: bv8)
    ensures Entry(s, i) == State(0, [i] + Zeros(s))
  {
    hide Bits, Xor, Wide, Entry;
    EntryBits(s, i);
    StateAppend(0, [i], Zeros(s));
    assert State(0, [i]) == State(Feed(0, i), []);
    XorZero(Wide(i));
    StateZeros(Bits(Wide(i), 8), s);
    BitsAdd(Wide(i), 8, 8 * s);
  }

  lemma {:induction false} BitsZero(n: nat)
    ensures Bits(0, n) == 0
    decreases n
  {
    if n > 0 {
      BitZero();
      hide Bit;
      BitsZero(n - 1);
    }
  }

  lemma BitZero()
    ensures Bit(0) == 0
  {
  }

  /** The table entries of the bytes of `s`, `k` more bytes still to come. */
  function Lookups(s: Bytes, k: nat): bv32 {
    if s == [] then 0 else Xor(Entry(|s| - 1 + k, s[0]), Lookups(s[1..], k))
  }

  lemma BitsPush(b: bv8, w: bv32, m: nat)
    requires Fits(w, 3)
    ensures Bits(Push(b, w), 8 + m) == Xor(Bits(Wide(b), 8 + m), Bits(w, m))
  {
    hide *;
    PushXor(0, b, w);
    XorZero(Push(b, w));
    XorZero(Wide(b));
    BitsLinear(Wide(b), Up(w), 8 + m);
    BitsAdd(Up(w), 8, m);
    BitsUp(w);
  }

  lemma {:induction false} WordLookups(s: Bytes, k: nat)
    requires |s| <= 4
    ensures Bits(Word(s), 8 * (|s| + k)) == Lookups(s, k)
    decreases |s|
  {
    hide Bits, Xor, Wide, Push, Entry, Fits;
    if s == [] {
      BitsZero(8 * k);
    } else {
      WordFitsThree(s[1..]);
      BitsPush(s[0], Word(s[1..]), 8 * (|s| - 1 + k));
      EntryBits(|s| - 1 + k, s[0]);
      WordLookups(s[1..], k);
    }
  }

  function Split(x: bv32): (s: Bytes)
    ensures |s| == 4
  {
    [Low(x), Low(x >> 8), Low(x >> 16), Low(x >> 24)]
  }

  lemma WordFour(a: bv8, b: bv8, c: bv8, d: bv8)
    ensures Word([a, b, c, d]) == Push(a, Push(b, Push(c, Push(d, 0))))
  {
    hide Push;
    assert [a, b, c, d][1..] == [b, c, d] && [b, c, d][1..] == [c, d] && [c, d][1..] == [d];
    assert Word([d]) == Push(d, Word([]));
    assert Word([c, d]) == Push(c, Word([d]));
    assert Word([b, c, d]) == Push(b, Word([c, d]));
  }

  lemma SplitWord(x: bv32)
    ensures Word(Split(x)) == x
  {
    hide Push, Low;
    WordFour(Low(x), Low(x >> 8), Low(x >> 16), Low(x >> 24));
    SplitPush(x);
  }

  lemma SplitPush(x: bv32)
    ensures Push(Low(x), Push(Low(x >> 8), Push(Low(x >> 16), Push(Low(x >> 24), 0)))) == x
  {
  }

  /** Eight bytes at once: one lookup per byte, combined by exclusive or. */
  lemma EightBytes(c: bv32, w: Bytes)
    requires |w| == 8
    ensures State(c, w) == Xor(Lookups(Split(Xor(c, Word(w[..4]))), 4), Lookups(w[4..], 0))
  {
    hide *;
    var lo := Xor(c, Word(w[..4]));
    assert w == w[..4] + w[4..];
    StateAppend(c, w[..4], w[4..]);
    StateWord(c, w[..4]);
    StateWord(Bits(lo, 32), w[4..]);
    BitsLinear(Bits(lo, 32), Word(w[4..]), 32);
    BitsAdd(lo, 32, 32);
    SplitWord(lo);
    WordLookups(Split(lo), 4);
    WordLookups(w[4..], 0);
  }

  // ---- The table builder ---------------------------------------------------------

  lemma NatWide(i: nat)
    requires i < 256
    ensures i as bv32 == Wide(Byte(i))
  {
  }

  method FirstEntry(i: nat) returns (c: bv32)
    requires i < 256
    ensures c == Entry(0, Byte(i))
  {
    hide Bit, Wide, Byte;
    c := i as bv32;
    NatWide(i);
    var k := 0;
    while k < 8
      invariant 0 <= k <= 8
      invariant Bits(c, 8 - k) == Bits(Wide(Byte(i)), 8)
    {
      c := Bit(c);
      k := k + 1;
    }
  }

  method NextRow(t: array2<bv32>, s: nat)
    requires t.Length0 == 8 && t.Length1 == 256 && 1 <= s < 8
    requires forall j: nat | j < 256 :: t[0, j] == Entry(0, Byte(j)) && t[s - 1, j] == Entry(s - 1, Byte(j))
    modifies t
    ensures forall j: nat | j < 256 :: t[s, j] == Entry(s, Byte(j))
    ensures forall r: nat, j: nat | r < s && j < 256 :: t[r, j] == old(t[r, j])
  {
    hide Bits, Wide, Byte, Xor, Down, Low;
    var i := 0;
    while i < 256
      invariant 0 <= i <= 256
      invariant forall r: nat, j: nat | r < s && j < 256 :: t[r, j] == old(t[r, j])
      invariant forall j: nat | j < i :: t[s, j] == Entry(s, Byte(j))
    {
      var p := t[s - 1, i];
      t[s, i] := Xor(t[0, Index(p)], Down(p));
      i := i + 1;
    }
  }

  method MakeTables() returns (t: array2<bv32>)
    ensures fresh(t) && t.Length0 == 8 && t.Length1 == 256
    ensures forall s: nat, i: nat | s < 8 && i < 256 :: t[s, i] == Entry(s, Byte(i))
  {
    hide *;
    t := new bv32[8, 256];
    var i := 0;
    while i < 256
      invariant 0 <= i <= 256
      invariant forall j: nat | j < i :: t[0, j] == Entry(0, Byte(j))
    {
      var c := FirstEntry(i);
      t[0, i] := c;
      i := i + 1;
    }
    var s := 1;
    while s < 8
      invariant 1 <= s <= 8
      invariant forall r: nat, j: nat | r < s && j < 256 :: t[r, j] == Entry(r, Byte(j))
    {
      NextRow(t, s);
      s := s + 1;
    }
  }

  // ---- The streaming hasher ------------------------------------------------------

  /** The tables as the program holds them; `MakeTables` builds these values. */
  const TABLES: seq<seq<bv32>> :=
    [Table(0), Table(1), Table(2), Table(3), Table(4), Table(5), Table(6), Table(7)]

  function Table(s: nat): (t: seq<bv32>)
    ensures |t| == 256 && forall i: nat | i < 256 :: t[i] == Entry(s, Byte(i))
  {
    seq(256, i requires 0 <= i < 256 => Entry(s, Byte(i)))
  }

  function Lookup(s: nat, c: bv32): (r: bv32)
    requires s < 8
    ensures r == Entry(s, Low(c))
  {
    TABLES[s][Index(c)]
  }

  lemma XorChain(a: bv32, b: bv32, c: bv32, d: bv32, e: bv32, f: bv32, g: bv32, h: bv32)
    ensures Xor(Xor(a, Xor(b, Xor(c, Xor(d, 0)))), Xor(e, Xor(f, Xor(g, Xor(h, 0)))))
         == Xor(Xor(Xor(Xor(Xor(Xor(Xor(a, b), c), d), e), f), g), h)
  {
    hide Xor;
    XorZero(d);
    XorZero(h);
    XorAssoc(e, f, Xor(g, h));
    XorAssoc(Xor(e, f), g, h);
    XorAssoc(a, b, Xor(c, d));
    XorAssoc(Xor(a, b), c, d);
    var p := Xor(Xor(Xor(a, b), c), d);
    XorAssoc(p, e, Xor(f, Xor(g, h)));
    XorAssoc(Xor(p, e), f, Xor(g, h));
    XorAssoc(Xor(Xor(p, e), f), g, h);
  }

  class Crc32 {
    var state: bv32

    constructor ()
      ensures state == INIT
    {
      state := 0xffff_ffff;
    }

    /** Eight bytes per step, then the remainder byte by byte. */
    method Update(data: Bytes)
      modifies this
      ensures state == State(old(state), data)
    {
      hide Xor, Up, Down, Low, Entry, Word, Bits, Lookups, Feed, Wide;
      var c := state;
      var n := 0;
      while n + 8 <= |data|
        invariant 0 <= n <= |data|
        invariant c == State(old(state), data[..n])
      {
        var w := data[n..n + 8];
        c := SliceStep(c, w);
        assert data[..n + 8] == data[..n] + w;
        StateAppend(old(state), data[..n], w);
        n := n + 8;
      }
      while n < |data|
        invariant 0 <= n <= |data|
        invariant c == State(old(state), data[..n])
      {
        var x := Xor(c, Wide(data[n]));
        StateAppend(old(state), data[..n], [data[n]]);
        assert data[..n + 1] == data[..n] + [data[n]];
        RemainderStep(c, data[n]);
        c := Xor(Lookup(0, x), Down(c));
        n := n + 1;
      }
      assert data[..n] == data;
      state := c;
    }

    function Finish(): (r: bv32)
      reads this
      ensures forall s :: state == State(INIT, s) ==> r == Checksum(s)
    {
      Xor(state, 0xffff_ffff)
    }
  }

  lemma RemainderStep(c: bv32, b: bv8)
    ensures State(c, [b]) == Xor(Entry(0, Low(Xor(c, Wide(b)))), Down(c))
  {
    hide Bits, Xor, Wide, Low, Down, Entry;
    var x := Xor(c, Wide(b));
    ByteLookup(x);
    DownXor(c, b);
    assert State(c, [b]) == State(Feed(c, b), []);
  }

  lemma DownXor(c: bv32, b: bv8)
    ensures Down(Xor(c, Wide(b))) == Down(c)
  {
  }

  lemma LookupsFour(s: Bytes, k: nat)
    requires |s| == 4
    ensures Lookups(s, k)
         == Xor(Entry(3 + k, s[0]), Xor(Entry(2 + k, s[1]), Xor(Entry(1 + k, s[2]), Xor(Entry(k, s[3]), 0))))
  {
    hide Entry, Xor;
    assert s[1..][1..] == s[2..] && s[2..][1..] == s[3..] && s[3..][1..] == [];
    assert Lookups(s[3..], k) == Xor(Entry(k, s[3]), Lookups([], k));
    assert Lookups(s[2..], k) == Xor(Entry(1 + k, s[2]), Lookups(s[3..], k));
    assert Lookups(s[1..], k) == Xor(Entry(2 + k, s[1]), Lookups(s[2..], k));
  }

  /** `u32::from_le_bytes`. */
  function Le32(a: bv8, b: bv8, c: bv8, d: bv8): bv32 {
    Wide(a) | (Wide(b) << 8) | (Wide(c) << 16) | (Wide(d) << 24)
  }

  lemma Le32Push(a: bv8, b: bv8, c: bv8, d: bv8)
    ensures Le32(a, b, c, d) == Push(a, Push(b, Push(c, Push(d, 0))))
  {
  }

  lemma Le32Word(w: Bytes)
    requires |w| == 4
    ensures Le32(w[0], w[1], w[2], w[3]) == Word(w)
  {
    hide Push, Le32;
    WordFour(w[0], w[1], w[2], w[3]);
    assert w == [w[0], w[1], w[2], w[3]];
    Le32Push(w[0], w[1], w[2], w[3]);
  }

  lemma LowWide(b: bv8)
    ensures Low(Wide(b)) == b
  {
  }

  lemma SliceLookups(lo: bv32, w: Bytes)
    requires |w| == 8
    ensures Xor(Lookups(Split(lo), 4), Lookups(w[4..], 0))
         == Xor(Xor(Xor(Xor(Xor(Xor(Xor(Entry(7, Low(lo)), Entry(6, Low(lo >> 8))), Entry(5, Low(lo >> 16))),
                Entry(4, Low(lo >> 24))), Entry(3, w[4])), Entry(2, w[5])), Entry(1, w[6])), Entry(0, w[7]))
  {
    hide Xor, Low, Entry, Lookups;
    LookupsFour(Split(lo), 4);
    LookupsFour(w[4..], 0);
    XorChain(Entry(7, Low(lo)), Entry(6, Low(lo >> 8)), Entry(5, Low(lo >> 16)), Entry(4, Low(lo >> 24)),
             Entry(3, w[4]), Entry(2, w[5]), Entry(1, w[6]), Entry(0, w[7]));
  }

  /** The body of the eight-byte loop. */
  method SliceStep(c: bv32, w: Bytes) returns (r: bv32)
    requires |w| == 8
    ensures r == State(c, w)
  {
    hide *;
    var lo := Xor(Le32(w[0], w[1], w[2], w[3]), c);
    r := Xor(Xor(Xor(Xor(Xor(Xor(Xor(
      Lookup(7, lo), Lookup(6, lo >> 8)), Lookup(5, lo >> 16)), Lookup(4, lo >> 24)),
      Lookup(3, Wide(w[4]))), Lookup(2, Wide(w[5]))), Lookup(1, Wide(w[6]))), Lookup(0, Wide(w[7])));
    LowWide(w[4]);
    LowWide(w[5]);
    LowWide(w[6]);
    LowWide(w[7]);
    EightBytes(c, w);
    Le32Word(w[..4]);
    XorComm(c, Le32(w[0], w[1], w[2], w[3]));
    SliceLookups(lo, w);
  }

  lemma XorComm(a: bv32, b: bv32)
    ensures Xor(a, b) == Xor(b, a)
  {
  }

  /** One-shot checksum. */
  method ComputeChecksum(data: Bytes) returns (r: bv32)
    ensures r == Checksum(data)
  {
    var h := new Crc32();
    h.Update(data);
    r := h.Finish();
  }

  // ---- Four bytes reach any register -----------------------------------------------

  /** One shift backwards. */
  function Unbit(c: bv32): bv32 {
    if c >> 31 != 0 then ((c ^ POLY) << 1) | 1 else c << 1
  }

  lemma BitUnbit(c: bv32)
    ensures Bit(Unbit(c)) == c
  {
    if c >> 31 != 0 {
      TopCleared(c);
      OddBack(c ^ POLY);
    } else {
      EvenBack(c);
    }
  }

  lemma TopCleared(c: bv32)
    requires c >> 31 != 0
    ensures (c ^ POLY) >> 31 == 0 && POLY ^ (c ^ POLY) == c
  {
  }

  lemma OddBack(d: bv32)
    requires d >> 31 == 0
    ensures ((d << 1) | 1) >> 1 == d && ((d << 1) | 1) & 1 != 0
  {
  }

  lemma EvenBack(d: bv32)
    requires d >> 31 == 0
    ensures (d << 1) >> 1 == d && (d << 1) & 1 == 0
  {
  }

  function Unbits(c: bv32, n: nat): bv32 {
    if n == 0 then c else Unbit(Unbits(c, n - 1))
  }

  lemma {:induction false} BitsUnbits(c: bv32, n: nat)
    ensures Bits(Unbits(c, n), n) == c
    decreases n
  {
    hide Bit, Unbit;
    if n > 0 {
      BitUnbit(Unbits(c, n - 1));
      BitsUnbits(c, n - 1);
    }
  }

  /** From every register some four bytes lead to every other. */
  lemma Reach(from: bv32, to: bv32) returns (w: Bytes)
    ensures |w| == 4 && State(from, w) == to
  {
    hide Bits, Unbits, State, Xor, Split, Word;
    var v := Unbits(to, 32);
    w := Split(Xor(from, v));
    SplitWord(Xor(from, v));
    StateWord(from, w);
    XorTwice(from, v);
    BitsUnbits(to, 32);
  }

  lemma XorTwice(a: bv32, b: bv32)
    ensures Xor(a, Xor(a, b)) == b
  {
  }

  /** A changed byte whose effect, four bytes on, leaves the lowest byte of the
      register alone. */
  lemma FiveBytesOn()
    ensures Bits(0x97, 8) == 0x6e6b_06e7 && Bits(0x6e6b_06e7, 32) == 0x6326_fb00
  {
    hide Bits;
    BitsEight(0x97);
    BitsEight(0x6e6b_06e7);
    BitsEight(0x3e00_1cdd);
    BitsEight(0xf85c_ae75);
    BitsEight(0x2097_d91d);
    BitsAdd(0x6e6b_06e7, 8, 24);
    BitsAdd(0x3e00_1cdd, 8, 16);
    BitsAdd(0xf85c_ae75, 8, 8);
  }

  lemma StateDiffers(c: bv32, d: bv32, w: Bytes)
    requires |w| == 4
    ensures State(Xor(c, d), w) == Xor(State(c, w), Bits(d, 32))
  {
    hide State, Bits, Xor, Word;
    StateWord(c, w);
    StateWord(Xor(c, d), w);
    XorAssoc(c, d, Word(w));
    XorComm(d, Word(w));
    XorAssoc(c, Word(w), d);
    BitsLinear(Xor(c, Word(w)), d, 32);
  }

  /** Two lists that differ in one byte, with checksums that differ above the lowest
      byte only. */
  lemma NearMiss(s: Bytes) returns (w: Bytes)
    ensures |w| == 4 && Checksum(s + [0] + w) == 0 && Checksum(s + [0x97] + w) == 0x6326_fb00
  {
    hide State, Bits, Word;
    var from := State(INIT, s);
    w := Reach(Feed(from, 0), INIT);
    StateAppend(INIT, s + [0], w);
    StateAppend(INIT, s, [0]);
    StateAppend(INIT, s + [0x97], w);
    StateAppend(INIT, s, [0x97]);
    StateOne(from, 0);
    StateOne(from, 0x97);
    BitsLinear(from, 0x97, 8);
    FiveBytesOn();
    StateDiffers(Feed(from, 0), 0x6e6b_06e7, w);
    WideValues();
  }

  lemma StateOne(c: bv32, b: bv8)
    ensures State(c, [b]) == Feed(c, b)
  {
    hide Feed;
    assert [b][1..] == [];
  }

  lemma WideValues()
    ensures Wide(0) == 0 && Wide(0x97) == 0x97
  {
  }

  // ---- The starting value and the complement ------------------------------------

  lemma StateNext(c: bv32, b: bv8, s: Bytes)
    ensures State(c, [b] + s) == State(Feed(c, b), s)
  {
    hide Feed;
    assert ([b] + s)[1..] == s;
  }

  lemma FirstDigits()
    ensures Feed(INIT, 0x31) == 0x7c23_1048 && Feed(0x7c23_1048, 0x32) == 0xb0ac_bb32 && Feed(0xb0ac_bb32, 0x33) == 0x77b7_9c2d
  {
    hide Bits;
    BitsEight(0xffff_ffce);
    BitsEight(0x7c23_107a);
    BitsEight(0xb0ac_bb01);
  }

  lemma MiddleDigits()
    ensures Feed(0x77b7_9c2d, 0x34) == 0x641c_1f5c && Feed(0x641c_1f5c, 0x35) == 0x340a_c5e3 && Feed(0x340a_c5e3, 0x36) == 0xf68d_2c9e
  {
    hide Bits;
    BitsEight(0x77b7_9c19);
    BitsEight(0x641c_1f69);
    BitsEight(0x340a_c5d5);
  }

  lemma LastDigits()
    ensures Feed(0xf68d_2c9e, 0x37) == 0xaffc_9660 && Feed(0xaffc_9660, 0x38) == 0x651f_2550 && Feed(0x651f_2550, 0x39) == 0x340b_c6d9
  {
    hide Bits;
    BitsEight(0xf68d_2ca9);
    BitsEight(0xaffc_9658);
    BitsEight(0x651f_2569);
  }

  const DIGITS: Bytes := [0x31, 0x32, 0x33, 0x34, 0x35, 0x36, 0x37, 0x38, 0x39]

  /** The published check value: the checksum of the digits one to nine in ASCII. */
  lemma CheckValue()
    ensures Checksum(DIGITS) == 0xcbf4_3926
  {
    hide Feed, State;
    FirstDigits();
    MiddleDigits();
    LastDigits();
    var d := DIGITS;
    StateFrom(INIT, d, 0);
    StateFrom(0x7c23_1048, d, 1);
    StateFrom(0xb0ac_bb32, d, 2);
    StateFrom(0x77b7_9c2d, d, 3);
    StateFrom(0x641c_1f5c, d, 4);
    StateFrom(0x340a_c5e3, d, 5);
    StateFrom(0xf68d_2c9e, d, 6);
    StateFrom(0xaffc_9660, d, 7);
    StateFrom(0x651f_2550, d, 8);
    StateNothing(0x340b_c6d9, d[9..]);
    assert d[0..] == d;
  }

  lemma StateFrom(c: bv32, s: Bytes, k: nat)
    requires k < |s|
    ensures State(c, s[k..]) == State(Feed(c, s[k]), s[k + 1..])
  {
    hide Feed;
    assert s[k..][1..] == s[k + 1..];
  }

  lemma StateNothing(c: bv32, s: Bytes)
    requires s == []
    ensures State(c, s) == c
  {
  }

  lemma FirstZero()
    ensures Feed(INIT, 0) == 0x2dfd_1072
  {
    hide Bits;
    BitsEight(INIT);
  }

  /** A zero byte in front is seen: the register does not start at zero. */
  lemma LeadingZeroSeen(s: Bytes)
    ensures Checksum([0] + s) != Checksum(s)
  {
    hide State, Feed, Xor;
    FirstZero();
    StateNext(INIT, 0, s);
    if Checksum([0] + s) == Checksum(s) {
      XorCancel(State(INIT, [0] + s), State(INIT, s), INIT);
      StateInjective(Feed(INIT, 0), INIT, s);
    }
  }

  lemma AllOnesOn()
    ensures Bits(INIT, 32) == 0xdebb_20e3
  {
    hide Bits;
    BitsEight(INIT);
    BitsEight(0x2dfd_1072);
    BitsEight(0xbe26_ed00);
    BitsEight(0x00be_26ed);
    BitsAdd(INIT, 8, 24);
    BitsAdd(0x2dfd_1072, 8, 16);
    BitsAdd(0xbe26_ed00, 8, 8);
  }

  /** Whatever the bytes, followed by their own checksum they have one and the same
      checksum. */
  lemma OwnChecksumBehind(s: Bytes)
    ensures Checksum(s + Split(Checksum(s))) == 0x2144_df1c
  {
    hide State, Bits, Split, Word, Xor;
    var c := State(INIT, s);
    StateAppend(INIT, s, Split(Checksum(s)));
    SplitWord(Checksum(s));
    StateWord(c, Split(Checksum(s)));
    XorTwice(c, INIT);
    AllOnesOn();
    FinalOnes();
  }

  lemma FinalOnes()
    ensures Xor(0xdebb_20e3, INIT) == 0x2144_df1c
  {
  }

  // ---- The mask form of the datagram protocol ------------------------------------

  /** Negating the low bit spreads it over the whole word. */
  lemma MaskAll(p: bv32, x: bv32)
    requires x == 0 || x == 1
    ensures p & (0 - x) == if x == 0 then 0 else p
  {
  }

  lemma MaskBit(c: bv32)
    ensures (c >> 1) ^ (POLY & (0 - (c & 1))) == Bit(c)
  {
    LowBit(c);
    MaskAll(POLY, c & 1);
    ShiftNone(c);
  }

  lemma ShiftNone(c: bv32)
    ensures (c >> 1) ^ 0 == c >> 1
    ensures (c >> 1) ^ POLY == POLY ^ (c >> 1)
  {
  }

  method MaskStep(c: bv32) returns (r: bv32)
    ensures r == Bit(c)
  {
    var mask := 0 - (c & 1);
    r := (c >> 1) ^ (0xedb8_8320 & mask);
    MaskBit(c);
  }

  method MaskCrc32(bytes: Bytes) returns (r: bv32)
    ensures r == Checksum(bytes)
  {
    hide Bit, Xor, Wide;
    var crc := INIT;
    var i := 0;
    while i < |bytes|
      invariant 0 <= i <= |bytes|
      invariant crc == State(INIT, bytes[..i])
    {
      ghost var before := crc;
      crc := Xor(crc, Wide(bytes[i]));
      var k := 0;
      while k < 8
        invariant 0 <= k <= 8
        invariant Bits(crc, 8 - k) == Feed(before, bytes[i])
      {
        crc := MaskStep(crc);
        k := k + 1;
      }
      StateAppend(INIT, bytes[..i], [bytes[i]]);
      assert bytes[..i + 1] == bytes[..i] + [bytes[i]];
      assert State(before, [bytes[i]]) == State(Feed(before, bytes[i]), []);
      i := i + 1;
    }
    assert bytes[..i] == bytes;
    r := Complement(crc);
  }

  method Complement(c: bv32) returns (r: bv32)
    ensures r == Xor(c, INIT)
  {
    r := !c;
  }

  // ---- Bytes as numbers ------------------------------------------------------------

  lemma NumberInjective(a: bv32, b: bv32)
    requires a as nat == b as nat
    ensures a == b
  {
    assert (a as nat) as bv32 == a && (b as nat) as bv32 == b;
  }
}
