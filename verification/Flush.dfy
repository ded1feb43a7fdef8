/** Incremental UTF-8 over tokens that may split characters. */
module Flush {
  import opened Wire
  import opened Unicode

  /** What a decoder sees at the front of the bytes: a whole character, an invalid
      byte, or the beginning of a character whose rest has not arrived. */
  datatype Front = Whole(size: nat) | Invalid | Short

  predicate Continuation(b: Byte) {
    0x80 <= b < 0xC0
  }

  /** Length of the sequence a first byte announces; zero if it cannot be one. */
  function Width(b: Byte): (w: nat)
    ensures w <= 4
  {
    if b < 0x80 then 1 else if 0xC2 <= b <= 0xDF then 2 else if 0xE0 <= b <= 0xEF then 3 else if 0xF0 <= b <= 0xF4 then 4 else 0
  }

  /** The range of second bytes, which excludes overlong forms and surrogates. */
  predicate SecondOk(first: Byte, b: Byte) {
    if first == 0xE0 then 0xA0 <= b < 0xC0
    else if first == 0xED then 0x80 <= b < 0xA0
    else if first == 0xF0 then 0x90 <= b < 0xC0
    else if first == 0xF4 then 0x80 <= b < 0x90
    else Continuation(b)
  }

  function FrontOf(b: Bytes): (f: Front)
    requires b != []
    ensures f.Whole? ==> 1 <= f.size <= |b| && f.size <= 4
  {
    var w := Width(b[0]);
    if w == 0 then Invalid
    else if w == 1 then Whole(1)
    else if |b| == 1 then Short
    else if !SecondOk(b[0], b[1]) then Invalid
    else if w == 2 then Whole(2)
    else if |b| == 2 then Short
    else if !Continuation(b[2]) then Invalid
    else if w == 3 then Whole(3)
    else if |b| == 3 then Short
    else if !Continuation(b[3]) then Invalid
    else Whole(4)
  }

  /** Numbers formed from a first byte and continuation bytes. */
  function Two(a: int, b: int): int { (a - 0xC0) * 64 + (b - 0x80) }
  function Three(a: int, b: int, c: int): int { (a - 0xE0) * 4096 + (b - 0x80) * 64 + (c - 0x80) }
  function Four(a: int, b: int, c: int, d: int): int { (a - 0xF0) * 262144 + (b - 0x80) * 4096 + (c - 0x80) * 64 + (d - 0x80) }

  /** The character at the front. */
  function CharAt(b: Bytes): (c: Char)
    requires b != [] && FrontOf(b).Whole?
  {
    var n := FrontOf(b).size;
    if n == 1 then b[0] else if n == 2 then Two(b[0], b[1]) else if n == 3 then Three(b[0], b[1], b[2]) else Four(b[0], b[1], b[2], b[3])
  }

  /** Base-64 digits of a number. */
  lemma Digits(a: nat, b: nat, c: nat, d: nat)
    requires b < 64 && c < 64 && d < 64
    ensures var v := a * 262144 + b * 4096 + c * 64 + d;
      v % 64 == d && v / 64 % 64 == c && v / 4096 % 64 == b && v / 262144 == a && v / 4096 == a * 64 + b && v / 64 == a * 4096 + b * 64 + c
  {
    var v := a * 262144 + b * 4096 + c * 64 + d;
    Digit(a * 4096 + b * 64 + c, d);
    Digit(a * 64 + b, c);
    Digit(a, b);
    TwoDigits(v);
    TwoDigits(v / 64);
  }

  lemma Digit(q: nat, d: nat)
    requires d < 64
    ensures (q * 64 + d) / 64 == q && (q * 64 + d) % 64 == d
  {
  }

  lemma TwoDigits(v: nat)
    ensures v / 64 / 64 == v / 4096 && v / 64 / 4096 == v / 262144
  {
  }

  lemma Digitwise(v: nat)
    ensures v == v / 262144 * 262144 + v / 4096 % 64 * 4096 + v / 64 % 64 * 64 + v % 64
    ensures v / 4096 == v / 262144 * 64 + v / 4096 % 64 && v / 64 == v / 4096 * 64 + v / 64 % 64
  {
    var a := v / 64;
    var b := a / 64;
    assert v == a * 64 + v % 64 && a == b * 64 + a % 64;
    assert v / 4096 == b && b / 64 == v / 262144;
  }

  /** Decoding the front gives back exactly its bytes. */
  lemma FrontBytes(b: Bytes)
    requires b != [] && FrontOf(b).Whole?
    ensures Utf8(CharAt(b)) == b[..FrontOf(b).size]
  {
    var n, c := FrontOf(b).size, CharAt(b);
    if n == 2 {
      Digits(0, 0, b[0] - 0xC0, b[1] - 0x80);
    } else if n == 3 {
      Digits(0, b[0] - 0xE0, b[1] - 0x80, b[2] - 0x80);
    } else if n == 4 {
      Digits(b[0] - 0xF0, b[1] - 0x80, b[2] - 0x80, b[3] - 0x80);
    }
  }

  /** An encoded character is recognized whole, whatever follows. */
  lemma FrontOfChar(c: Char, rest: Bytes)
    ensures FrontOf(Utf8(c) + rest) == Whole(|Utf8(c)|) && CharAt(Utf8(c) + rest) == c
  {
    if c < 0x80 {
    } else if c < 0x800 {
      FrontOfTwo(c, rest);
    } else if c < 0x1_0000 {
      FrontOfThree(c, rest);
    } else {
      FrontOfFour(c, rest);
    }
  }

  lemma FrontOfTwo(c: Char, rest: Bytes)
    requires 0x80 <= c < 0x800
    ensures FrontOf(Utf8(c) + rest) == Whole(2) && CharAt(Utf8(c) + rest) == c
  {
    Digitwise(c);
    var x, y := c / 64, c % 64;
    assert Utf8(c) == [0xC0 + x, 0x80 + y] && 2 <= x < 32;
    assert (Utf8(c) + rest)[0] == 0xC0 + x && (Utf8(c) + rest)[1] == 0x80 + y;
  }

  lemma FrontOfThree(c: Char, rest: Bytes)
    requires 0x800 <= c < 0x1_0000
    ensures FrontOf(Utf8(c) + rest) == Whole(3) && CharAt(Utf8(c) + rest) == c
  {
    Digitwise(c);
    var x, y, z := c / 4096, c / 64 % 64, c % 64;
    assert Utf8(c) == [0xE0 + x, 0x80 + y, 0x80 + z] && x < 16 && c == x * 4096 + y * 64 + z;
    var b := Utf8(c) + rest;
    assert b[0] == 0xE0 + x && b[1] == 0x80 + y && b[2] == 0x80 + z;
  }

  lemma FrontOfFour(c: Char, rest: Bytes)
    requires 0x1_0000 <= c
    ensures FrontOf(Utf8(c) + rest) == Whole(4) && CharAt(Utf8(c) + rest) == c
  {
    Digitwise(c);
    var w, x, y, z := c / 262144, c / 4096 % 64, c / 64 % 64, c % 64;
    assert Utf8(c) == [0xF0 + w, 0x80 + x, 0x80 + y, 0x80 + z] && w < 5 && c == w * 262144 + x * 4096 + y * 64 + z;
    var b := Utf8(c) + rest;
    assert b[0] == 0xF0 + w && b[1] == 0x80 + x && b[2] == 0x80 + y && b[3] == 0x80 + z;
  }

  /** More bytes never change a decision once made. */
  lemma FrontStable(a: Bytes, b: Bytes)
    requires a != [] && FrontOf(a) != Short
    ensures FrontOf(a + b) == FrontOf(a)
    ensures FrontOf(a).Whole? ==> CharAt(a + b) == CharAt(a)
  {
  }

  /** The bytes filled up with the least continuation their front allows. */
  function Full(b: Bytes): (f: Bytes)
    requires b != []
    ensures |f| == 4
  {
    var second: Byte := if |b| > 1 then b[1] else if b[0] == 0xE0 then 0xA0 else if b[0] == 0xF0 then 0x90 else 0x80;
    var third: Byte := if |b| > 2 then b[2] else 0x80;
    [b[0], second, third, 0x80]
  }

  /** A character that begins with these bytes. */
  function Completion(b: Bytes): (c: Char)
    requires b != [] && FrontOf(b) == Short
  {
    FullIsWhole(b);
    CharAt(Full(b))
  }

  ghost predicate StartsChar(b: Bytes, c: Char) {
    |b| < |Utf8(c)| && b == Utf8(c)[..|b|]
  }

  /** The incomplete case is exactly a proper, non-empty prefix (so at most three
      bytes) of some well-formed sequence. */
  lemma ShortIff(b: Bytes)
    requires b != []
    ensures FrontOf(b) == Short <==> exists c: Char :: StartsChar(b, c)
    ensures FrontOf(b) == Short ==> |b| <= 3
  {
    if FrontOf(b) == Short {
      ShortCompletes(b);
    }
    forall c: Char | StartsChar(b, c) ensures FrontOf(b) == Short {
      StartIsShort(b, c);
    }
  }

  lemma ShortCompletes(b: Bytes)
    requires b != [] && FrontOf(b) == Short
    ensures StartsChar(b, Completion(b)) && |b| <= 3
  {
    hide Utf8, CharAt;
    FullIsWhole(b);
    FrontBytes(Full(b));
    assert Full(b)[..|b|] == b;
    assert Full(b)[..FrontOf(Full(b)).size][..|b|] == Full(b)[..|b|];
  }

  lemma FullIsWhole(b: Bytes)
    requires b != [] && FrontOf(b) == Short
    ensures |b| <= 3 && FrontOf(Full(b)).Whole? && FrontOf(Full(b)).size > |b|
    ensures forall i | 0 <= i < |b| :: Full(b)[i] == b[i]
  {
  }

  /** A proper prefix leaves the decision open. */
  lemma StartIsShort(b: Bytes, c: Char)
    requires b != [] && StartsChar(b, c)
    ensures FrontOf(b) == Short
  {
    hide CharAt, Utf8;
    FrontOfChar(c, []);
    assert Utf8(c) + [] == Utf8(c);
    var rest := Utf8(c)[|b|..];
    assert b + rest == Utf8(c);
    Decided(b, rest);
  }

  lemma Decided(b: Bytes, rest: Bytes)
    requires b != []
    ensures FrontOf(b) != Short ==> FrontOf(b + rest) == FrontOf(b)
    ensures FrontOf(b).Whole? ==> FrontOf(b).size <= |b|
  {
    if FrontOf(b) != Short {
      FrontStable(b, rest);
    }
  }

  // ---- Flushing -----------------------------------------------------------------------------

  /** Text moved out and bytes kept. */
  function Flushed(p: Bytes): (r: (Text, Bytes))
    decreases |p|
  {
    if p == [] then ([], [])
    else
      match FrontOf(p)
      case Whole(n) => var (t, q) := Flushed(p[n..]); ([CharAt(p)] + t, q)
      case Invalid => Flushed(p[1..])
      case Short => ([], p)
  }

  /** How far `from_utf8` finds the bytes valid. */
  function ValidUpTo(p: Bytes): (n: nat)
    ensures n <= |p|
    decreases |p|
  {
    if p != [] && FrontOf(p).Whole? then FrontOf(p).size + ValidUpTo(p[FrontOf(p).size..]) else 0
  }

  /** The valid prefix as text. */
  function Valid(p: Bytes): Text
    decreases |p|
  {
    if p != [] && FrontOf(p).Whole? then [CharAt(p)] + Valid(p[FrontOf(p).size..]) else []
  }

  lemma {:induction false} ValidPrefix(p: Bytes)
    ensures var n := ValidUpTo(p);
      && Encode(Valid(p)) == p[..n]
      && (n < |p| ==> !FrontOf(p[n..]).Whole?)
      && Flushed(p) == (Valid(p) + Flushed(p[n..]).0, Flushed(p[n..]).1)
    decreases |p|
  {
    hide FrontOf, CharAt, Utf8;
    if p != [] && FrontOf(p).Whole? {
      var k := FrontOf(p).size;
      ValidPrefix(p[k..]);
      FrontBytes(p);
      var n := ValidUpTo(p);
      assert p[n..] == p[k..][n - k..];
      assert p[..n] == p[..k] + p[k..][..n - k];
      assert Valid(p)[1..] == Valid(p[k..]);
      var rest := Flushed(p[n..]).0;
      assert ([CharAt(p)] + Valid(p[k..])) + rest == [CharAt(p)] + (Valid(p[k..]) + rest);
    } else {
      assert p[0..] == p;
      assert [] + Flushed(p).0 == Flushed(p).0;
    }
  }

  /** What each case of the loop does to the result. */
  lemma FlushSteps(p: Bytes)
    ensures ValidUpTo(p) == |p| ==> Flushed(p) == (Valid(p), [])
    ensures ValidUpTo(p) < |p| ==> p != []
    ensures ValidUpTo(p) == 0 < |p| && FrontOf(p) == Invalid ==> Flushed(p) == Flushed(p[1..])
    ensures ValidUpTo(p) == 0 < |p| && FrontOf(p) != Invalid ==> Flushed(p) == ([], p)
  {
    hide CharAt;
    ValidPrefix(p);
    if ValidUpTo(p) == |p| {
      assert p[|p|..] == [];
      assert Valid(p) + [] == Valid(p);
    }
  }

  class Stream {
    var pending: Bytes
    var out: Text

    constructor ()
      ensures pending == [] && out == []
    {
      pending, out := [], [];
    }

    /** Move complete characters out; drop invalid bytes one at a time; keep an
        incomplete tail. */
    method FlushUtf8()
      modifies this
      ensures out == old(out) + Flushed(old(pending)).0
      ensures pending == Flushed(old(pending)).1
    {
      hide FrontOf, CharAt, Flushed, Valid, ValidUpTo;
      var done := false;
      while !done
        invariant !done ==> old(out) + Flushed(old(pending)).0 == out + Flushed(pending).0 && Flushed(old(pending)).1 == Flushed(pending).1
        invariant done ==> out == old(out) + Flushed(old(pending)).0 && pending == Flushed(old(pending)).1
        decreases !done, |pending|
      {
        ghost var p, o := pending, out;
        ValidPrefix(p);
        FlushSteps(p);
        var ok := ValidUpTo(pending);
        if ok == |pending| {
          out := out + Valid(pending);
          pending := [];
          done := true;
        } else if ok > 0 {
          out := out + Valid(pending);
          pending := pending[ok..];
          assert o + (Valid(p) + Flushed(p[ok..]).0) == (o + Valid(p)) + Flushed(p[ok..]).0;
        } else if FrontOf(pending) == Invalid {
          pending := pending[1..];
        } else {
          done := true;
        }
      }
    }

    /** A token's bytes arrive. */
    method Receive(token: Bytes)
      modifies this
      ensures out == old(out) + Flushed(old(pending) + token).0
      ensures pending == Flushed(old(pending) + token).1
    {
      pending := pending + token;
      FlushUtf8();
    }
  }

  // ---- What the stream guarantees ---------------------------------------------------------------

  /** Flushing early changes nothing: the text and the tail are those of one flush
      of everything. */
  lemma {:induction false} FlushEarly(a: Bytes, b: Bytes)
    ensures var (t, p) := Flushed(a); var (u, q) := Flushed(p + b);
      Flushed(a + b) == (t + u, q)
    decreases |a|
  {
    hide FrontOf, CharAt;
    if a == [] {
      assert a + b == b;
      assert [] + b == b;
    } else {
      match FrontOf(a)
      case Whole(n) =>
        FrontStable(a, b);
        assert (a + b)[n..] == a[n..] + b;
        FlushEarly(a[n..], b);
        var (t', p') := Flushed(a[n..]);
        var u := Flushed(p' + b).0;
        assert ([CharAt(a)] + t') + u == [CharAt(a)] + (t' + u);
      case Invalid =>
        FrontStable(a, b);
        assert (a + b)[1..] == a[1..] + b;
        FlushEarly(a[1..], b);
      case Short =>
        assert [] + Flushed(a + b).0 == Flushed(a + b).0;
    }
  }

  function Concat(tokens: seq<Bytes>): Bytes {
    if tokens == [] then [] else Concat(tokens[..|tokens| - 1]) + tokens[|tokens| - 1]
  }

  /** Text and tail after a list of tokens, flushing after each. */
  function Streamed(tokens: seq<Bytes>): (Text, Bytes) {
    if tokens == [] then ([], [])
    else
      var (t, p) := Streamed(tokens[..|tokens| - 1]);
      var (u, q) := Flushed(p + tokens[|tokens| - 1]);
      (t + u, q)
  }

  /** However a byte stream is cut into tokens, the text and the pending tail are
      those of one flush of the whole. */
  lemma {:induction false} CutsDoNotMatter(tokens: seq<Bytes>)
    ensures Streamed(tokens) == Flushed(Concat(tokens))
    decreases |tokens|
  {
    if tokens != [] {
      var n := |tokens| - 1;
      CutsDoNotMatter(tokens[..n]);
      FlushEarly(Concat(tokens[..n]), tokens[n]);
    }
  }

  /** What is kept back is empty or a proper prefix of a well-formed sequence. */
  lemma {:induction false} TailIsShort(p: Bytes)
    ensures var q := Flushed(p).1;
      |q| <= 3 && (q == [] || exists c: Char :: StartsChar(q, c))
    decreases |p|
  {
    if p != [] {
      match FrontOf(p)
      case Whole(n) => TailIsShort(p[n..]);
      case Invalid => TailIsShort(p[1..]);
      case Short => ShortIff(p);
    }
  }

  /** A valid stream comes out unchanged; a stream cut inside a character comes out
      up to that character, with its bytes kept. */
  lemma {:induction false} ValidUnchanged(t: Text, tail: Bytes)
    requires tail == [] || exists c: Char :: StartsChar(tail, c)
    ensures Flushed(Encode(t) + tail) == (t, tail)
    decreases |t|
  {
    hide FrontOf, CharAt, Utf8;
    if t == [] {
      assert Encode(t) + tail == tail;
      if tail != [] {
        ShortIff(tail);
      }
    } else {
      var rest := Encode(t[1..]) + tail;
      assert Encode(t) + tail == Utf8(t[0]) + rest;
      FrontOfChar(t[0], rest);
      assert (Utf8(t[0]) + rest)[|Utf8(t[0])|..] == rest;
      ValidUnchanged(t[1..], tail);
      assert [t[0]] + t[1..] == t;
    }
  }

  /** A byte that cannot begin a character is dropped, and nothing else is. */
  lemma StrayDropped(a: Text, x: Byte, b: Text)
    requires 0x80 <= x <= 0xC1 || 0xF5 <= x
    ensures Flushed(Encode(a) + [x] + Encode(b)) == (a + b, [])
  {
    hide Flushed, Encode;
    ValidUnchanged(a, []);
    ValidUnchanged(b, []);
    assert Encode(a) + [] == Encode(a) && Encode(b) + [] == Encode(b);
    assert Encode(a) + [x] + Encode(b) == Encode(a) + ([x] + Encode(b));
    FlushEarly(Encode(a), [x] + Encode(b));
    assert [] + ([x] + Encode(b)) == [x] + Encode(b);
    StrayFirst(x, Encode(b));
  }

  lemma StrayFirst(x: Byte, rest: Bytes)
    requires 0x80 <= x <= 0xC1 || 0xF5 <= x
    ensures Flushed([x] + rest) == Flushed(rest)
  {
    assert ([x] + rest)[1..] == rest;
  }

  /** The bytes of a text, cut into tokens anyhow, come out as the text. */
  lemma StreamRoundTrip(t: Text, tokens: seq<Bytes>)
    requires Concat(tokens) == Encode(t)
    ensures Streamed(tokens) == (t, [])
  {
    CutsDoNotMatter(tokens);
    ValidUnchanged(t, []);
    assert Encode(t) + [] == Encode(t);
  }
}
