/** Unicode scalar values, their UTF-8 form (section 3 of RFC 3629) and the byte
    length of a text. Texts are lists of scalar values; their bytes, and offsets
    into these, are derived, so character boundaries are prefix sizes. */
module Unicode {
  import opened Wire

  type Char = c: int | (0 <= c < 0xD800) || (0xE000 <= c < 0x11_0000)
  type Text = seq<Char>

  function Utf8(c: Char): (b: Bytes)
    ensures 1 <= |b| <= 4
    ensures c < 0x80 <==> b[0] < 0x80
    ensures c < 0x80 ==> b == [c]
  {
    if c < 0x80 then [c]
    else if c < 0x800 then [0xC0 + c / 64, 0x80 + c % 64]
    else if c < 0x1_0000 then [0xE0 + c / 4096, 0x80 + c / 64 % 64, 0x80 + c % 64]
    else [0xF0 + c / 262144, 0x80 + c / 4096 % 64, 0x80 + c / 64 % 64, 0x80 + c % 64]
  }

  function Encode(s: Text): Bytes {
    if s == [] then [] else Utf8(s[0]) + Encode(s[1..])
  }

  lemma {:induction false} EncodeAppend(s: Text, t: Text)
    ensures Encode(s + t) == Encode(s) + Encode(t)
  {
    if s == [] {
      assert s + t == t;
    } else {
      assert (s + t)[1..] == s[1..] + t;
      EncodeAppend(s[1..], t);
    }
  }

  /** Byte length of a text. */
  function Size(s: Text): (n: nat)
    ensures n >= |s|
  {
    if s == [] then 0 else |Utf8(s[0])| + Size(s[1..])
  }

  lemma {:induction false} SizeIsLength(s: Text)
    ensures Size(s) == |Encode(s)|
  {
    if s != [] {
      SizeIsLength(s[1..]);
    }
  }

  lemma SizeAppend(s: Text, t: Text)
    ensures Size(s + t) == Size(s) + Size(t)
  {
    EncodeAppend(s, t);
    SizeIsLength(s);
    SizeIsLength(t);
    SizeIsLength(s + t);
  }

  lemma SizeNext(s: Text, k: nat)
    requires k < |s|
    ensures Size(s[..k + 1]) == Size(s[..k]) + |Utf8(s[k])|
  {
    assert s[..k + 1] == s[..k] + [s[k]];
    SizeAppend(s[..k], [s[k]]);
    assert Size([s[k]]) == |Utf8(s[k])| + Size([s[k]][1..]);
  }

  lemma SizeMono(s: Text, j: nat, k: nat)
    requires j <= k <= |s|
    ensures Size(s[..j]) + (k - j) <= Size(s[..k])
  {
    assert s[..k] == s[..j] + s[j..k];
    SizeAppend(s[..j], s[j..k]);
  }
}
