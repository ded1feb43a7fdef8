/** Damage of four bytes or fewer that no checksum notices: to the tensor count, and to
    the metadata checksum together with the first byte behind it. */
module Damage {
  // The count decides how much of the file the metadata checksum covers, so two
  // counts give two lists of bytes, and the longer one can be made to match. A changed
  // byte followed by four chosen ones leaves the lowest byte of the checksum alone,
  // and the other three stand right before that byte.

  import opened Wire
  import opened Wrappers
  import opened Format
  import opened Verify
  import Converter

  /** Sections of a file with a tokenizer blob of `tok` bytes, `count` entries and no
      data. */
  function Places(tok: nat, count: nat): Regions {
    Regions(HEADER_SIZE, tok, HEADER_SIZE + tok, count, 256, 0, 0, 0)
  }

  /** A file of 256 bytes: the header and 64 bytes behind it. */
  function FileWith(m: Meta, tok: nat, count: nat, sum: nat, body: Bytes): (b: Bytes)
    requires |m.name| == NAME_LEN && |body| == 64
    ensures |b| == 256
  {
    Converter.HeaderStart(m, Places(tok, count)) + Words([Crc32([]), sum]) + body
  }

  /** The bytes its metadata checksum covers. */
  function Covered(m: Meta, tok: nat, count: nat, body: Bytes): Bytes
    requires |m.name| == NAME_LEN && |body| == 64 && tok + 32 * count <= 64
  {
    Converter.HeaderStart(m, Places(tok, count)) + BLANK + body[..tok + 32 * count]
  }

  lemma HeaderPasses(m: Meta, tok: nat, count: nat, sum: nat, body: Bytes)
    requires |m.name| == NAME_LEN && |body| == 64 && tok + 32 * count <= 64 && sum < WORD
    requires forall i | 0 <= i < |Converter.MetaWords(m)| :: Converter.MetaWords(m)[i] < WORD
    ensures CheckHeader(FileWith(m, tok, count, sum, body)) == Ok(Places(tok, count).(dataCrc := Crc32([]), metaCrc := sum))
  {
    hide LeNum, Le, Words, U32, U64, Crc32, Converter.HeaderStart, Converter.MetaWords, MetaAt;
    var b, g := FileWith(m, tok, count, sum, body), Places(tok, count);
    assert b[..HEADER_SIZE] == Converter.HeaderStart(m, g) + Words([Crc32([]), sum]);
    assert b[..HEADER_SIZE - 8] == Converter.HeaderStart(m, g);
    Converter.HeaderMetaBack(b, m, g);
    Converter.HeaderRegionsBack(b, m, g, Crc32([]), sum);
  }

  lemma CoveredIs(m: Meta, tok: nat, count: nat, sum: nat, body: Bytes)
    requires |m.name| == NAME_LEN && |body| == 64 && tok + 32 * count <= 64
    ensures MetaSeen(FileWith(m, tok, count, sum, body), HEADER_SIZE + tok + 32 * count) == Covered(m, tok, count, body)
  {
    hide Words, Converter.HeaderStart, Crc32;
    var b := FileWith(m, tok, count, sum, body);
    var s := MetaSeen(b, HEADER_SIZE + tok + 32 * count);
    var c := Covered(m, tok, count, body);
    forall i | 0 <= i < |c| ensures s[i] == c[i] {
      assert s[i] == Masked(b)[i];
    }
    assert s == c;
  }

  /** Such a file is accepted exactly when its stored checksum is that of the covered
      bytes. */
  lemma AcceptedIff(m: Meta, tok: nat, count: nat, sum: nat, body: Bytes)
    requires |m.name| == NAME_LEN && |body| == 64 && tok + 32 * count <= 64 && sum < WORD
    requires forall i | 0 <= i < |Converter.MetaWords(m)| :: Converter.MetaWords(m)[i] < WORD
    ensures Verdict(FileWith(m, tok, count, sum, body)).Ok? <==> Crc32(Covered(m, tok, count, body)) == sum
  {
    hide Crc32, MetaSeen, Covered, FileWith, CheckHeader, Verdict, RegionsAt, Converter.MetaWords;
    HeaderPasses(m, tok, count, sum, body);
    assert Places(tok, count).TableEnd() == HEADER_SIZE + tok + 32 * count;
    CoveredIs(m, tok, count, sum, body);
    NoData(FileWith(m, tok, count, sum, body));
  }

  /** Without data only the metadata decides. */
  lemma NoData(b: Bytes)
    requires CheckHeader(b).Ok? && CheckHeader(b).value.dataOff == 256 && CheckHeader(b).value.dataSize == 0
    requires CheckHeader(b).value.dataCrc == Crc32([])
    ensures Verdict(b).Ok? <==> Crc32(MetaSeen(b, CheckHeader(b).value.TableEnd())) == CheckHeader(b).value.metaCrc
  {
    hide Crc32, MetaSeen, CheckHeader, DataSeen;
    var g := CheckHeader(b).value;
    EmptyEnd(g);
    EmptySeen(b, 256, 256);
  }

  lemma EmptyEnd(g: Regions)
    requires g.dataOff == 256 && g.dataSize == 0
    ensures WrappedEnd(g) == 256
  {
  }

  lemma EmptySeen(b: Bytes, off: nat, end: nat)
    requires end <= off
    ensures DataSeen(b, off, end) == []
  {
  }

  /** Damage to the tensor count alone can go unnoticed: whatever the other header
      fields, there are two accepted files that differ in the count and nowhere else. */
  lemma CountUnguarded(m: Meta) returns (b: Bytes, b': Bytes)
    requires |m.name| == NAME_LEN
    requires forall i | 0 <= i < |Converter.MetaWords(m)| :: Converter.MetaWords(m)[i] < WORD
    ensures |b| == |b'| == 256 && RegionsAt(b).count == 0 && RegionsAt(b').count == 1
    ensures Verdict(b).Ok? && Verdict(b').Ok?
    ensures forall i: nat | i < |b| && !(160 <= i < 164) :: b[i] == b'[i]
  {
    hide Crc32, FileWith, Verdict, RegionsAt, CheckHeader, Converter.MetaWords, Converter.HeaderStart, Converter.Zeros;
    var lead: Bytes := Converter.Zeros(28);
    assert |lead| == 28;
    var none: Bytes := Converter.Zeros(64);
    var start := Converter.HeaderStart(m, Places(0, 1)) + BLANK + lead;
    var w := Forge(start, Covered(m, 0, 0, none));
    var body := lead + w + Converter.Zeros(32);
    var sum := Crc32(Covered(m, 0, 0, none));
    assert Covered(m, 0, 1, body) == start + w;
    assert Covered(m, 0, 0, body) == Covered(m, 0, 0, none);
    AcceptedIff(m, 0, 0, sum, body);
    AcceptedIff(m, 0, 1, sum, body);
    HeaderPasses(m, 0, 0, sum, body);
    HeaderPasses(m, 0, 1, sum, body);
    b, b' := FileWith(m, 0, 0, sum, body), FileWith(m, 0, 1, sum, body);
    OnlyCount(m, sum, body);
    HeaderInside(b);
    HeaderInside(b');
  }

  lemma OnlyCount(m: Meta, sum: nat, body: Bytes)
    requires |m.name| == NAME_LEN && |body| == 64
    ensures var b, b' := FileWith(m, 0, 0, sum, body), FileWith(m, 0, 1, sum, body);
      forall i: nat | i < 256 && !(160 <= i < 164) :: b[i] == b'[i]
  {
    hide Words, Le, Converter.Quads, Crc32, Converter.MetaWords;
    var h, h' := Converter.HeaderStart(m, Places(0, 0)), Converter.HeaderStart(m, Places(0, 1));
    WordsTwo(0, 0);
    WordsTwo(1, 0);
    assert h[..160] == h'[..160];
    assert h[164..] == h'[164..];
    var b, b' := FileWith(m, 0, 0, sum, body), FileWith(m, 0, 1, sum, body);
    forall i: nat | i < 256 && !(160 <= i < 164) ensures b[i] == b'[i] {
      if i < 160 {
        assert b[i] == h[..160][i] && b'[i] == h'[..160][i];
      } else if i < 184 {
        assert b[i] == h[164..][i - 164] && b'[i] == h'[164..][i - 164];
      }
    }
  }

  lemma WordsTwo(x: nat, y: nat)
    ensures Words([x, y]) == Le(x, 4) + Le(y, 4)
  {
    hide Le;
    assert [x, y][..1] == [x] && [x][..0] == [];
    assert Words([]) == [];
    assert Words([x]) == Words([]) + Le(x, 4);
  }

  /** A stored metadata checksum damaged together with the byte behind it can go
      unnoticed too: whatever the other header fields, there are two accepted files of
      the same sections that differ in those four bytes and nowhere else. */
  lemma SumAndBlobUnguarded(m: Meta) returns (b: Bytes, b': Bytes)
    requires |m.name| == NAME_LEN
    requires forall i | 0 <= i < |Converter.MetaWords(m)| :: Converter.MetaWords(m)[i] < WORD
    ensures |b| == |b'| == 256 && RegionsAt(b).TableEnd() == RegionsAt(b').TableEnd() == 197
    ensures Verdict(b).Ok? && Verdict(b').Ok?
    ensures b[192] != b'[192] && forall i: nat | i < |b| && !(189 <= i < 193) :: b[i] == b'[i]
  {
    hide Crc32, FileWith, Verdict, RegionsAt, CheckHeader, Converter.MetaWords, Converter.HeaderStart, Converter.Zeros;
    var start := Converter.HeaderStart(m, Places(5, 0)) + BLANK;
    var w := ForgeNear(start);
    var body, body' := [0] + w + Converter.Zeros(59), [0x97] + w + Converter.Zeros(59);
    assert Covered(m, 5, 0, body) == start + [0] + w;
    assert Covered(m, 5, 0, body') == start + [0x97] + w;
    AcceptedIff(m, 5, 0, 0, body);
    AcceptedIff(m, 5, 0, 0x6326_fb00, body');
    HeaderPasses(m, 5, 0, 0, body);
    HeaderPasses(m, 5, 0, 0x6326_fb00, body');
    b, b' := FileWith(m, 5, 0, 0, body), FileWith(m, 5, 0, 0x6326_fb00, body');
    OnlyFour(m, body, body');
    HeaderInside(b);
    HeaderInside(b');
  }

  lemma OnlyFour(m: Meta, body: Bytes, body': Bytes)
    requires |m.name| == NAME_LEN && |body| == |body'| == 64 && body[1..] == body'[1..] && body[0] != body'[0]
    ensures var b, b' := FileWith(m, 5, 0, 0, body), FileWith(m, 5, 0, 0x6326_fb00, body');
      b[192] != b'[192] && forall i: nat | i < 256 && !(189 <= i < 193) :: b[i] == b'[i]
  {
    hide Words, Le, Crc32, Converter.HeaderStart;
    var e := Crc32([]);
    SumBytes(e);
    var b, b' := FileWith(m, 5, 0, 0, body), FileWith(m, 5, 0, 0x6326_fb00, body');
    forall i: nat | i < 256 && !(189 <= i < 193) ensures b[i] == b'[i] {
      if i >= 193 {
        assert b[i] == body[1..][i - 193] && b'[i] == body'[1..][i - 193];
      } else if i >= 184 {
        assert b[i] == Words([e, 0])[..5][i - 184] && b'[i] == Words([e, 0x6326_fb00])[..5][i - 184];
      }
    }
  }

  lemma SumBytes(e: nat)
    requires e < WORD
    ensures Words([e, 0])[..5] == Words([e, 0x6326_fb00])[..5]
  {
    hide Le;
    WordsTwo(e, 0);
    WordsTwo(e, 0x6326_fb00);
    LowestByte();
  }

  lemma LowestByte()
    ensures Le(0, 4)[..1] == Le(0x6326_fb00, 4)[..1]
  {
  }
}
