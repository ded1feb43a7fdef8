/** Known answers that fix constants and byte orders: published examples, and frames and
    datagrams written out byte by byte. */
module Vectors {
  import opened Wire
  import opened Checksum
  import opened Net
  import opened Unicode
  import opened Build
  import Nrmp
  import Format
  import Converter
  import Neighbors
  import Blob
  import Forward
  import Arena
  import Infer
  import Lanes
  import Pool
  import opened Wrappers

  // ---- Byte orders ---------------------------------------------------------------------------

  lemma LittleEndian()
    ensures Le(0x0403_0201, 4) == [1, 2, 3, 4] && LeNum([1, 2, 3, 4]) == 0x0403_0201
  {
    assert Le(0x0403_0201, 4) == [1, 2, 3, 4];
    Pow256Values();
    LeRoundTrip(0x0403_0201, 4);
  }

  lemma TwoBytes(v: nat)
    requires v < 0x1_0000
    ensures Be(v, 2) == [v / 256, v % 256]
  {
    assert Be(v / 256, 1) == [v / 256 % 256];
  }

  lemma FourBytes(a: Byte, b: Byte, c: Byte, d: Byte)
    ensures var v := 0x100_0000 * (a as nat) + 0x1_0000 * (b as nat) + 0x100 * (c as nat) + (d as nat); Be(v, 4) == [a, b, c, d]
  {
    var v := 0x100_0000 * (a as nat) + 0x1_0000 * (b as nat) + 0x100 * (c as nat) + (d as nat);
    var w := 0x1_0000 * (a as nat) + 0x100 * (b as nat) + (c as nat);
    var x := 0x100 * (a as nat) + (b as nat);
    assert v / 256 == w && v % 256 == d;
    assert w / 256 == x && w % 256 == c;
    assert x / 256 == a && x % 256 == b;
    TwoBytes(x);
    assert Be(w, 3) == Be(x, 2) + [c];
    assert Be(v, 4) == Be(w, 3) + [d];
  }

  // ---- Ones'-complement sums -------------------------------------------------------------------

  lemma SumFrom(b: Bytes, i: nat)
    requires i + 2 <= |b|
    ensures Sum16(b[i..]) == Word16(b[i], b[i + 1]) + Sum16(b[i + 2..])
  {
    assert b[i..][2..] == b[i + 2..];
  }

  lemma SumNothing(b: Bytes)
    requires b == []
    ensures Sum16(b) == 0
  {
  }

  const EXAMPLE: Bytes := [0x00, 0x01, 0xf2, 0x03, 0xf4, 0xf5, 0xf6, 0xf7]

  /** The example of section 3 of RFC 1071. */
  lemma Rfc1071Example()
    ensures Sum16(EXAMPLE) == 0x2ddf0 && ChecksumOf(EXAMPLE) == 0x220d
  {
    hide Sum16, Fold;
    var b := EXAMPLE;
    SumFrom(b, 0);
    SumFrom(b, 2);
    SumFrom(b, 4);
    SumFrom(b, 6);
    SumNothing(b[8..]);
    assert b[0..] == b;
    FoldIsResidue(0x2ddf0);
  }

  // ---- Packets ------------------------------------------------------------------------------------

  lemma TenBytes(b: Bytes)
    requires |b| == 10
    ensures Sum16(b) == Word16(b[0], b[1]) + Word16(b[2], b[3]) + Word16(b[4], b[5]) + Word16(b[6], b[7]) + Word16(b[8], b[9])
  {
    hide Sum16, Word16;
    SumFrom(b, 0);
    SumFrom(b, 2);
    SumFrom(b, 4);
    SumFrom(b, 6);
    SumFrom(b, 8);
    SumNothing(b[10..]);
    assert b[0..] == b;
  }

  const FRONT: Bytes := [0x45, 0, 0, 0x73, 0, 0, 0x40, 0, 0x40, 0x11]
  const BACK: Bytes := [0, 0, 0xc0, 0xa8, 0, 1, 0xc0, 0xa8, 0, 0xc7]

  lemma HeaderSum()
    ensures ChecksumOf(FRONT + BACK) == 0xb861
  {
    hide Sum16, Fold;
    TenBytes(FRONT);
    TenBytes(BACK);
    SumAppend(FRONT, BACK);
    FoldIsResidue(0x2479c);
  }

  /** A header of 20 bytes: 95 bytes of UDP from 192.168.0.1 to 192.168.0.199. */
  lemma HeaderBytes()
    ensures IpHeader(95, 0, 17, [192, 168, 0, 1], [192, 168, 0, 199]) ==
      [0x45, 0, 0, 0x73, 0, 0, 0x40, 0, 0x40, 0x11, 0xb8, 0x61, 0xc0, 0xa8, 0, 1, 0xc0, 0xa8, 0, 0xc7]
  {
    hide ChecksumOf, Be;
    HeaderSum();
    TwoBytes(115);
    TwoBytes(0);
    TwoBytes(0x4000);
    TwoBytes(0xb861);
    assert IpHead(95, 0, 17) == [0x45, 0, 0, 0x73, 0, 0, 0x40, 0, 0x40, 0x11];
    assert IpHead(95, 0, 17) + [0, 0] + ([192, 168, 0, 1] + [192, 168, 0, 199]) == FRONT + BACK;
  }

  const DATAGRAM: Bytes := [0xc0, 0, 0x23, 0x28, 0, 9, 0, 0, 0x41]

  lemma DatagramSum()
    ensures TransportChecksum([10, 0, 2, 15], [10, 0, 2, 2], 17, DATAGRAM) == 0xc3a2
  {
    hide Sum16, Fold;
    var b := DATAGRAM;
    SumFrom(b, 0);
    SumFrom(b, 2);
    SumFrom(b, 4);
    SumFrom(b, 6);
    LastByte(b[8..]);
    assert b[0..] == b;
    assert Sum16(b) == 0x12431;
    AddressSum(10, 0, 2, 15);
    AddressSum(10, 0, 2, 2);
    FoldIsResidue(0x13c5c);
  }

  lemma LastByte(b: Bytes)
    requires |b| == 1
    ensures Sum16(b) == Word16(b[0], 0)
  {
  }

  lemma AddressSum(a: Byte, b: Byte, c: Byte, d: Byte)
    ensures Sum16([a, b, c, d]) == Word16(a, b) + Word16(c, d)
  {
    var s := [a, b, c, d];
    SumFrom(s, 0);
    SumFrom(s, 2);
    SumNothing(s[4..]);
    assert s[0..] == s;
  }

  /** One byte from port 49152 of 10.0.2.15 to port 9000 of 10.0.2.2. */
  lemma DatagramBytes()
    ensures UdpPacket([10, 0, 2, 15], [10, 0, 2, 2], 49152, 9000, [0x41]) == [0xc0, 0, 0x23, 0x28, 0, 9, 0xc3, 0xa2, 0x41]
  {
    hide TransportChecksum, Be;
    DatagramSum();
    TwoBytes(49152);
    TwoBytes(9000);
    TwoBytes(9);
    TwoBytes(0xc3a2);
    assert UdpHead(49152, 9000, 1) == [0xc0, 0, 0x23, 0x28, 0, 9];
    assert UdpHead(49152, 9000, 1) + [0, 0] + [0x41] == DATAGRAM;
  }

  /** An address request, with every constant in its place. */
  lemma RequestBytes(c: Config, target: Ip)
    ensures ArpFrame(c, MAC_BROADCAST, target, MAC_ZERO, 1) ==
      [255, 255, 255, 255, 255, 255] + c.mac + [8, 6] + [0, 1, 8, 0, 6, 4, 0, 1] + c.mac + c.address + [0, 0, 0, 0, 0, 0] + target
  {
    hide Be;
    TwoBytes(0x0806);
    TwoBytes(0x0800);
    TwoBytes(1);
  }

  /** The type of a datagram's frame. */
  lemma FrameStart(c: Config, mac: Mac, id: nat, dst: Ip, sourcePort: nat, destinationPort: nat, payload: Bytes)
    ensures UdpFrame(c, mac, id, dst, sourcePort, destinationPort, payload)[..14] == mac + c.mac + [8, 0]
  {
    hide Be, IpHeader, UdpPacket;
    TwoBytes(0x0800);
  }

  /** The first fragment of a message of four bytes. */
  lemma FragmentStart(payload: Bytes)
    requires |payload| == 4
    ensures Nrmp.FragmentBytes(Nrmp.Fragment(2, 0x0102_0304, 0, 1, 4, 0x1122_3344, payload)) ==
      [0x4e, 0x52, 0x4d, 0x50, 1, 2, 0, 0, 1, 2, 3, 4, 0, 1, 0, 4, 0, 0, 0, 4, 0x11, 0x22, 0x33, 0x44] + payload
  {
    hide Be;
    TwoBytes(0);
    TwoBytes(1);
    TwoBytes(4);
    FourBytes(1, 2, 3, 4);
    FourBytes(0, 0, 0, 4);
    FourBytes(0x11, 0x22, 0x33, 0x44);
  }

  /** Exactly which datagrams parse. */
  lemma FragmentIff(d: Bytes)
    ensures Nrmp.Parse(d).Ok? <==>
      && |d| >= 24 && d[..4] == [0x4e, 0x52, 0x4d, 0x50] && d[4] == 1 && 1 <= d[5] <= 5
      && var index, count, len, total := BeNum(d[6..8]), BeNum(d[12..14]), BeNum(d[14..16]), BeNum(d[16..20]);
        && total > 0 && (count - 1) * 1176 < total <= count * 1176 && count <= 64 && index < count
        && |d| == 24 + len && len == if index + 1 == count then total - 1176 * index else 1176
  {
    hide BeNum;
    if |d| >= 24 {
      PiecesIff(BeNum(d[16..20]), BeNum(d[12..14]));
      assert d[0..4] == d[..4];
    }
  }

  lemma PiecesIff(total: nat, count: nat)
    ensures total > 0 ==> (count == Nrmp.Pieces(total) <==> (count - 1) * 1176 < total <= count * 1176)
  {
  }

  /** A message is cut every 1176 bytes, so that a datagram has at most 1200, and has at
      most 64 pieces. */
  lemma PieceLimits(len: nat)
    ensures Nrmp.FragmentCount(len).Ok? <==> 0 < len <= 64 * 1176
    ensures Nrmp.HEADER_LEN + Nrmp.PIECE == 1200
  {
  }

  /** A model file begins with its magic and version. */
  lemma FileStart(m: Format.Meta, tok: Bytes, ts: seq<Converter.OutTensor>)
    requires |m.name| == 48
    ensures |Converter.File(m, tok, ts)| >= 8
    ensures Converter.File(m, tok, ts)[..8] == [0x4e, 0x52, 0x55, 0x4e, 3, 0, 0, 0]
  {
    hide Words, Le, Converter.Quads, Converter.MetaWords, Converter.TableOf, Converter.DataOf, Crc32;
    VersionBytes();
  }

  lemma VersionBytes()
    ensures Le(3, 4) == [3, 0, 0, 0]
  {
  }

  // ---- Characters ---------------------------------------------------------------------------------

  /** Characters of the examples in section 7 of RFC 3629, of two, three and four bytes. */
  lemma Utf8Examples()
    ensures Utf8(0x2262) == [0xe2, 0x89, 0xa2] && Utf8(0x0391) == [0xce, 0x91] && Utf8(0x65e5) == [0xe6, 0x97, 0xa5]
    ensures Utf8(0x2_33b4) == [0xf0, 0xa3, 0x8e, 0xb4]
  {
  }

  lemma {:induction false} SkippedLow(b: nat)
    requires b <= 33
    ensures Skipped(b) == b
    decreases b
  {
    if b > 0 {
      SkippedLow(b - 1);
    }
  }

  lemma {:induction false} SkippedMiddle(b: nat)
    requires 33 <= b <= 127
    ensures Skipped(b) == 33
    decreases b
  {
    if b > 33 {
      SkippedMiddle(b - 1);
    } else {
      SkippedLow(33);
    }
  }

  lemma {:induction false} SkippedHigh(b: nat)
    requires 127 <= b <= 161
    ensures Skipped(b) == b - 94
    decreases b
  {
    if b > 127 {
      SkippedHigh(b - 1);
    } else {
      SkippedMiddle(127);
    }
  }

  lemma {:induction false} SkippedSoft(b: nat)
    requires 161 <= b <= 173
    ensures Skipped(b) == 67
    decreases b
  {
    if b > 161 {
      SkippedSoft(b - 1);
    } else {
      SkippedHigh(161);
    }
  }

  /** The character that spells each byte, in closed form. */
  lemma SpelledIs(b: Byte)
    ensures Spelled(b) ==
      if b <= 32 then b + 256 else if 127 <= b <= 160 then b + 162 else if b == 173 then 323 else b
  {
    if b <= 32 {
      SkippedLow(b);
    } else if 127 <= b <= 160 {
      SkippedHigh(b);
    } else if b == 173 {
      SkippedSoft(b);
    }
  }

  // ---- Neighbors ------------------------------------------------------------------------------------

  /** Which pairs a table does not learn. */
  lemma Unteachable(f: seq<Binding>, n: nat, b: Binding)
    requires |f| <= n
    requires b.ip == [0, 0, 0, 0] || b.mac == [0, 0, 0, 0, 0, 0] || b.mac == [255, 255, 255, 255, 255, 255]
    ensures Neighbors.Learned(f, n, b) == f
  {
  }

  lemma Taught(f: seq<Binding>, n: nat, b: Binding)
    requires Neighbors.Unique(f) && |f| <= n && n > 0
    requires b.ip != [0, 0, 0, 0] && b.mac != [0, 0, 0, 0, 0, 0] && b.mac != [255, 255, 255, 255, 255, 255]
    ensures Neighbors.Lookup(Neighbors.Learned(f, n, b), b.ip) == Some(b.mac)
  {
    Neighbors.LearnedFinds(f, n, b, b.ip);
  }

  // ---- Layouts --------------------------------------------------------------------------------------

  /** Where a parsed model file keeps its sizes and its sections. */
  lemma FileLayout(b: Bytes)
    requires Format.ParseSpec(b).Ok?
    ensures |b| >= 192
    ensures var m := Format.ParseSpec(b).value.meta;
      && m.arch == LeNum(b[8..12]) && m.dim == LeNum(b[12..16]) && m.nLayers == LeNum(b[16..20]) && m.nHeads == LeNum(b[20..24])
      && m.nKvHeads == LeNum(b[24..28]) && m.headDim == LeNum(b[28..32]) && m.ffnDim == LeNum(b[32..36]) && m.vocab == LeNum(b[36..40])
      && m.ctxTrain == LeNum(b[40..44]) && m.embedScale == LeNum(b[72..76]) && m.attnScale == LeNum(b[76..80])
      && m.residualScale == LeNum(b[80..84]) && m.logitScale == LeNum(b[84..88]) && m.name == b[88..136]
    ensures var m := Format.ParseSpec(b).value;
      var tok, size, data, len := LeNum(b[136..144]), LeNum(b[144..152]), LeNum(b[168..176]), LeNum(b[176..184]);
      && tok + size <= |b| && data + len <= |b| && m.tokenizer == b[tok..tok + size] && m.data == b[data..data + len]
      && |m.entries| == LeNum(b[160..164]) && m.dataCrc == LeNum(b[184..188])
  {
    hide LeNum, Format.EntriesAt, Format.Coherent, Crc32, Format.MetaBytes;
  }

  /** Where a parsed tokenizer blob keeps its sizes and special ids. */
  lemma BlobLayout(b: Bytes)
    requires Blob.ParseSpec(b).Ok?
    ensures |b| >= 1072
    ensures var t := Blob.ParseSpec(b).value;
      && t.vocab == LeNum(b[12..16]) && t.mergeCount == LeNum(b[16..20]) && |t.pool| == LeNum(b[20..24])
      && t.specials.bos == LeNum(b[24..28]) && t.specials.eos == LeNum(b[28..32]) && t.specials.eot == LeNum(b[32..36])
      && t.specials.startHeader == LeNum(b[36..40]) && t.specials.endHeader == LeNum(b[40..44]) && t.specials.endOfText == LeNum(b[44..48])
      && t.byteIds == b[48..1072]
      && t.template == (match LeNum(b[8..12]) case 1 => Blob.Llama3 case 2 => Blob.ChatMl case _ => Blob.Granite)
  {
    hide LeNum, Blob.TableOk;
  }

  /** The memory of one published shape, in bytes: width 2048, 16 layers, 32 heads of
      64 over 8, inner width 8192, 128256 tokens, 2048 positions. */
  lemma KnownSize()
    ensures Arena.RequiredBytes(Forward.Dims(2048, 16, 32, 8, 64, 8192, 128256, 2048)) == 75705984
  {
    var d := Forward.Dims(2048, 16, 32, 8, 64, 8192, 128256, 2048);
    assert d.AttDim() == 2048 && d.KvDim() == 512;
    assert Infer.CacheSize(d) == 16777216;
    assert Arena.ActBytes(d) == 1155072;
    assert Arena.BatchFloats(d) == 1638400;
    assert Arena.VectorFloats(d) == 221472;
  }

  /** Rows a thread of the pool takes at a time: a quarter of an equal share among all
      `n` + 1 threads, rounded down, but never fewer than 16. */
  lemma ClaimShare(n: nat, total: nat)
    ensures var c := Pool.ChunkFor(n, total); c == 16 || (c > 16 && Product(c, 4 * (n + 1)) <= total < Product(c + 1, 4 * (n + 1)))
    ensures Pool.ChunkFor(n, total) == 16 <==> total < Product(17, 4 * (n + 1))
  {
    hide Product;
    var d := 4 * (n + 1);
    assert d == 4 * n + 4;
    Share(total, d);
    if total / d >= 17 {
      Monotone(17, total / d, d);
    } else {
      Monotone(total / d + 1, 17, d);
    }
  }

  function Product(a: nat, b: nat): int { a * b }

  lemma Share(total: nat, d: nat)
    requires d > 0
    ensures Product(total / d, d) <= total < Product(total / d + 1, d)
  {
  }

  lemma Monotone(a: nat, b: nat, d: nat)
    requires a <= b
    ensures Product(a, d) <= Product(b, d)
  {
  }

  // ---- Instructions -----------------------------------------------------------------------------------

  /** The byte product saturates, the word product and the additions wrap. */
  lemma Overflows()
    ensures Lanes.Sat16(255 * 127 + 255 * 127) == 32767 && Lanes.Sat16(255 * -128 + 255 * -128) == -32768
    ensures Lanes.Wrap16(32768) == -32768 && Lanes.Wrap32(0x8000_0000) == -0x8000_0000 && Lanes.Wrap8(128) == -128 && Lanes.Wrap8(-129) == 127
  {
  }
}
