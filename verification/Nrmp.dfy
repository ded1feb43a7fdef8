/** NRMP framing: the fragments of one message and their wire form. */
module Nrmp {
  import opened Wire
  import opened Masks
  import opened Wrappers
  import Crc

  const VERSION: nat := 1
  const HEADER_LEN: nat := 24
  const PIECE: nat := 1176
  const MAX_COUNT: nat := 64
  const MAGIC: Bytes := [0x4E, 0x52, 0x4D, 0x50]

  datatype Error = BufferTooSmall | Truncated | BadMagic | UnsupportedVersion | UnknownKind | InvalidFragment | MessageTooLarge | ChecksumMismatch

  datatype Fragment = Fragment(kind: nat, id: nat, index: nat, count: nat, totalLen: nat, checksum: nat, payload: Bytes)
  datatype Complete = Complete(kind: nat, id: nat, payload: Bytes)

  // ---- Cutting a message ------------------------------------------------------------------

  function Pieces(len: nat): (n: nat)
    ensures len > 0 ==> n > 0 && (n - 1) * PIECE < len <= n * PIECE
  {
    (len + PIECE - 1) / PIECE
  }

  function FragmentCount(len: nat): Result<nat, Error> {
    if len == 0 then Err(InvalidFragment)
    else if Pieces(len) > MAX_COUNT then Err(MessageTooLarge)
    else Ok(Pieces(len))
  }

  function PieceLen(total: nat, i: nat): (n: nat)
    requires total > 0 && i < Pieces(total)
    ensures 0 < n <= PIECE && i * PIECE + n <= total
  {
    if i + 1 == Pieces(total) then total - i * PIECE else PIECE
  }

  function Piece(msg: Bytes, i: nat): (p: Bytes)
    requires |msg| > 0 && i < Pieces(|msg|)
    ensures |p| == PieceLen(|msg|, i)
  {
    msg[i * PIECE..i * PIECE + PieceLen(|msg|, i)]
  }

  /** Fragment `i` of a message whose checksum field says `sum`. */
  function FragmentFor(kind: nat, id: nat, body: Bytes, sum: nat, i: nat): Fragment
    requires |body| > 0 && i < Pieces(|body|)
  {
    Fragment(kind, id, i, Pieces(|body|), |body|, sum, Piece(body, i))
  }

  /** Every byte of the message is in exactly the piece its position says. */
  lemma PieceOf(msg: Bytes, k: nat)
    requires k < |msg|
    ensures var i := k / PIECE;
      i < Pieces(|msg|) && k - i * PIECE < |Piece(msg, i)| && msg[k] == Piece(msg, i)[k - i * PIECE]
  {
  }

  // ---- The wire form --------------------------------------------------------------------------

  ghost predicate ValidFragment(f: Fragment) {
    && 1 <= f.kind <= 5 && f.id < WORD && f.checksum < WORD
    && 0 < f.totalLen && f.count == Pieces(f.totalLen) && f.count <= MAX_COUNT && f.index < f.count
    && |f.payload| == PieceLen(f.totalLen, f.index)
  }

  function FragmentBytes(f: Fragment): (d: Bytes)
    requires f.kind < 256
    ensures |d| == HEADER_LEN + |f.payload|
  {
    MAGIC + [VERSION] + [f.kind] + Be(f.index, 2) + Be(f.id, 4) + Be(f.count, 2) + Be(|f.payload|, 2)
    + Be(f.totalLen, 4) + Be(f.checksum, 4) + f.payload
  }

  function Parse(d: Bytes): Result<Fragment, Error> {
    if |d| < HEADER_LEN then Err(Truncated)
    else if d[0..4] != MAGIC then Err(BadMagic)
    else if d[4] != VERSION then Err(UnsupportedVersion)
    else if !(1 <= d[5] <= 5) then Err(UnknownKind)
    else
      var index, id, count := BeNum(d[6..8]), BeNum(d[8..12]), BeNum(d[12..14]);
      var payloadLen, totalLen, checksum := BeNum(d[14..16]), BeNum(d[16..20]), BeNum(d[20..24]);
      if count == 0 || count > MAX_COUNT || index >= count || payloadLen > PIECE
         || |d| != HEADER_LEN + payloadLen || totalLen == 0 || count != Pieces(totalLen)
      then Err(InvalidFragment)
      else if payloadLen != PieceLen(totalLen, index) then Err(InvalidFragment)
      else Ok(Fragment(d[5], id, index, count, totalLen, checksum, d[HEADER_LEN..]))
  }

  lemma HeaderParts(f: Fragment)
    requires f.kind < 256
    ensures var d := FragmentBytes(f);
      && d[0..4] == MAGIC && d[4] == VERSION && d[5] == f.kind && d[6..8] == Be(f.index, 2) && d[8..12] == Be(f.id, 4)
      && d[12..14] == Be(f.count, 2) && d[14..16] == Be(|f.payload|, 2) && d[16..20] == Be(f.totalLen, 4)
      && d[20..24] == Be(f.checksum, 4) && d[HEADER_LEN..] == f.payload
  {
    hide Be;
  }

  /** Parsing undoes encoding. */
  lemma ParseEncoded(f: Fragment)
    requires ValidFragment(f)
    ensures Parse(FragmentBytes(f)) == Ok(f)
  {
    hide Be, BeNum, FragmentBytes;
    HeaderParts(f);
    Pow256Values();
    BeRoundTrip(f.index, 2);
    BeRoundTrip(f.id, 4);
    BeRoundTrip(f.count, 2);
    BeRoundTrip(|f.payload|, 2);
    BeRoundTrip(f.totalLen, 4);
    BeRoundTrip(f.checksum, 4);
  }

  /** Parsing accepts nothing but encodings: the fragment determines every byte. */
  lemma ParseExact(d: Bytes)
    requires Parse(d).Ok?
    ensures ValidFragment(Parse(d).value) && FragmentBytes(Parse(d).value) == d
  {
    hide Be, BeNum;
    var f := Parse(d).value;
    Pow256Values();
    BeBound(d[8..12]);
    BeBound(d[20..24]);
    BeOfNum(d[6..8]);
    BeOfNum(d[8..12]);
    BeOfNum(d[12..14]);
    BeOfNum(d[14..16]);
    BeOfNum(d[16..20]);
    BeOfNum(d[20..24]);
    assert d == d[0..4] + [d[4]] + [d[5]] + d[6..8] + d[8..12] + d[12..14] + d[14..16] + d[16..20] + d[20..24] + d[24..];
  }

  /** What a caller of the encoder sees. */
  function EncodeResult(kind: nat, id: nat, msg: Bytes, i: nat, room: nat): Result<nat, Error> {
    var c := FragmentCount(|msg|);
    if c.Err? then Err(c.error)
    else if i >= c.value then Err(InvalidFragment)
    else if room < HEADER_LEN + |Piece(msg, i)| then Err(BufferTooSmall)
    else Ok(HEADER_LEN + |Piece(msg, i)|)
  }

  /** Write one fragment into the output buffer. */
  method EncodeFragment(kind: nat, id: nat, msg: Bytes, i: nat, out: array<Byte>) returns (r: Result<nat, Error>)
    requires 1 <= kind <= 5
    modifies out
    ensures r == EncodeResult(kind, id, msg, i, out.Length)
    ensures r.Err? ==> out[..] == old(out[..])
    ensures r.Ok? ==> i < Pieces(|msg|) && r.value <= out.Length
    ensures r.Ok? ==> out[..] == FragmentBytes(FragmentFor(kind, id, msg, Crc32(msg), i)) + old(out[r.value..])
  {
    hide Be, Crc32;
    var count := FragmentCount(|msg|);
    if count.Err? {
      return Err(count.error);
    }
    if i >= count.value {
      return Err(InvalidFragment);
    }
    var start := i * PIECE;
    var end := if start + PIECE < |msg| then start + PIECE else |msg|;
    var payload := msg[start..end];
    assert payload == Piece(msg, i);
    var len := HEADER_LEN + |payload|;
    if out.Length < len {
      return Err(BufferTooSmall);
    }
    WriteFragment(out, FragmentFor(kind, id, msg, Crc32(msg), i));
    r := Ok(len);
  }

  method WriteFragment(out: array<Byte>, f: Fragment)
    requires f.kind < 256 && HEADER_LEN + |f.payload| <= out.Length
    modifies out
    ensures out[..] == FragmentBytes(f) + old(out[HEADER_LEN + |f.payload|..])
  {
    hide Be;
    var len := HEADER_LEN + |f.payload|;
    WriteStart(out, f);
    WriteRest(out, f, out[..12]);
    assert out[..] == out[..len] + out[len..];
  }

  /** The cleared datagram and the fields up to the message id. */
  method WriteStart(out: array<Byte>, f: Fragment)
    requires f.kind < 256 && HEADER_LEN + |f.payload| <= out.Length
    modifies out
    ensures out[..12] == MAGIC + [VERSION] + [f.kind] + Be(f.index, 2) + Be(f.id, 4)
    ensures out[HEADER_LEN + |f.payload|..] == old(out[HEADER_LEN + |f.payload|..])
  {
    hide Be;
    var len := HEADER_LEN + |f.payload|;
    var at := PutNext(out, 0, seq(len, _ => 0), len, []);
    at := PutNext(out, 0, MAGIC, len, []);
    at := PutNext(out, at, [VERSION], len, out[..at]);
    at := PutNext(out, at, [f.kind], len, out[..at]);
    at := PutNext(out, at, Be(f.index, 2), len, out[..at]);
    at := PutNext(out, at, Be(f.id, 4), len, out[..at]);
  }

  /** The fields after the message id, and the payload. */
  method WriteRest(out: array<Byte>, f: Fragment, ghost head: Bytes)
    requires HEADER_LEN + |f.payload| <= out.Length && |head| == 12 && out[..12] == head
    modifies out
    ensures out[..HEADER_LEN + |f.payload|] == head + Be(f.count, 2) + Be(|f.payload|, 2) + Be(f.totalLen, 4) + Be(f.checksum, 4) + f.payload
    ensures out[HEADER_LEN + |f.payload|..] == old(out[HEADER_LEN + |f.payload|..])
  {
    hide Be;
    var len := HEADER_LEN + |f.payload|;
    var at := PutNext(out, 12, Be(f.count, 2), len, out[..12]);
    at := PutNext(out, at, Be(|f.payload|, 2), len, out[..at]);
    at := PutNext(out, at, Be(f.totalLen, 4), len, out[..at]);
    at := PutNext(out, at, Be(f.checksum, 4), len, out[..at]);
    at := PutNext(out, at, f.payload, len, out[..at]);
  }
}
