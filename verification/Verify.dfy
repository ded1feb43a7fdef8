/** Checking a model file while it streams in, and the loop that reads and
    feeds it. */
module Verify {
  import opened Wire
  import opened Format
  import opened Wrappers
  import Crc

  datatype VerifyError = BadHeader | MetaMismatch | DataMismatch

  const CRC_FIELDS_OFF: nat := HEADER_SIZE - 8

  function Min(a: int, b: int): int { if a < b then a else b }
  function Max(a: int, b: int): int { if a < b then b else a }

  // ---- What has been hashed once a prefix has gone by ------------------------------------

  /** The two checksum fields read as zeros. */
  function Masked(b: Bytes): (m: Bytes)
    ensures |m| == |b|
  {
    seq(|b|, i requires 0 <= i < |b| => if CRC_FIELDS_OFF <= i < CRC_FIELDS_OFF + 8 then 0 else b[i])
  }

  function MetaSeen(b: Bytes, metaEnd: nat): Bytes {
    Masked(b)[..Min(|b|, metaEnd)]
  }

  function DataSeen(b: Bytes, dataOff: nat, dataEnd: nat): Bytes {
    if dataOff < dataEnd && dataOff < |b| then b[dataOff..Min(|b|, dataEnd)] else []
  }

  /** The header gate. The end of the data section is not bounded here; a sum
      past 64 bits wraps. */
  function CheckHeader(header: Bytes): (r: Result<Regions, VerifyError>)
    ensures r.Ok? ==> |header| >= HEADER_SIZE && r.value == RegionsAt(header)
    ensures r.Ok? ==> HEADER_SIZE == r.value.tokOff && r.value.TokEnd() == r.value.tableOff && r.value.TableEnd() <= r.value.dataOff
  {
    if |header| < HEADER_SIZE || header[0..4] != MAGIC then Err(BadHeader)
    else if U32(header, 4) != VERSION then Err(BadHeader)
    else
      var g := RegionsAt(header);
      if g.TableEnd() >= LIMIT || g.TokEnd() >= LIMIT then Err(BadHeader)
      else if g.tokOff != HEADER_SIZE || g.tableOff != g.TokEnd() || g.TableEnd() > g.dataOff then Err(BadHeader)
      else Ok(g)
  }

  function WrappedEnd(g: Regions): nat {
    g.DataEnd() % LIMIT
  }

  /** The verdict on a whole file, stated without chunks. */
  function Verdict(b: Bytes): Result<(), VerifyError> {
    match CheckHeader(b)
    case Err(e) => Err(e)
    case Ok(g) =>
      if Crc32(MetaSeen(b, g.TableEnd())) != g.metaCrc then Err(MetaMismatch)
      else if Crc32(DataSeen(b, g.dataOff, WrappedEnd(g))) != g.dataCrc then Err(DataMismatch)
      else Ok(())
  }

  lemma HeaderPrefix(b: Bytes, n: nat)
    requires HEADER_SIZE <= n <= |b|
    ensures CheckHeader(b[..n]) == CheckHeader(b)
  {
    FieldsPrefix(b, n);
    assert b[..n][0..4] == b[0..4];
  }

  lemma FieldsPrefix(b: Bytes, n: nat)
    requires HEADER_SIZE <= n <= |b|
    ensures U32(b[..n], 4) == U32(b, 4) && RegionsAt(b[..n]) == RegionsAt(b)
  {
    hide LeNum;
    forall i, j | 0 <= i <= j <= HEADER_SIZE ensures b[..n][i..j] == b[i..j] {
    }
  }

  // ---- One chunk ---------------------------------------------------------------------------

  /** The part of the metadata region inside the chunk at `offset`. */
  lemma MetaGrow(fed: Bytes, chunk: Bytes, metaEnd: nat)
    ensures var m0, m1 := Min(|fed|, metaEnd), Min(|fed| + |chunk|, metaEnd);
      MetaSeen(fed + chunk, metaEnd) == MetaSeen(fed, metaEnd) + Masked(fed + chunk)[m0..m1]
  {
    var whole, first := Masked(fed + chunk), Masked(fed);
    assert whole[..|fed|] == first;
  }

  /** Where a chunk of `m` bytes behind `n` bytes meets the data section. */
  lemma Clipped(n: nat, m: nat, off: nat, end: nat)
    ensures var d0, d1 := Min(Max(n, off), end), Min(Max(n + m, off), end);
      if d0 < d1 then n <= d0 && off <= d0 && (off < n ==> d0 == n) && (n <= off ==> d0 == off) && d1 == Min(n + m, end) && d1 <= n + m
      else m == 0 || end <= off || n + m <= off || end <= n
  {
  }

  lemma DataGrow(fed: Bytes, chunk: Bytes, dataOff: nat, dataEnd: nat)
    ensures var d0, d1 := Min(Max(|fed|, dataOff), dataEnd), Min(Max(|fed| + |chunk|, dataOff), dataEnd);
      && (d0 < d1 ==> |fed| <= d0 && d1 <= |fed| + |chunk|)
      && DataSeen(fed + chunk, dataOff, dataEnd) ==
           DataSeen(fed, dataOff, dataEnd) + if d0 < d1 then chunk[d0 - |fed|..d1 - |fed|] else []
  {
    hide DataSeen, Min, Max;
    var d0, d1 := Min(Max(|fed|, dataOff), dataEnd), Min(Max(|fed| + |chunk|, dataOff), dataEnd);
    Clipped(|fed|, |chunk|, dataOff, dataEnd);
    if d0 < d1 {
      DataSome(fed, chunk, dataOff, dataEnd, d0, d1);
    } else {
      DataNone(fed, chunk, dataOff, dataEnd);
    }
  }

  /** A chunk before or behind the data section brings nothing. */
  lemma DataNone(fed: Bytes, chunk: Bytes, dataOff: nat, dataEnd: nat)
    requires |chunk| == 0 || dataEnd <= dataOff || |fed| + |chunk| <= dataOff || dataEnd <= |fed|
    ensures DataSeen(fed + chunk, dataOff, dataEnd) == DataSeen(fed, dataOff, dataEnd)
  {
    if |chunk| == 0 {
      assert fed + chunk == fed;
    } else if dataOff < dataEnd <= |fed| {
      assert (fed + chunk)[dataOff..dataEnd] == fed[dataOff..dataEnd];
    }
  }

  /** The data bytes of a prefix and of the chunk after it. */
  lemma DataSome(fed: Bytes, chunk: Bytes, off: nat, end: nat, d0: nat, d1: nat)
    requires |fed| <= d0 < d1 == Min(|fed| + |chunk|, end) && off <= d0
    requires (off < |fed| ==> d0 == |fed|) && (|fed| <= off ==> d0 == off) && d1 <= |fed| + |chunk|
    ensures DataSeen(fed + chunk, off, end) == DataSeen(fed, off, end) + chunk[d0 - |fed|..d1 - |fed|]
  {
    assert DataSeen(fed + chunk, off, end) == (fed + chunk)[off..d1];
    if off < |fed| {
      assert (fed + chunk)[off..d1] == fed[off..] + chunk[..d1 - |fed|];
    } else {
      assert (fed + chunk)[off..d1] == chunk[off - |fed|..d1 - |fed|];
    }
  }

  /** The three pieces hashed around the checksum fields. */
  lemma MaskedPieces(fed: Bytes, chunk: Bytes, m0: nat, m1: nat)
    requires |fed| <= m0 < m1 <= |fed| + |chunk|
    ensures var seg := chunk[m0 - |fed|..m1 - |fed|];
      var z0, z1 := Max(CRC_FIELDS_OFF, m0), Min(CRC_FIELDS_OFF + 8, m1);
      if z0 < z1 then Masked(fed + chunk)[m0..m1] == seg[..z0 - m0] + BLANK[..z1 - z0] + seg[z1 - m0..]
      else Masked(fed + chunk)[m0..m1] == seg
  {
    var seg := chunk[m0 - |fed|..m1 - |fed|];
    var whole := Masked(fed + chunk)[m0..m1];
    forall i | 0 <= i < m1 - m0 ensures whole[i] == if CRC_FIELDS_OFF <= m0 + i < CRC_FIELDS_OFF + 8 then 0 else seg[i] {
      assert (fed + chunk)[m0 + i] == chunk[m0 + i - |fed|];
    }
  }

  class StreamingVerifier {
    const meta: Crc.Crc32
    const data: Crc.Crc32
    const metaEnd: nat
    const dataOff: nat
    const dataEnd: nat
    const expectMeta: nat
    const expectData: nat
    /** Everything fed so far. */
    ghost var fed: Bytes

    ghost predicate Valid()
      reads this, meta, data
    {
      && meta != data
      && meta.state == Crc.State(Crc.INIT, Raw(MetaSeen(fed, metaEnd)))
      && data.state == Crc.State(Crc.INIT, Raw(DataSeen(fed, dataOff, dataEnd)))
    }

    constructor (g: Regions)
      ensures Valid() && fed == [] && fresh(meta) && fresh(data)
      ensures metaEnd == g.TableEnd() && dataOff == g.dataOff && dataEnd == WrappedEnd(g)
      ensures expectMeta == g.metaCrc && expectData == g.dataCrc
    {
      var m := new Crc.Crc32();
      var d := new Crc.Crc32();
      meta, data, fed := m, d, [];
      metaEnd, dataOff, dataEnd := g.TableEnd(), g.dataOff, WrappedEnd(g);
      expectMeta, expectData := g.metaCrc, g.dataCrc;
      new;
      RawNothing();
    }

    /** Build from the first bytes of the file. */
    static method Open(header: Bytes) returns (r: Result<StreamingVerifier, VerifyError>)
      ensures CheckHeader(header).Err? ==> r == Err(CheckHeader(header).error)
      ensures CheckHeader(header).Ok? ==> r.Ok? && fresh(r.value) && r.value.For(CheckHeader(header).value)
      ensures CheckHeader(header).Ok? ==> r.value.Valid() && r.value.fed == [] && fresh(r.value.meta) && fresh(r.value.data)
    {
      var g := CheckHeader(header);
      if g.Err? {
        return Err(g.error);
      }
      var v := new StreamingVerifier(g.value);
      r := Ok(v);
    }

    ghost predicate For(g: Regions) {
      && metaEnd == g.TableEnd() && dataOff == g.dataOff && dataEnd == WrappedEnd(g)
      && expectMeta == g.metaCrc && expectData == g.dataCrc
    }

    /** Three updates in a row. */
    method UpdateThree(x: Bytes, y: Bytes, z: Bytes, ghost seen: Bytes)
      requires meta.state == Crc.State(Crc.INIT, Raw(seen))
      modifies meta
      ensures meta.state == Crc.State(Crc.INIT, Raw(seen + (x + y + z)))
    {
      hide Raw, Crc.State;
      meta.Update(Raw(x));
      meta.Update(Raw(y));
      meta.Update(Raw(z));
      StateJoin(Crc.INIT, seen, x);
      StateJoin(Crc.INIT, seen + x, y);
      StateJoin(Crc.INIT, seen + x + y, z);
      assert seen + x + y + z == seen + (x + y + z);
    }

    method FeedMeta(offset: nat, chunk: Bytes)
      requires Valid() && offset == |fed|
      modifies meta
      ensures meta.state == Crc.State(Crc.INIT, Raw(MetaSeen(fed + chunk, metaEnd)))
    {
      hide Raw, Crc.State, Masked, MetaSeen;
      var end := offset + |chunk|;
      var m0, m1 := Min(offset, metaEnd), Min(end, metaEnd);
      MetaGrow(fed, chunk, metaEnd);
      ghost var seen := MetaSeen(fed, metaEnd);
      if m0 < m1 {
        var seg := chunk[m0 - offset..m1 - offset];
        var z0, z1 := Max(CRC_FIELDS_OFF, m0), Min(CRC_FIELDS_OFF + 8, m1);
        MaskedPieces(fed, chunk, m0, m1);
        if z0 < z1 {
          UpdateThree(seg[..z0 - m0], BLANK[..z1 - z0], seg[z1 - m0..], seen);
        } else {
          meta.Update(Raw(seg));
          StateJoin(Crc.INIT, seen, seg);
        }
      } else {
        assert seen + [] == seen;
      }
    }

    /** Route the next chunk to the two hashers. Chunks come in file order,
        without gaps; they may cut the checksum fields or a section border. */
    method Feed(offset: nat, chunk: Bytes)
      requires Valid() && offset == |fed|
      modifies this, meta, data
      ensures Valid() && fed == old(fed) + chunk
    {
      hide Raw, Crc.State, MetaSeen, DataSeen;
      FeedMeta(offset, chunk);
      FeedData(offset, chunk);
      fed := fed + chunk;
    }

    method FeedData(offset: nat, chunk: Bytes)
      requires meta != data && offset == |fed| && data.state == Crc.State(Crc.INIT, Raw(DataSeen(fed, dataOff, dataEnd)))
      modifies data
      ensures data.state == Crc.State(Crc.INIT, Raw(DataSeen(fed + chunk, dataOff, dataEnd)))
    {
      hide Raw, Crc.State, DataSeen;
      var end := offset + |chunk|;
      var d0, d1 := Min(Max(offset, dataOff), dataEnd), Min(Max(end, dataOff), dataEnd);
      DataGrow(fed, chunk, dataOff, dataEnd);
      ghost var seen := DataSeen(fed, dataOff, dataEnd);
      if d0 < d1 {
        data.Update(Raw(chunk[d0 - offset..d1 - offset]));
        StateJoin(Crc.INIT, seen, chunk[d0 - offset..d1 - offset]);
      } else {
        assert seen + [] == seen;
      }
    }

    /** The verdict depends on the bytes fed and not on how they were cut. */
    method Finish() returns (r: Result<(), VerifyError>)
      requires Valid()
      ensures r ==
        if Crc32(MetaSeen(fed, metaEnd)) != expectMeta then Err(MetaMismatch)
        else if Crc32(DataSeen(fed, dataOff, dataEnd)) != expectData then Err(DataMismatch)
        else Ok(())
    {
      hide Raw, Crc.State, Number;
      var m := Number(meta.Finish());
      if m != expectMeta {
        return Err(MetaMismatch);
      }
      var d := Number(data.Finish());
      if d != expectData {
        return Err(DataMismatch);
      }
      r := Ok(());
    }
  }

  // ---- Agreement with one-shot parsing --------------------------------------------------------

  /** On a file that holds its sections, the streaming hashes are the ones that
      parsing and the separate data check compute. */
  lemma StreamingAgrees(b: Bytes)
    requires CheckHeader(b).Ok? && CheckHeader(b).value.DataEnd() <= |b| && |b| < LIMIT
    ensures var g := CheckHeader(b).value;
      && MetaSeen(b, g.TableEnd()) == MetaBytes(b, g)
      && DataSeen(b, g.dataOff, WrappedEnd(g)) == b[g.dataOff..g.DataEnd()]
  {
    hide U32, U64;
    var g := CheckHeader(b).value;
    var m := MetaSeen(b, g.TableEnd());
    assert b[g.tokOff..g.TokEnd()] + b[g.tableOff..g.TableEnd()] == b[HEADER_SIZE..g.TableEnd()];
    assert m == b[..CRC_FIELDS_OFF] + BLANK + b[HEADER_SIZE..g.TableEnd()];
    assert MetaBytes(b, g) == b[..CRC_FIELDS_OFF] + BLANK + (b[g.tokOff..g.TokEnd()] + b[g.tableOff..g.TableEnd()]);
    assert WrappedEnd(g) == g.DataEnd();
  }

  /** A file that parses is accepted by the streaming verifier exactly when its
      sections are in streaming order and its data check passes. */
  lemma ParsedVerdict(b: Bytes)
    requires ParseSpec(b).Ok? && |b| < LIMIT
    ensures Verdict(b).Ok? <==> CheckHeader(b).Ok? && Crc32(ParseSpec(b).value.data) == ParseSpec(b).value.dataCrc
  {
    hide U32, U64, MetaAt, EntriesAt, Coherent, Crc32, MetaSeen, DataSeen, MetaBytes;
    if CheckHeader(b).Ok? {
      StreamingAgrees(b);
    }
  }

  /** The header names an architecture and its scalars pass the gates. */
  predicate Known(m: Meta) {
    1 <= m.arch <= 3 && Coherent(m)
  }

  /** What parsing makes of a file that was accepted while streaming: never a
      header or checksum failure; too short exactly when the data section runs
      past the file, and otherwise refused only for a scalar or a table entry. */
  lemma AcceptedParses(b: Bytes)
    requires Verdict(b).Ok? && |b| < LIMIT
    ensures var g, known := CheckHeader(b).value, Known(MetaAt(b));
      && (ParseSpec(b) == Err(TooShort) <==> known && |b| < g.DataEnd())
      && (ParseSpec(b).Ok? <==> known && g.DataEnd() <= |b| && EntriesAt(b, g.tableOff, g.count, g.dataSize).Ok?)
    ensures ParseSpec(b).Err? ==> ParseSpec(b).error == TooShort || ParseSpec(b).error == BadTable
    ensures ParseSpec(b).Ok? ==> Crc32(ParseSpec(b).value.data) == ParseSpec(b).value.dataCrc
  {
    hide U32, U64, MetaAt, EntryAt, Coherent, Crc32, MetaSeen, DataSeen, MetaBytes;
    var g := CheckHeader(b).value;
    if g.DataEnd() <= |b| {
      StreamingAgrees(b);
      TableErrors(b, g.tableOff, g.count, g.dataSize);
    }
  }

  lemma {:induction false} TableErrors(b: Bytes, off: nat, n: nat, dataSize: nat)
    requires off + n * ENTRY_SIZE <= |b|
    ensures EntriesAt(b, off, n, dataSize).Err? ==> EntriesAt(b, off, n, dataSize).error == BadTable
    decreases n
  {
    if n > 0 {
      TableErrors(b, off, n - 1, dataSize);
    }
  }

  // ---- Damage ------------------------------------------------------------------------------------

  /** The fields that place the sections, and the stored checksums. */
  predicate Placing(i: nat) {
    i < 8 || 136 <= i < HEADER_SIZE
  }

  lemma SameHeader(b: Bytes, b': Bytes)
    requires |b| == |b'| && forall i: nat | i < |b| && Placing(i) :: b[i] == b'[i]
    ensures CheckHeader(b) == CheckHeader(b')
  {
    hide LeNum;
    if |b| >= HEADER_SIZE {
      forall i, j | 0 <= i <= j <= 8 || 136 <= i <= j <= HEADER_SIZE ensures b[i..j] == b'[i..j] {
      }
    }
  }

  /** Four damaged bytes anywhere in the data section are always caught, and
      always reported as a data mismatch. */
  lemma DataDamage(p: Bytes, x: Bytes, y: Bytes, q: Bytes)
    requires |x| == |y| <= 4 && x != y && Verdict(p + x + q).Ok? && |p + x + q| < LIMIT
    requires var g := CheckHeader(p + x + q).value; g.dataOff <= |p| && |p| + |x| <= g.DataEnd() <= |p + x + q|
    ensures Verdict(p + y + q) == Err(DataMismatch)
  {
    hide U32, U64, Crc32, RegionsAt, CheckHeader, DataSeen, MetaSeen;
    var b, b' := p + x + q, p + y + q;
    SameHeader(b, b');
    var g := CheckHeader(b).value;
    SameMeta(b, b', g.TableEnd(), |p|);
    var lead, rest := p[g.dataOff..], q[..g.DataEnd() - |p| - |x|];
    DataAround(p, x, q, g.dataOff, g.DataEnd());
    DataAround(p, y, q, g.dataOff, g.DataEnd());
    Burst(lead, x, y, rest);
  }

  lemma SameMeta(b: Bytes, b': Bytes, end: nat, n: nat)
    requires |b| == |b'| && end <= n <= |b| && forall i | 0 <= i < n :: b[i] == b'[i]
    ensures MetaSeen(b, end) == MetaSeen(b', end)
  {
  }

  lemma DataAround(p: Bytes, x: Bytes, q: Bytes, off: nat, end: nat)
    requires off <= |p| && |p| + |x| <= end <= |p + x + q| && x != []
    ensures DataSeen(p + x + q, off, end) == p[off..] + x + q[..end - |p| - |x|]
  {
  }

  /** Four damaged bytes among the model's scalars and its name, or in the
      tokenizer blob or the tensor table, are always reported as a metadata
      mismatch. */
  lemma MetaDamage(p: Bytes, x: Bytes, y: Bytes, q: Bytes)
    requires |x| == |y| <= 4 && x != y && Verdict(p + x + q).Ok?
    requires (8 <= |p| && |p| + |x| <= 136) || HEADER_SIZE <= |p|
    requires |p| + |x| <= CheckHeader(p + x + q).value.TableEnd() <= |p + x + q|
    ensures Verdict(p + y + q) == Err(MetaMismatch)
  {
    hide U32, U64, Crc32, RegionsAt, CheckHeader, DataSeen;
    var b, b' := p + x + q, p + y + q;
    SameHeader(b, b');
    var end := CheckHeader(b).value.TableEnd();
    var lead, rest := Masked(p), Masked(b)[|p| + |x|..end];
    assert MetaSeen(b, end) == lead + x + rest;
    assert MetaSeen(b', end) == lead + y + rest;
    Burst(lead, x, y, rest);
  }

  /** Four damaged bytes among the place and size of the data section, or in the
      unused field before them: the header no longer passes, or the metadata
      checksum does not. */
  lemma SectionDamage(p: Bytes, x: Bytes, y: Bytes, q: Bytes)
    requires |x| == |y| <= 4 && x != y && Verdict(p + x + q).Ok?
    requires 164 <= |p| && |p| + |x| <= CRC_FIELDS_OFF && CheckHeader(p + x + q).value.TableEnd() <= |p + x + q|
    ensures Verdict(p + y + q) ==
      Err(if RegionsAt(p + y + q).dataOff < CheckHeader(p + x + q).value.TableEnd() then BadHeader else MetaMismatch)
  {
    hide U32, U64, Crc32, DataSeen;
    var b, b' := p + x + q, p + y + q;
    SameOrder(b, b');
    var end := CheckHeader(b).value.TableEnd();
    var lead, rest := Masked(p), Masked(b)[|p| + |x|..end];
    assert MetaSeen(b, end) == lead + x + rest;
    assert MetaSeen(b', end) == lead + y + rest;
    Burst(lead, x, y, rest);
  }

  /** All header fields but the place and size of the data section. */
  lemma SameOrder(b: Bytes, b': Bytes)
    requires |b| == |b'| >= HEADER_SIZE && forall i: nat | i < 164 || CRC_FIELDS_OFF <= i < HEADER_SIZE :: b[i] == b'[i]
    ensures b[0..4] == b'[0..4] && U32(b, 4) == U32(b', 4)
    ensures RegionsAt(b') == RegionsAt(b).(dataOff := U64(b', 168), dataSize := U64(b', 176))
  {
    hide LeNum;
    forall i, j | 0 <= i <= j <= 164 || CRC_FIELDS_OFF <= i <= j <= HEADER_SIZE ensures b[i..j] == b'[i..j] {
    }
  }

  /** Four damaged bytes among the place and size of the tokenizer blob and the
      place of the table always break the order of the sections. */
  lemma OrderDamage(p: Bytes, x: Bytes, y: Bytes, q: Bytes)
    requires |x| == |y| <= 4 && x != y && Verdict(p + x + q).Ok?
    requires 136 <= |p| && |p| + |x| <= 160
    ensures Verdict(p + y + q) == Err(BadHeader)
  {
    hide U32, U64, RegionsAt, LeNum, Crc32, MetaSeen, DataSeen, CheckHeader;
    var b, b' := p + x + q, p + y + q;
    HeaderErrors(b');
    if CheckHeader(b').Ok? {
      OrderKept(b, b', |p|);
      SameMiddle(p, x, y, q);
    }
  }

  lemma HeaderErrors(b: Bytes)
    ensures CheckHeader(b).Err? ==> CheckHeader(b) == Err(BadHeader)
  {
  }

  lemma SameMiddle(p: Bytes, x: Bytes, y: Bytes, q: Bytes)
    requires |x| == |y| && 136 <= |p| && |p| + |x| <= 160 <= |p + x + q| && (p + x + q)[136..160] == (p + y + q)[136..160]
    ensures x == y
  {
    var b, b' := p + x + q, p + y + q;
    forall k | 0 <= k < |x| ensures x[k] == y[k] {
      assert b[|p| + k] == b[136..160][|p| + k - 136] && b'[|p| + k] == b'[136..160][|p| + k - 136];
    }
  }

  /** The three places are tied to each other, so no four bytes can change them
      consistently: the size would have to change by a multiple of a high weight
      and the place by less than a low one. */
  lemma OrderKept(b: Bytes, b': Bytes, at: nat)
    requires |b| == |b'| && CheckHeader(b).Ok? && CheckHeader(b').Ok?
    requires forall i: nat | i < |b| && !(at <= i < at + 4) :: b[i] == b'[i]
    ensures b[136..160] == b'[136..160]
  {
    hide LeNum, CheckHeader;
    var s, s', t, t' := b[144..152], b'[144..152], b[152..160], b'[152..160];
    Tied(b);
    Tied(b');
    if at < 149 {
      SameSlice(b, b', 152, 160);
    } else if at < 152 {
      SameSlice(b, b', 144, 149);
      SameSlice(b, b', 155, 160);
      assert s[..5] == b[144..149] && s'[..5] == b'[144..149] && t[3..] == b[155..160] && t'[3..] == b'[155..160];
      Straddle(s, s', t, t');
    } else {
      SameSlice(b, b', 144, 152);
    }
    LeInjective(b[136..144], b'[136..144]);
    LeInjective(s, s');
    LeInjective(t, t');
    assert b[136..160] == b[136..144] + s + t && b'[136..160] == b'[136..144] + s' + t';
  }

  /** What the header gate says of the three numbers. */
  lemma Tied(b: Bytes)
    requires CheckHeader(b).Ok?
    ensures |b| >= HEADER_SIZE && LeNum(b[136..144]) == HEADER_SIZE && LeNum(b[152..160]) == HEADER_SIZE + LeNum(b[144..152])
  {
    hide LeNum;
  }

  lemma SameSlice(b: Bytes, b': Bytes, i: nat, j: nat)
    requires i <= j <= |b| == |b'| && forall k | i <= k < j :: b[k] == b'[k]
    ensures b[i..j] == b'[i..j]
  {
  }

  lemma Straddle(s: Bytes, s': Bytes, t: Bytes, t': Bytes)
    requires |s| == |s'| == |t| == |t'| == 8 && s[..5] == s'[..5] && t[3..] == t'[3..]
    requires LeNum(t) - LeNum(t') == LeNum(s) - LeNum(s')
    ensures LeNum(s) == LeNum(s')
  {
    hide LeNum, Coarse, Fine;
    var low, high := s[..5], t[3..];
    var a := SplitFive(s, low);
    var b := SplitFive(s', low);
    var c := SplitThree(t, high);
    var d := SplitThree(t', high);
    TooCoarse(LeNum(s), LeNum(s'), LeNum(t), LeNum(t'), LeNum(low), a, b, c, d, LeNum(high));
  }

  lemma TooCoarse(x: nat, x': nat, z: nat, z': nat, low: nat, a: nat, b: nat, c: nat, d: nat, high: nat)
    requires x == low + Coarse(a) && x' == low + Coarse(b) && z == c + Fine(high) && z' == d + Fine(high)
    requires z - z' == x - x' && c < 0x100_0000 && d < 0x100_0000
    ensures x == x'
  {
  }

  function Coarse(a: nat): nat { 0x100_0000_0000 * a }
  function Fine(a: nat): nat { 0x100_0000 * a }

  lemma SplitFive(s: Bytes, low: Bytes) returns (a: nat)
    requires |s| == 8 && low == s[..5]
    ensures LeNum(s) == LeNum(low) + Coarse(a)
  {
    hide LeNum, Pow256;
    Pow256Values();
    LeSplit(s, 5);
    a := LeNum(s[5..]);
  }

  lemma SplitThree(t: Bytes, high: Bytes) returns (c: nat)
    requires |t| == 8 && high == t[3..]
    ensures LeNum(t) == c + Fine(LeNum(high)) && c < 0x100_0000
  {
    hide LeNum, Pow256;
    Pow256Values();
    LeSplit(t, 3);
    LeBound(t[..3]);
    c := LeNum(t[..3]);
  }

  /** Any damage to the magic or the version is a bad header. */
  lemma TagDamage(b: Bytes, b': Bytes)
    requires Verdict(b).Ok? && |b'| == |b| && b'[..8] != b[..8]
    ensures Verdict(b') == Err(BadHeader)
  {
    hide LeNum, RegionsAt;
    if b'[0..4] == MAGIC && U32(b', 4) == VERSION {
      SameTag(b, b');
    }
  }

  lemma SameTag(b: Bytes, b': Bytes)
    requires |b| >= 8 && |b'| >= 8 && b[0..4] == b'[0..4] && U32(b, 4) == U32(b', 4)
    ensures b[..8] == b'[..8]
  {
    hide LeNum;
    LeInjective(b[4..8], b'[4..8]);
    assert b[..8] == b[0..4] + b[4..8] && b'[..8] == b'[0..4] + b'[4..8];
  }

  /** Any damage to a stored checksum is reported as a mismatch of the section
      it is for; the metadata checksum is looked at first. */
  lemma ChecksumDamage(b: Bytes, b': Bytes)
    requires Verdict(b).Ok? && |b'| == |b|
    requires forall i | 0 <= i < |b| && !(CRC_FIELDS_OFF <= i < HEADER_SIZE) :: b'[i] == b[i]
    requires b'[CRC_FIELDS_OFF..HEADER_SIZE] != b[CRC_FIELDS_OFF..HEADER_SIZE]
    ensures Verdict(b') == Err(if b'[188..192] != b[188..192] then MetaMismatch else DataMismatch)
  {
    hide LeNum, Crc32, RegionsAt;
    SamePlaces(b, b');
    var g := RegionsAt(b);
    assert Masked(b) == Masked(b');
    assert DataSeen(b, g.dataOff, WrappedEnd(g)) == DataSeen(b', g.dataOff, WrappedEnd(g));
    if b'[188..192] != b[188..192] {
      LeDistinct(b'[188..192], b[188..192]);
    } else {
      assert b[184..192] == b[184..188] + b[188..192] && b'[184..192] == b'[184..188] + b'[188..192];
      LeDistinct(b'[184..188], b[184..188]);
    }
  }

  lemma SamePlaces(b: Bytes, b': Bytes)
    requires |b'| == |b| >= HEADER_SIZE && forall i | 0 <= i < CRC_FIELDS_OFF :: b'[i] == b[i]
    ensures b'[0..4] == b[0..4] && U32(b', 4) == U32(b, 4)
    ensures RegionsAt(b') == RegionsAt(b).(dataCrc := LeNum(b'[184..188]), metaCrc := LeNum(b'[188..192]))
    ensures RegionsAt(b).dataCrc == LeNum(b[184..188]) && RegionsAt(b).metaCrc == LeNum(b[188..192])
  {
    hide LeNum;
    forall i, j | 0 <= i <= j <= CRC_FIELDS_OFF ensures b[i..j] == b'[i..j] {
    }
  }

  lemma LeDistinct(s: Bytes, t: Bytes)
    requires |s| == |t| && s != t
    ensures LeNum(s) != LeNum(t)
  {
    if LeNum(s) == LeNum(t) {
      LeInjective(s, t);
    }
  }

  // ---- Four damaged bytes anywhere ---------------------------------------------------------------

  /** The two lists agree outside four consecutive places. */
  ghost predicate Differ4(s: Bytes, s': Bytes, at: int) {
    |s| == |s'| && forall i | 0 <= i < |s| && !(at <= i < at + 4) :: s[i] == s'[i]
  }

  lemma WindowBurst(s: Bytes, s': Bytes, at: int)
    requires Differ4(s, s', at) && s != s'
    ensures Crc32(s) != Crc32(s')
  {
    hide *;
    var lo, hi := Max(0, Min(at, |s|)), Max(0, Min(at + 4, |s|));
    WindowBounds(|s|, at);
    SameOutside(s, s', at, lo, hi);
    ThreeParts(s, lo, hi);
    ThreeParts(s', lo, hi);
    Burst(s[..lo], s[lo..hi], s'[lo..hi], s[hi..]);
  }

  lemma WindowBounds(n: nat, at: int)
    ensures 0 <= Max(0, Min(at, n)) <= Max(0, Min(at + 4, n)) <= n
    ensures Max(0, Min(at + 4, n)) - Max(0, Min(at, n)) <= 4
    ensures Max(0, Min(at, n)) <= at || Max(0, Min(at, n)) == 0
    ensures at + 4 <= Max(0, Min(at + 4, n)) || Max(0, Min(at + 4, n)) == n
  {
  }

  lemma SameOutside(s: Bytes, s': Bytes, at: int, lo: nat, hi: nat)
    requires Differ4(s, s', at) && lo <= hi <= |s| && (lo <= at || lo == 0) && (at + 4 <= hi || hi == |s|)
    ensures |s| == |s'| && s[..lo] == s'[..lo] && s[hi..] == s'[hi..]
  {
  }

  lemma ThreeParts(s: Bytes, lo: nat, hi: nat)
    requires lo <= hi <= |s|
    ensures s == s[..lo] + s[lo..hi] + s[hi..]
  {
  }

  lemma WindowPart(s: Bytes, s': Bytes, at: int, i: nat, j: nat)
    requires Differ4(s, s', at) && i <= j <= |s|
    ensures Differ4(s[i..j], s'[i..j], at - i)
  {
  }

  lemma WindowMasked(s: Bytes, s': Bytes, at: int, end: nat)
    requires Differ4(s, s', at) && end <= |s|
    ensures Differ4(MetaSeen(s, end), MetaSeen(s', end), at)
  {
  }

  /** If both headers pass and the count is kept, everything that places the metadata
      is kept. */
  lemma PlacesKept(b: Bytes, b': Bytes, at: nat)
    requires Differ4(b, b', at) && CheckHeader(b).Ok? && CheckHeader(b').Ok? && b'[160..164] == b[160..164]
    ensures b'[..8] == b[..8] && b'[136..160] == b[136..160]
    ensures RegionsAt(b').TableEnd() == RegionsAt(b).TableEnd()
  {
    hide LeNum, CheckHeader;
    BothTags(b);
    BothTags(b');
    SameTag(b, b');
    OrderKept(b, b', at);
    assert b[152..160] == b[136..160][16..] && b'[152..160] == b'[136..160][16..];
  }

  lemma BothTags(b: Bytes)
    requires CheckHeader(b).Ok?
    ensures |b| >= HEADER_SIZE && b[0..4] == MAGIC && U32(b, 4) == VERSION
  {
  }

  /** Equal hashed bytes give equal verdicts. */
  lemma HashedDecide(b: Bytes, b': Bytes)
    requires |b| == |b'| && CheckHeader(b).Ok?
    requires CheckHeader(b).value.DataEnd() <= |b| < LIMIT && RegionsAt(b) == CheckHeader(b).value && HEADER_SIZE <= RegionsAt(b).TableEnd()
    requires var g := RegionsAt(b); b'[..g.TableEnd()] == b[..g.TableEnd()] && b'[g.dataOff..g.DataEnd()] == b[g.dataOff..g.DataEnd()]
    ensures Verdict(b') == Verdict(b)
  {
    hide LeNum, RegionsAt, CheckHeader, Crc32;
    var g := CheckHeader(b).value;
    HeaderInside(b);
    HeaderPrefix(b, g.TableEnd());
    HeaderPrefix(b', g.TableEnd());
    assert MetaSeen(b', g.TableEnd()) == MetaSeen(b, g.TableEnd()) by {
      SameMeta(b, b', g.TableEnd(), g.TableEnd());
    }
    assert WrappedEnd(g) == g.DataEnd();
  }

  lemma HeaderInside(b: Bytes)
    requires CheckHeader(b).Ok?
    ensures HEADER_SIZE <= |b| && HEADER_SIZE <= CheckHeader(b).value.TableEnd() <= CheckHeader(b).value.dataOff
    ensures CheckHeader(b).value == RegionsAt(b)
  {
  }

  /** What a file shows of the checks when its header passes. */
  lemma VerdictParts(b: Bytes)
    requires Verdict(b).Ok? && |b| < LIMIT && RegionsAt(b).DataEnd() <= |b|
    ensures var g := RegionsAt(b);
      && CheckHeader(b) == Ok(g) && Crc32(MetaSeen(b, g.TableEnd())) == g.metaCrc
      && Crc32(b[g.dataOff..g.DataEnd()]) == g.dataCrc
  {
    hide Crc32, MetaSeen;
    var g := RegionsAt(b);
    assert WrappedEnd(g) == g.DataEnd();
    assert DataSeen(b, g.dataOff, g.DataEnd()) == b[g.dataOff..g.DataEnd()];
  }

  /** Which damage of four consecutive bytes goes unnoticed, on a file that holds its
      sections: exactly that of bytes no checksum covers. The two cases shut out, the
      tensor count and a stored metadata checksum damaged together with what follows
      it, can go unnoticed: see module Damage. */
  lemma FourByteDamage(b: Bytes, b': Bytes, at: nat)
    requires Verdict(b).Ok? && |b| < LIMIT && RegionsAt(b).DataEnd() <= |b| && Differ4(b, b', at)
    requires b'[160..164] == b[160..164]
    requires HEADER_SIZE <= RegionsAt(b).TableEnd() <= |b|
    requires b'[188..192] == b[188..192] || b'[192..RegionsAt(b).TableEnd()] == b[192..RegionsAt(b).TableEnd()]
    ensures var g := RegionsAt(b);
      Verdict(b').Ok? <==> b'[..g.TableEnd()] == b[..g.TableEnd()] && b'[g.dataOff..g.DataEnd()] == b[g.dataOff..g.DataEnd()]
  {
    hide LeNum, RegionsAt, CheckHeader, Crc32, MetaSeen, DataSeen, Differ4;
    SameLength(b, b', at);
    VerdictParts(b);
    HeaderInside(b);
    var g := RegionsAt(b);
    if b'[..g.TableEnd()] == b[..g.TableEnd()] && b'[g.dataOff..g.DataEnd()] == b[g.dataOff..g.DataEnd()] {
      HashedDecide(b, b');
    } else if CheckHeader(b').Ok? {
      DamageNoticed(b, b', at);
    }
  }

  lemma DamageNoticed(b: Bytes, b': Bytes, at: nat)
    requires Verdict(b).Ok? && CheckHeader(b').Ok? && |b| < LIMIT && RegionsAt(b).DataEnd() <= |b| && Differ4(b, b', at)
    requires b'[160..164] == b[160..164] && HEADER_SIZE <= RegionsAt(b).TableEnd() <= |b|
    requires b'[188..192] == b[188..192] || b'[192..RegionsAt(b).TableEnd()] == b[192..RegionsAt(b).TableEnd()]
    requires var g := RegionsAt(b); !(b'[..g.TableEnd()] == b[..g.TableEnd()] && b'[g.dataOff..g.DataEnd()] == b[g.dataOff..g.DataEnd()])
    ensures Verdict(b').Err?
  {
    hide LeNum, RegionsAt, CheckHeader, Crc32, MetaSeen, DataSeen, Differ4;
    SameLength(b, b', at);
    VerdictParts(b);
    HeaderInside(b);
    HeaderInside(b');
    PlacesKept(b, b', at);
    var g, g', end := RegionsAt(b), RegionsAt(b'), RegionsAt(b).TableEnd();
    StoredSums(b);
    StoredSums(b');
    if b'[188..192] != b[188..192] {
      LeDistinct(b'[188..192], b[188..192]);
      StoredAlone(b, b', at, end);
    } else if MetaSeen(b', end) != MetaSeen(b, end) {
      WindowMasked(b, b', at, end);
      WindowBurst(MetaSeen(b, end), MetaSeen(b', end), at);
    } else {
      SameHashed(b, b', end);
      DataPlaceKept(b, b');
      if b'[184..188] != b[184..188] {
        LeDistinct(b'[184..188], b[184..188]);
        DataAlone(b, b', at, g.dataOff, g.DataEnd());
      } else {
        MetaKept(b, b', end);
        WindowPart(b, b', at, g.dataOff, g.DataEnd());
        WindowBurst(b[g.dataOff..g.DataEnd()], b'[g.dataOff..g.DataEnd()], at - g.dataOff);
      }
      if Verdict(b').Ok? {
        VerdictParts(b');
      }
    }
  }

  lemma StoredSums(b: Bytes)
    requires |b| >= HEADER_SIZE
    ensures RegionsAt(b).dataCrc == LeNum(b[184..188]) && RegionsAt(b).metaCrc == LeNum(b[188..192])
  {
    hide LeNum;
  }

  lemma SameLength(b: Bytes, b': Bytes, at: nat)
    requires Differ4(b, b', at)
    ensures |b| == |b'|
  {
  }

  lemma Touched(b: Bytes, b': Bytes, at: nat, i: nat, j: nat)
    requires Differ4(b, b', at) && i <= j <= |b| && b'[i..j] != b[i..j]
    ensures i < at + 4 && at < j
  {
    if at + 4 <= i || j <= at {
      SameSlice(b, b', i, j);
    }
  }

  /** Damage to the stored metadata checksum alone leaves what it is for. */
  lemma StoredAlone(b: Bytes, b': Bytes, at: nat, end: nat)
    requires Differ4(b, b', at) && HEADER_SIZE <= end <= |b| && b'[188..192] != b[188..192] && b'[192..end] == b[192..end]
    ensures MetaSeen(b', end) == MetaSeen(b, end)
  {
    Touched(b, b', at, 188, 192);
    forall i | 192 <= i < end ensures b'[i] == b[i] {
      assert b'[192..end][i - 192] == b[192..end][i - 192];
    }
  }

  lemma SameHashed(b: Bytes, b': Bytes, end: nat)
    requires |b| == |b'| && HEADER_SIZE <= end <= |b| && MetaSeen(b', end) == MetaSeen(b, end)
    ensures forall i: nat | i < end && !(CRC_FIELDS_OFF <= i < HEADER_SIZE) :: b'[i] == b[i]
  {
    forall i: nat | i < end && !(CRC_FIELDS_OFF <= i < HEADER_SIZE) ensures b'[i] == b[i] {
      assert MetaSeen(b', end)[i] == b'[i] && MetaSeen(b, end)[i] == b[i];
    }
  }

  lemma DataPlaceKept(b: Bytes, b': Bytes)
    requires |b| == |b'| >= HEADER_SIZE && forall i: nat | i < CRC_FIELDS_OFF :: b'[i] == b[i]
    ensures RegionsAt(b').dataOff == RegionsAt(b).dataOff && RegionsAt(b').dataSize == RegionsAt(b).dataSize
  {
    hide LeNum;
    SamePlaces(b, b');
  }

  lemma DataAlone(b: Bytes, b': Bytes, at: nat, off: nat, end: nat)
    requires Differ4(b, b', at) && HEADER_SIZE <= off <= end <= |b| && b'[184..188] != b[184..188]
    ensures b'[off..end] == b[off..end]
  {
    Touched(b, b', at, 184, 188);
  }

  lemma MetaKept(b: Bytes, b': Bytes, end: nat)
    requires |b| == |b'| && HEADER_SIZE <= end <= |b| && b'[184..188] == b[184..188] && b'[188..192] == b[188..192]
    requires forall i: nat | i < end && !(CRC_FIELDS_OFF <= i < HEADER_SIZE) :: b'[i] == b[i]
    ensures b'[..end] == b[..end]
  {
    forall i | 0 <= i < end ensures b'[..end][i] == b[..end][i] {
      if 184 <= i < 188 {
        assert b'[184..188][i - 184] == b[184..188][i - 184];
      } else if 188 <= i < 192 {
        assert b'[188..192][i - 188] == b[188..192][i - 188];
      }
    }
  }

  // ---- The load loop ------------------------------------------------------------------------------

  datatype LoadError = Corrupt(e: VerifyError) | ReadFailed

  const CHUNK: nat := 16 * 1024 * 1024

  /** What loading a file amounts to. */
  function Outcome(file: Bytes): Result<Bytes, LoadError> {
    if |file| < HEADER_SIZE then Err(ReadFailed)
    else
      match Verdict(file)
      case Err(e) => Err(Corrupt(e))
      case Ok(_) => Ok(file)
  }

  /** `read(at, want)` is how many bytes the firmware delivers: at most what was
      asked for, possibly fewer. */
  ghost predicate Delivers(read: (nat, nat) -> nat) {
    forall at: nat, want: nat :: read(at, want) <= want
  }

  ghost predicate NeverEmpty(read: (nat, nat) -> nat) {
    forall at: nat, want: nat :: want > 0 ==> read(at, want) > 0
  }

  lemma PrefixJoin(file: Bytes, chunk: Bytes, prev: nat, done: nat)
    requires prev <= done <= |file| && chunk == file[prev..done]
    ensures file[..prev] + chunk == file[..done] && [] + file[..done] == file[..done]
  {
  }

  /** The firmware puts the next `n` bytes of the file in place. */
  method Arrive(file: Bytes, buf: array<Byte>, done: nat, n: nat)
    requires done + n <= |file| == buf.Length && buf[..done] == file[..done]
    modifies buf
    ensures buf[..done + n] == file[..done + n] && buf[done..done + n] == file[done..done + n]
  {
    forall i | done <= i < done + n {
      buf[i] := file[i];
    }
    assert buf[..done + n] == file[..done + n];
  }

  /** Once the header has arrived: a verifier that has seen what is there. */
  method Begin(file: Bytes, got: Bytes, done: nat) returns (r: Result<StreamingVerifier, VerifyError>)
    requires HEADER_SIZE <= done <= |file| && got == file[..done]
    ensures CheckHeader(file).Err? ==> r == Err(CheckHeader(file).error)
    ensures CheckHeader(file).Ok? ==> r.Ok? && fresh(r.value) && r.value.For(CheckHeader(file).value)
    ensures CheckHeader(file).Ok? ==> r.value.Valid() && r.value.fed == got && fresh(r.value.meta) && fresh(r.value.data)
  {
    hide CheckHeader, MetaSeen, DataSeen, StreamingVerifier.Valid;
    HeaderPrefix(file, done);
    r := StreamingVerifier.Open(got);
    if r.Ok? {
      r.value.Feed(0, got);
      assert [] + got == got;
    }
  }

  /** Read the whole file and check it on the way. However the firmware cuts the
      reads, the outcome is the one-shot outcome of the file. */
  method Load(file: Bytes, read: (nat, nat) -> nat) returns (r: Result<Bytes, LoadError>)
    requires Delivers(read)
    ensures r != Err(ReadFailed) ==> r == Outcome(file)
    ensures NeverEmpty(read) ==> r == Outcome(file)
  {
    hide CheckHeader, MetaSeen, DataSeen, Crc32, Masked, StreamingVerifier.Valid;
    var size := |file|;
    var buf := new Byte[size];
    var verifier: StreamingVerifier? := null;
    var done := 0;
    while done < size
      invariant 0 <= done <= size && buf[..done] == file[..done]
      invariant verifier == null <==> done < HEADER_SIZE
      invariant verifier != null ==> verifier.Valid() && verifier.fed == file[..done] && fresh(verifier) && fresh(verifier.meta) && fresh(verifier.data)
      invariant verifier != null ==> CheckHeader(file).Ok? && verifier.For(CheckHeader(file).value)
    {
      var end := if done + CHUNK < size then done + CHUNK else size;
      var n := read(done, end - done);
      if n == 0 {
        return Err(ReadFailed);
      }
      Arrive(file, buf, done, n);
      var prev := done;
      done := done + n;
      PrefixJoin(file, buf[prev..done], prev, done);
      if verifier == null && done >= HEADER_SIZE {
        var v := Begin(file, buf[..done], done);
        if v.Err? {
          return Err(Corrupt(v.error));
        }
        verifier := v.value;
      } else if verifier != null {
        verifier.Feed(prev, buf[prev..done]);
      }
    }
    assert buf[..] == file && file[..done] == file;
    if verifier == null {
      return Err(ReadFailed);
    }
    var verdict := verifier.Finish();
    r := match verdict case Ok(_) => Ok(buf[..]) case Err(e) => Err(Corrupt(e));
  }
}
