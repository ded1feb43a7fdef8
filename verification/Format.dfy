/** The model file: header, tokenizer blob, tensor table, tensor data. Parsing
    as a one-shot function and as the cursor and loops that compute it. */
module Format {
  import opened Wire
  import opened Wrappers
  import Crc

  const MAGIC: Bytes := [0x4E, 0x52, 0x55, 0x4E]
  const VERSION: nat := 3
  const HEADER_SIZE: nat := 192
  const NAME_LEN: nat := 48
  const ENTRY_SIZE: nat := 32
  const DATA_ALIGN: nat := 64

  datatype Dtype = F32 | Q8 | Q4K | Q6K

  datatype Meta = Meta(
    arch: nat, dim: nat, nLayers: nat, nHeads: nat, nKvHeads: nat, headDim: nat, ffnDim: nat, vocab: nat,
    ctxTrain: nat, ropeTheta: nat, normEps: nat, ropeFactor: nat, ropeLow: nat, ropeHigh: nat, ropeOrigCtx: nat,
    flags: nat, embedScale: nat, attnScale: nat, residualScale: nat, logitScale: nat, name: Bytes)

  datatype TensorEntry = TensorEntry(kind: nat, layer: nat, dtype: Dtype, offset: nat, size: nat, rows: nat, cols: nat)
  datatype TensorView = TensorView(dtype: Dtype, rows: nat, cols: nat, bytes: Bytes)
  datatype ParseError = TooShort | BadMagic | BadVersion(v: nat) | MetaCrc(expected: nat, got: nat) | BadTable | MissingTensor
  datatype Model = Model(meta: Meta, entries: seq<TensorEntry>, tokenizer: Bytes, data: Bytes, dataCrc: nat)

  /** Where the sections lie, with both stored checksums. */
  datatype Regions = Regions(
    tokOff: nat, tokSize: nat, tableOff: nat, count: nat, dataOff: nat, dataSize: nat, dataCrc: nat, metaCrc: nat)
  {
    function TokEnd(): nat { tokOff + tokSize }
    function TableEnd(): nat { tableOff + count * ENTRY_SIZE }
    function DataEnd(): nat { dataOff + dataSize }
  }

  // ---- Fields at fixed offsets ----------------------------------------------------------

  function MetaAt(b: Bytes): Meta
    requires |b| >= HEADER_SIZE
  {
    Meta(U32(b, 8), U32(b, 12), U32(b, 16), U32(b, 20), U32(b, 24), U32(b, 28), U32(b, 32), U32(b, 36),
         U32(b, 40), U32(b, 44), U32(b, 48), U32(b, 52), U32(b, 56), U32(b, 60), U32(b, 64),
         U32(b, 68), U32(b, 72), U32(b, 76), U32(b, 80), U32(b, 84), b[88..136])
  }

  function RegionsAt(b: Bytes): Regions
    requires |b| >= HEADER_SIZE
  {
    Regions(U64(b, 136), U64(b, 144), U64(b, 152), U32(b, 160), U64(b, 168), U64(b, 176), U32(b, 184), U32(b, 188))
  }

  // ---- Scalar gates on bit patterns ------------------------------------------------------

  predicate Finite(bits: nat) {
    (bits / 0x80_0000) % 256 != 255
  }

  /** `x < 0.0`, for finite x: the sign bit is set and x is not minus zero. */
  predicate Negative(bits: nat) {
    bits > 0x8000_0000
  }

  /** `x <= 0.0`, for finite x. */
  predicate NotPositive(bits: nat) {
    bits == 0 || bits >= 0x8000_0000
  }

  predicate Coherent(m: Meta) {
    && Finite(m.embedScale)
    && Finite(m.attnScale) && !Negative(m.attnScale)
    && Finite(m.residualScale) && !NotPositive(m.residualScale)
    && Finite(m.logitScale) && !NotPositive(m.logitScale)
  }

  // ---- The tensor table --------------------------------------------------------------------

  function DtypeOf(v: nat): Result<Dtype, ParseError> {
    if v == 0 then Ok(F32) else if v == 1 then Ok(Q8) else if v == 2 then Ok(Q4K) else if v == 3 then Ok(Q6K) else Err(BadTable)
  }

  function CheckedMul(a: nat, b: nat): Result<nat, ParseError> {
    if a * b < LIMIT then Ok(a * b) else Err(BadTable)
  }

  /** Bytes of `n` elements; no answer unless whole blocks fill them. */
  function ByteSize(t: Dtype, n: nat): (r: Result<nat, ParseError>)
  {
    match t
    case F32 => CheckedMul(n, 4)
    case Q8 => if n % 32 == 0 then CheckedMul(n / 32, 34) else Err(BadTable)
    case Q4K => if n % 256 == 0 then CheckedMul(n / 256, 144) else Err(BadTable)
    case Q6K => if n % 256 == 0 then CheckedMul(n / 256, 210) else Err(BadTable)
  }

  /** The gates one entry must pass against the size of the data section. */
  predicate EntryOk(e: TensorEntry, dataSize: nat) {
    && e.offset + e.size <= dataSize
    && e.offset % DATA_ALIGN == 0
    && ByteSize(e.dtype, e.rows * e.cols) == Ok(e.size)
  }

  function EntryAt(b: Bytes, off: nat, dataSize: nat): Result<TensorEntry, ParseError>
    requires off + ENTRY_SIZE <= |b|
  {
    match DtypeOf(U16(b, off + 4))
    case Err(e) => Err(e)
    case Ok(t) =>
      var e := TensorEntry(U16(b, off), U16(b, off + 2), t, U64(b, off + 8), U64(b, off + 16), U32(b, off + 24), U32(b, off + 28));
      MulProduct(e.rows, e.cols);
      if EntryOk(e, dataSize) then Ok(e) else Err(BadTable)
  }

  lemma MulProduct(a: nat, b: nat)
    ensures a * b >= 0
  {
  }

  /** The first `n` entries of the table at `off`; the first bad one decides. */
  function EntriesAt(b: Bytes, off: nat, n: nat, dataSize: nat): (r: Result<seq<TensorEntry>, ParseError>)
    requires off + n * ENTRY_SIZE <= |b|
    ensures r.Ok? ==> |r.value| == n
  {
    if n == 0 then Ok([])
    else
      match EntriesAt(b, off, n - 1, dataSize)
      case Err(e) => Err(e)
      case Ok(es) =>
        match EntryAt(b, off + (n - 1) * ENTRY_SIZE, dataSize)
        case Err(e) => Err(e)
        case Ok(e) => Ok(es + [e])
  }

  lemma {:induction false} EntriesFail(b: Bytes, off: nat, k: nat, n: nat, dataSize: nat)
    requires k <= n && off + n * ENTRY_SIZE <= |b| && EntriesAt(b, off, k, dataSize).Err?
    ensures EntriesAt(b, off, n, dataSize) == EntriesAt(b, off, k, dataSize)
    decreases n
  {
    if k < n {
      EntriesFail(b, off, k, n - 1, dataSize);
    }
  }

  lemma {:induction false} EntriesGood(b: Bytes, off: nat, n: nat, dataSize: nat, i: nat)
    requires i < n && off + n * ENTRY_SIZE <= |b| && EntriesAt(b, off, n, dataSize).Ok?
    ensures EntryOk(EntriesAt(b, off, n, dataSize).value[i], dataSize)
    decreases n
  {
    if i < n - 1 {
      EntriesGood(b, off, n - 1, dataSize, i);
    }
  }

  // ---- Checksums -----------------------------------------------------------------------------

  const BLANK: Bytes := [0, 0, 0, 0, 0, 0, 0, 0]

  /** What the metadata checksum covers: the header with both checksum fields
      zeroed, the tokenizer blob and the table. */
  function MetaBytes(b: Bytes, g: Regions): Bytes
    requires HEADER_SIZE <= |b| && g.TokEnd() <= |b| && g.TableEnd() <= |b|
  {
    b[..HEADER_SIZE - 8] + BLANK + b[g.tokOff..g.TokEnd()] + b[g.tableOff..g.TableEnd()]
  }

  // ---- One-shot parsing ---------------------------------------------------------------------

  function ParseSpec(b: Bytes): Result<Model, ParseError> {
    if |b| < HEADER_SIZE then Err(TooShort)
    else if b[0..4] != MAGIC then Err(BadMagic)
    else if U32(b, 4) != VERSION then Err(BadVersion(U32(b, 4)))
    else
      var m, g := MetaAt(b), RegionsAt(b);
      if !(1 <= m.arch <= 3) then Err(BadTable)
      else if !Coherent(m) then Err(BadTable)
      else if g.TableEnd() >= LIMIT || g.DataEnd() >= LIMIT || g.TokEnd() >= LIMIT then Err(TooShort)
      else if |b| < g.TableEnd() || |b| < g.DataEnd() || |b| < g.TokEnd() then Err(TooShort)
      else if Crc32(MetaBytes(b, g)) != g.metaCrc then Err(MetaCrc(g.metaCrc, Crc32(MetaBytes(b, g))))
      else
        match EntriesAt(b, g.tableOff, g.count, g.dataSize)
        case Err(e) => Err(e)
        case Ok(es) => Ok(Model(m, es, b[g.tokOff..g.TokEnd()], b[g.dataOff..g.DataEnd()], g.dataCrc))
  }

  // ---- The cursor and the loops ----------------------------------------------------------------

  class Cursor {
    const b: Bytes
    var at: nat

    constructor (b: Bytes, at: nat)
      ensures this.b == b && this.at == at
    {
      this.b, this.at := b, at;
    }

    method NextU16() returns (v: nat)
      requires at + 2 <= |b|
      modifies this
      ensures v == U16(b, old(at)) && at == old(at) + 2
    {
      v := LeNum(b[at..at + 2]);
      at := at + 2;
    }

    method NextU32() returns (v: nat)
      requires at + 4 <= |b|
      modifies this
      ensures v == U32(b, old(at)) && at == old(at) + 4
    {
      v := LeNum(b[at..at + 4]);
      at := at + 4;
    }

    method NextU64() returns (v: nat)
      requires at + 8 <= |b|
      modifies this
      ensures v == U64(b, old(at)) && at == old(at) + 8
    {
      v := LeNum(b[at..at + 8]);
      at := at + 8;
    }

    /** The architecture tag and the eight sizes. */
    method NextSizes() returns (v: seq<nat>)
      requires at == 8 && |b| >= HEADER_SIZE
      modifies this
      ensures v == [U32(b, 8), U32(b, 12), U32(b, 16), U32(b, 20), U32(b, 24), U32(b, 28), U32(b, 32), U32(b, 36), U32(b, 40)]
      ensures at == 44
    {
      hide U32, LeNum;
      var arch := NextU32();
      var dim := NextU32();
      var nLayers := NextU32();
      var nHeads := NextU32();
      var nKvHeads := NextU32();
      var headDim := NextU32();
      var ffnDim := NextU32();
      var vocab := NextU32();
      var ctxTrain := NextU32();
      v := [arch, dim, nLayers, nHeads, nKvHeads, headDim, ffnDim, vocab, ctxTrain];
    }

    method NextMeta() returns (m: Meta)
      requires at == 8 && |b| >= HEADER_SIZE
      modifies this
      ensures m == MetaAt(b) && at == 136
    {
      hide U32, LeNum;
      var v := NextSizes();
      var ropeTheta := NextU32();
      var normEps := NextU32();
      var ropeFactor := NextU32();
      var ropeLow := NextU32();
      var ropeHigh := NextU32();
      var ropeOrigCtx := NextU32();
      var flags := NextU32();
      var embedScale := NextU32();
      var attnScale := NextU32();
      var residualScale := NextU32();
      var logitScale := NextU32();
      var name := b[at..at + NAME_LEN];
      at := at + NAME_LEN;
      m := Meta(v[0], v[1], v[2], v[3], v[4], v[5], v[6], v[7], v[8], ropeTheta, normEps, ropeFactor,
                ropeLow, ropeHigh, ropeOrigCtx, flags, embedScale, attnScale, residualScale, logitScale, name);
    }

    method NextRegions() returns (g: Regions)
      requires at == 136 && |b| >= HEADER_SIZE
      modifies this
      ensures g == RegionsAt(b) && at == HEADER_SIZE
    {
      hide U32, U64, LeNum;
      var tokOff := NextU64();
      var tokSize := NextU64();
      var tableOff := NextU64();
      var count := NextU32();
      var pad := NextU32();
      var dataOff := NextU64();
      var dataSize := NextU64();
      var dataCrc := NextU32();
      var metaCrc := NextU32();
      g := Regions(tokOff, tokSize, tableOff, count, dataOff, dataSize, dataCrc, metaCrc);
    }

    method NextEntry(dataSize: nat) returns (r: Result<TensorEntry, ParseError>)
      requires at + ENTRY_SIZE <= |b| && dataSize < LIMIT
      modifies this
      ensures r == EntryAt(b, old(at), dataSize)
      ensures r.Ok? ==> at == old(at) + ENTRY_SIZE
    {
      hide U16, U32, U64, LeNum;
      var kind := NextU16();
      var layer := NextU16();
      var tag := NextU16();
      var dtype := DtypeOf(tag);
      if dtype.Err? {
        return Err(dtype.error);
      }
      var pad := NextU16();
      var offset := NextU64();
      var size := NextU64();
      var rows := NextU32();
      var cols := NextU32();
      if offset + size >= LIMIT || offset + size > dataSize || offset % DATA_ALIGN != 0 {
        return Err(BadTable);
      }
      MulProduct(rows, cols);
      ProductFits(rows, cols);
      if ByteSize(dtype.value, rows * cols) != Ok(size) {
        return Err(BadTable);
      }
      r := Ok(TensorEntry(kind, layer, dtype.value, offset, size, rows, cols));
    }
  }

  lemma ProductMono(a: nat, b: nat, k: nat)
    requires a <= b
    ensures a * k <= b * k
  {
  }

  /** The element count of any entry fits in 64 bits. */
  lemma ProductFits(rows: nat, cols: nat)
    requires rows < WORD && cols < WORD
    ensures rows * cols < LIMIT
  {
    ProductMono(rows, 0x1_0000_0000, cols);
  }

  method Parse(b: Bytes) returns (r: Result<Model, ParseError>)
    ensures r == ParseSpec(b)
  {
    hide U32, U64, MetaAt, RegionsAt, EntryAt, Crc.Checksum, Coherent;
    if |b| < HEADER_SIZE {
      return Err(TooShort);
    }
    if b[0..4] != MAGIC {
      return Err(BadMagic);
    }
    var c := new Cursor(b, 4);
    var version := c.NextU32();
    if version != VERSION {
      return Err(BadVersion(version));
    }
    var m := c.NextMeta();
    if !(1 <= m.arch <= 3) {
      return Err(BadTable);
    }
    var g := c.NextRegions();
    if !Coherent(m) {
      return Err(BadTable);
    }
    if g.TableEnd() >= LIMIT || g.DataEnd() >= LIMIT || g.TokEnd() >= LIMIT {
      return Err(TooShort);
    }
    if |b| < g.TableEnd() || |b| < g.DataEnd() || |b| < g.TokEnd() {
      return Err(TooShort);
    }
    var crc := MetaChecksum(b, g);
    if crc != g.metaCrc {
      return Err(MetaCrc(g.metaCrc, crc));
    }
    RegionBounds(b);
    r := ParseTable(b, m, g);
  }

  lemma RegionBounds(b: Bytes)
    requires |b| >= HEADER_SIZE
    ensures RegionsAt(b).dataSize < LIMIT
  {
  }

  method MetaChecksum(b: Bytes, g: Regions) returns (crc: nat)
    requires HEADER_SIZE <= |b| && g.TokEnd() <= |b| && g.TableEnd() <= |b|
    ensures crc == Crc32(MetaBytes(b, g))
  {
    hide Raw, Crc.State, Number;
    var h := new Crc.Crc32();
    h.Update(Raw(b[..HEADER_SIZE - 8]));
    h.Update(Raw(BLANK));
    h.Update(Raw(b[g.tokOff..g.TokEnd()]));
    h.Update(Raw(b[g.tableOff..g.TableEnd()]));
    StateJoin(Crc.INIT, b[..HEADER_SIZE - 8], BLANK);
    StateJoin(Crc.INIT, b[..HEADER_SIZE - 8] + BLANK, b[g.tokOff..g.TokEnd()]);
    StateJoin(Crc.INIT, b[..HEADER_SIZE - 8] + BLANK + b[g.tokOff..g.TokEnd()], b[g.tableOff..g.TableEnd()]);
    crc := Number(h.Finish());
  }

  /** Hashing two pieces one after another hashes their concatenation. */
  lemma StateJoin(c: bv32, s: Bytes, t: Bytes)
    ensures Crc.State(Crc.State(c, Raw(s)), Raw(t)) == Crc.State(c, Raw(s + t))
  {
    hide Raw, Crc.State;
    RawAppend(s, t);
    Crc.StateAppend(c, Raw(s), Raw(t));
  }

  method ParseTable(b: Bytes, m: Meta, g: Regions) returns (r: Result<Model, ParseError>)
    requires |b| >= g.TableEnd() && |b| >= g.DataEnd() && |b| >= g.TokEnd() && g.dataSize < LIMIT
    ensures r == match EntriesAt(b, g.tableOff, g.count, g.dataSize)
                 case Err(e) => Err(e)
                 case Ok(es) => Ok(Model(m, es, b[g.tokOff..g.TokEnd()], b[g.dataOff..g.DataEnd()], g.dataCrc))
  {
    hide EntryAt;
    var entries: seq<TensorEntry> := [];
    var tc := new Cursor(b, g.tableOff);
    var i := 0;
    while i < g.count
      invariant 0 <= i <= g.count && tc.b == b && tc.at == g.tableOff + i * ENTRY_SIZE
      invariant EntriesAt(b, g.tableOff, i, g.dataSize) == Ok(entries)
    {
      var e := tc.NextEntry(g.dataSize);
      if e.Err? {
        EntriesFail(b, g.tableOff, i + 1, g.count, g.dataSize);
        return Err(e.error);
      }
      entries := entries + [e.value];
      i := i + 1;
    }
    r := Ok(Model(m, entries, b[g.tokOff..g.TokEnd()], b[g.dataOff..g.DataEnd()], g.dataCrc));
  }

  /** Checksum of the data section, 32 MiB at a time. */
  method VerifyData(m: Model) returns (ok: bool)
    ensures ok <==> Crc32(m.data) == m.dataCrc
  {
    hide Raw, Crc.State, Number;
    var h := new Crc.Crc32();
    var chunk, total, done := 32 * 1024 * 1024, |m.data|, 0;
    assert m.data[..0] == [];
    RawNothing();
    while done < total
      invariant 0 <= done <= total
      invariant h.state == Crc.State(Crc.INIT, Raw(m.data[..done]))
    {
      var end := if done + chunk < total then done + chunk else total;
      h.Update(Raw(m.data[done..end]));
      StateJoin(Crc.INIT, m.data[..done], m.data[done..end]);
      assert m.data[..done] + m.data[done..end] == m.data[..end];
      done := end;
    }
    assert m.data[..done] == m.data;
    ok := Number(h.Finish()) == m.dataCrc;
  }

  lemma RawNothing()
    ensures Crc.State(Crc.INIT, Raw([])) == Crc.INIT
  {
  }

  // ---- Lookup ----------------------------------------------------------------------------------

  /** Index of the first entry with this kind and layer, or the length. */
  function FirstIndex(es: seq<TensorEntry>, kind: nat, layer: nat): (i: nat)
    ensures i <= |es|
    ensures forall k | 0 <= k < i :: !(es[k].kind == kind && es[k].layer == layer)
    ensures i < |es| ==> es[i].kind == kind && es[i].layer == layer
  {
    if es == [] then 0
    else if es[0].kind == kind && es[0].layer == layer then 0
    else 1 + FirstIndex(es[1..], kind, layer)
  }

  /** Every entry's bytes lie inside the data section. */
  ghost predicate InRange(m: Model) {
    forall i | 0 <= i < |m.entries| :: m.entries[i].offset + m.entries[i].size <= |m.data|
  }

  function Tensor(m: Model, kind: nat, layer: nat): Result<TensorView, ParseError>
    requires InRange(m)
  {
    var i := FirstIndex(m.entries, kind, layer);
    if i == |m.entries| then Err(MissingTensor)
    else
      var e := m.entries[i];
      Ok(TensorView(e.dtype, e.rows, e.cols, m.data[e.offset..e.offset + e.size]))
  }

  /** Looking up any tensor of a parsed file stays inside the data section. */
  lemma ParsedInRange(b: Bytes)
    requires ParseSpec(b).Ok?
    ensures var m := ParseSpec(b).value;
      InRange(m) && forall i | 0 <= i < |m.entries| :: m.entries[i].offset % DATA_ALIGN == 0
  {
    hide U32, U64, MetaAt, RegionsAt, EntryAt, Coherent, ByteSize, Crc32;
    var g := RegionsAt(b);
    forall i | 0 <= i < g.count ensures EntryOk(EntriesAt(b, g.tableOff, g.count, g.dataSize).value[i], g.dataSize) {
      EntriesGood(b, g.tableOff, g.count, g.dataSize, i);
    }
  }
}
