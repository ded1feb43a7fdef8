/** Writing a model file, and the proof that reading gives everything back. */
module Converter {
  import opened Wire
  import opened Format
  import opened Wrappers
  import Verify
  import Crc

  datatype OutTensor = OutTensor(kind: nat, layer: nat, dtype: Dtype, rows: nat, cols: nat, bytes: Bytes)

  /** What the converter is given: in-range header values and tensors of whole
      blocks, small enough that no offset leaves 64 bits. */
  ghost predicate WellFormed(m: Meta, tok: Bytes, ts: seq<OutTensor>) {
    && 1 <= m.arch <= 3 && Coherent(m) && |m.name| == NAME_LEN
    && (forall i | 0 <= i < |MetaWords(m)| :: MetaWords(m)[i] < WORD)
    && |ts| < WORD
    && (forall i | 0 <= i < |ts| :: TensorOk(ts[i]))
    && |File(m, tok, ts)| < LIMIT
  }

  ghost predicate TensorOk(t: OutTensor) {
    && t.kind < 0x1_0000 && t.layer < 0x1_0000 && t.rows < WORD && t.cols < WORD
    && ByteSize(t.dtype, t.rows * t.cols) == Ok(|t.bytes|)
  }

  // ---- Layout ---------------------------------------------------------------------------

  /** The next multiple of 64. */
  function Align(n: nat): (a: nat)
    ensures a % DATA_ALIGN == 0 && n <= a < n + DATA_ALIGN
  {
    (n + DATA_ALIGN - 1) / DATA_ALIGN * DATA_ALIGN
  }

  function Zeros(n: nat): (s: Bytes)
    ensures |s| == n
  {
    seq(n, _ => 0)
  }

  /** The data section after the first `n` tensors. */
  function DataOf(ts: seq<OutTensor>, n: nat): Bytes
    requires n <= |ts|
  {
    if n == 0 then []
    else
      var d := DataOf(ts, n - 1);
      d + Zeros(Align(|d|) - |d|) + ts[n - 1].bytes
  }

  function Offset(ts: seq<OutTensor>, i: nat): nat
    requires i < |ts|
  {
    Align(|DataOf(ts, i)|)
  }

  lemma {:induction false} DataGrows(ts: seq<OutTensor>, i: nat, n: nat)
    requires i <= n <= |ts|
    ensures DataOf(ts, i) <= DataOf(ts, n)
    decreases n
  {
    if i < n {
      DataGrows(ts, i, n - 1);
    }
  }

  /** Each tensor's bytes are where its entry says, on a 64-byte boundary. */
  lemma Placed(ts: seq<OutTensor>, i: nat)
    requires i < |ts|
    ensures Offset(ts, i) % DATA_ALIGN == 0
    ensures Offset(ts, i) + |ts[i].bytes| <= |DataOf(ts, |ts|)|
    ensures DataOf(ts, |ts|)[Offset(ts, i)..Offset(ts, i) + |ts[i].bytes|] == ts[i].bytes
  {
    DataGrows(ts, i + 1, |ts|);
    var d := DataOf(ts, i + 1);
    assert d[Offset(ts, i)..] == ts[i].bytes;
    assert DataOf(ts, |ts|)[..|d|] == d;
  }

  /** No two tensors overlap. */
  lemma Disjoint(ts: seq<OutTensor>, i: nat, j: nat)
    requires i < j < |ts|
    ensures Offset(ts, i) + |ts[i].bytes| <= Offset(ts, j)
  {
    DataGrows(ts, i + 1, j);
  }

  // ---- Serialization ----------------------------------------------------------------------

  function Quads(vs: seq<nat>): (s: Bytes)
    ensures |s| == 8 * |vs|
  {
    if vs == [] then [] else Quads(vs[..|vs| - 1]) + Le(vs[|vs| - 1], 8)
  }

  lemma {:induction false} QuadAt(vs: seq<nat>, i: nat)
    requires i < |vs|
    ensures Quads(vs)[8 * i..8 * i + 8] == Le(vs[i], 8)
    decreases |vs|
  {
    if i < |vs| - 1 {
      QuadAt(vs[..|vs| - 1], i);
      assert Quads(vs)[8 * i..8 * i + 8] == Quads(vs[..|vs| - 1])[8 * i..8 * i + 8];
    }
  }

  lemma QuadBack(b: Bytes, at: nat, vs: seq<nat>, i: nat)
    requires at + |Quads(vs)| <= |b| && b[at..at + |Quads(vs)|] == Quads(vs) && i < |vs| && vs[i] < LIMIT
    ensures U64(b, at + 8 * i) == vs[i]
  {
    hide LeNum, Le, Quads, Pow256;
    QuadAt(vs, i);
    Pow256Values();
    LeRoundTrip(vs[i], 8);
    Inside(b, at, Quads(vs), 8 * i, 8 * i + 8);
  }

  function MetaWords(m: Meta): (w: seq<nat>)
    ensures |w| == 20
  {
    [m.arch, m.dim, m.nLayers, m.nHeads, m.nKvHeads, m.headDim, m.ffnDim, m.vocab, m.ctxTrain, m.ropeTheta,
     m.normEps, m.ropeFactor, m.ropeLow, m.ropeHigh, m.ropeOrigCtx, m.flags, m.embedScale, m.attnScale,
     m.residualScale, m.logitScale]
  }

  /** The header up to its two checksum fields. */
  function HeaderStart(m: Meta, g: Regions): (s: Bytes)
    requires |m.name| == NAME_LEN
    ensures |s| == HEADER_SIZE - 8
  {
    MAGIC + Le(VERSION, 4) + Words(MetaWords(m)) + m.name
    + Quads([g.tokOff, g.tokSize, g.tableOff]) + Words([g.count, 0]) + Quads([g.dataOff, g.dataSize])
  }

  function TagOf(t: Dtype): nat {
    match t case F32 => 0 case Q8 => 1 case Q4K => 2 case Q6K => 3
  }

  function EntryBytes(t: OutTensor, offset: nat): (s: Bytes)
    ensures |s| == ENTRY_SIZE
  {
    Le(t.kind, 2) + Le(t.layer, 2) + Le(TagOf(t.dtype), 2) + Le(0, 2)
    + Quads([offset, |t.bytes|]) + Words([t.rows, t.cols])
  }

  function TableOf(ts: seq<OutTensor>, n: nat): (s: Bytes)
    requires n <= |ts|
    ensures |s| == n * ENTRY_SIZE
  {
    if n == 0 then [] else TableOf(ts, n - 1) + EntryBytes(ts[n - 1], Offset(ts, n - 1))
  }

  function RegionsOf(tok: Bytes, ts: seq<OutTensor>): Regions {
    var tableOff := HEADER_SIZE + |tok|;
    var data := DataOf(ts, |ts|);
    Regions(HEADER_SIZE, |tok|, tableOff, |ts|, Align(tableOff + |ts| * ENTRY_SIZE), |data|, Crc32(data), 0)
  }

  function MetaCrcOf(m: Meta, tok: Bytes, ts: seq<OutTensor>): nat
    requires |m.name| == NAME_LEN
  {
    Crc32(HeaderStart(m, RegionsOf(tok, ts)) + BLANK + tok + TableOf(ts, |ts|))
  }

  function Header(m: Meta, tok: Bytes, ts: seq<OutTensor>): (s: Bytes)
    requires |m.name| == NAME_LEN
    ensures |s| == HEADER_SIZE
  {
    HeaderStart(m, RegionsOf(tok, ts)) + Words([RegionsOf(tok, ts).dataCrc, MetaCrcOf(m, tok, ts)])
  }

  /** The whole file. */
  function File(m: Meta, tok: Bytes, ts: seq<OutTensor>): (s: Bytes)
    requires |m.name| == NAME_LEN
  {
    var g := RegionsOf(tok, ts);
    Header(m, tok, ts) + tok + TableOf(ts, |ts|) + Zeros(g.dataOff - g.TableEnd()) + DataOf(ts, |ts|)
  }

  // ---- Reading back -----------------------------------------------------------------------

  function EntryOf(ts: seq<OutTensor>, i: nat): TensorEntry
    requires i < |ts|
  {
    TensorEntry(ts[i].kind, ts[i].layer, ts[i].dtype, Offset(ts, i), |ts[i].bytes|, ts[i].rows, ts[i].cols)
  }

  function EntriesOf(ts: seq<OutTensor>, n: nat): (es: seq<TensorEntry>)
    requires n <= |ts|
    ensures |es| == n && forall i | 0 <= i < n :: es[i] == EntryOf(ts, i)
  {
    seq(n, i requires 0 <= i < n => EntryOf(ts, i))
  }

  lemma HeaderMetaBack(b: Bytes, m: Meta, g: Regions)
    requires |b| >= HEADER_SIZE && |m.name| == NAME_LEN && b[..HEADER_SIZE - 8] == HeaderStart(m, g)
    requires forall i | 0 <= i < |MetaWords(m)| :: MetaWords(m)[i] < WORD
    ensures b[0..4] == MAGIC && U32(b, 4) == VERSION && MetaAt(b) == m
  {
    hide LeNum, Le, Words, Quads, U32;
    var w := MetaWords(m);
    var h := HeaderStart(m, g);
    assert b[..HEADER_SIZE - 8][0..4] == b[0..4] && h[0..4] == MAGIC;
    assert b[4..8] == h[4..8] == Le(VERSION, 4);
    VersionBack(b);
    assert b[8..88] == h[8..88] == Words(w);
    forall i | 0 <= i < 20 ensures U32(b, 8 + 4 * i) == w[i] {
      WordBack(b, 8, w, i);
    }
    assert U32(b, 8) == w[0] && U32(b, 12) == w[1] && U32(b, 16) == w[2] && U32(b, 20) == w[3] && U32(b, 24) == w[4];
    assert U32(b, 28) == w[5] && U32(b, 32) == w[6] && U32(b, 36) == w[7] && U32(b, 40) == w[8] && U32(b, 44) == w[9];
    assert U32(b, 48) == w[10] && U32(b, 52) == w[11] && U32(b, 56) == w[12] && U32(b, 60) == w[13] && U32(b, 64) == w[14];
    assert U32(b, 68) == w[15] && U32(b, 72) == w[16] && U32(b, 76) == w[17] && U32(b, 80) == w[18] && U32(b, 84) == w[19];
    assert b[88..136] == h[88..136] == m.name;
  }

  lemma VersionBack(b: Bytes)
    requires |b| >= 8 && b[4..8] == Le(VERSION, 4)
    ensures U32(b, 4) == VERSION
  {
    Pow256Values();
    LeRoundTrip(VERSION, 4);
  }

  lemma HeaderRegionsBack(b: Bytes, m: Meta, g: Regions, dataCrc: nat, metaCrc: nat)
    requires |b| >= HEADER_SIZE && |m.name| == NAME_LEN
    requires b[..HEADER_SIZE] == HeaderStart(m, g) + Words([dataCrc, metaCrc])
    requires g.tokOff < LIMIT && g.tokSize < LIMIT && g.tableOff < LIMIT && g.count < WORD && g.dataOff < LIMIT && g.dataSize < LIMIT
    requires dataCrc < WORD && metaCrc < WORD
    ensures RegionsAt(b) == g.(dataCrc := dataCrc, metaCrc := metaCrc)
  {
    hide LeNum, Le, Words, Quads, U32, U64;
    var h := HeaderStart(m, g) + Words([dataCrc, metaCrc]);
    var q1, w2, q2, w3 := [g.tokOff, g.tokSize, g.tableOff], [g.count, 0], [g.dataOff, g.dataSize], [dataCrc, metaCrc];
    assert b[136..160] == h[136..160] == Quads(q1);
    assert b[160..168] == h[160..168] == Words(w2);
    assert b[168..184] == h[168..184] == Quads(q2);
    assert b[184..192] == h[184..192] == Words(w3);
    QuadBack(b, 136, q1, 0);
    QuadBack(b, 136, q1, 1);
    QuadBack(b, 136, q1, 2);
    WordBack(b, 160, w2, 0);
    QuadBack(b, 168, q2, 0);
    QuadBack(b, 168, q2, 1);
    WordBack(b, 184, w3, 0);
    WordBack(b, 184, w3, 1);
  }

  lemma EntryParts(t: OutTensor, offset: nat)
    ensures var e := EntryBytes(t, offset);
      && e[0..2] == Le(t.kind, 2) && e[2..4] == Le(t.layer, 2) && e[4..6] == Le(TagOf(t.dtype), 2)
      && e[8..24] == Quads([offset, |t.bytes|]) && e[24..32] == Words([t.rows, t.cols])
  {
    hide Le, Words, Quads;
    var e := EntryBytes(t, offset);
    var head := Le(t.kind, 2) + Le(t.layer, 2) + Le(TagOf(t.dtype), 2) + Le(0, 2);
    assert e[8..24] == Quads([offset, |t.bytes|]);
    assert e == (head + Quads([offset, |t.bytes|])) + Words([t.rows, t.cols]);
    assert e[24..] == Words([t.rows, t.cols]) && e[24..32] == e[24..];
  }

  lemma EntryBack(b: Bytes, off: nat, t: OutTensor, offset: nat, dataSize: nat)
    requires off + ENTRY_SIZE <= |b| && b[off..off + ENTRY_SIZE] == EntryBytes(t, offset)
    requires TensorOk(t) && offset % DATA_ALIGN == 0 && offset + |t.bytes| <= dataSize < LIMIT
    ensures EntryAt(b, off, dataSize) == Ok(TensorEntry(t.kind, t.layer, t.dtype, offset, |t.bytes|, t.rows, t.cols))
  {
    hide LeNum, Le, Words, Quads, U16, U32, U64, EntryBytes;
    var e := EntryBytes(t, offset);
    var q, w := [offset, |t.bytes|], [t.rows, t.cols];
    Inside(b, off, e, 0, 2);
    Inside(b, off, e, 2, 4);
    Inside(b, off, e, 4, 6);
    Inside(b, off, e, 8, 24);
    Inside(b, off, e, 24, 32);
    EntryParts(t, offset);
    HalfBack(b, off, t.kind);
    HalfBack(b, off + 2, t.layer);
    HalfBack(b, off + 4, TagOf(t.dtype));
    QuadBack(b, off + 8, q, 0);
    QuadBack(b, off + 8, q, 1);
    WordBack(b, off + 24, w, 0);
    WordBack(b, off + 24, w, 1);
  }

  lemma {:induction false} TablePrefix(ts: seq<OutTensor>, i: nat, n: nat)
    requires i <= n <= |ts|
    ensures TableOf(ts, i) <= TableOf(ts, n)
    decreases n
  {
    if i < n {
      TablePrefix(ts, i, n - 1);
    }
  }

  lemma {:induction false} TableBack(b: Bytes, off: nat, ts: seq<OutTensor>, n: nat)
    requires n <= |ts| && off + |ts| * ENTRY_SIZE <= |b| && b[off..off + |ts| * ENTRY_SIZE] == TableOf(ts, |ts|)
    requires (forall i | 0 <= i < |ts| :: TensorOk(ts[i])) && |DataOf(ts, |ts|)| < LIMIT
    ensures EntriesAt(b, off, n, |DataOf(ts, |ts|)|) == Ok(EntriesOf(ts, n))
    decreases n
  {
    hide EntryBytes, TensorOk, DataOf, EntryAt;
    if n > 0 {
      TableBack(b, off, ts, n - 1);
      TablePrefix(ts, n, |ts|);
      var at := (n - 1) * ENTRY_SIZE;
      var s := TableOf(ts, |ts|);
      assert TableOf(ts, n)[at..at + ENTRY_SIZE] == EntryBytes(ts[n - 1], Offset(ts, n - 1));
      assert s[..n * ENTRY_SIZE] == TableOf(ts, n);
      Inside(b, off, s, at, at + ENTRY_SIZE);
      Placed(ts, n - 1);
      EntryBack(b, off + at, ts[n - 1], Offset(ts, n - 1), |DataOf(ts, |ts|)|);
      assert EntriesOf(ts, n) == EntriesOf(ts, n - 1) + [EntryOf(ts, n - 1)];
    }
  }

  function ModelOf(m: Meta, tok: Bytes, ts: seq<OutTensor>): Model {
    Model(m, EntriesOf(ts, |ts|), tok, DataOf(ts, |ts|), Crc32(DataOf(ts, |ts|)))
  }

  /** The sections of the file. */
  lemma Sections(m: Meta, tok: Bytes, ts: seq<OutTensor>)
    requires |m.name| == NAME_LEN
    ensures var f, g := File(m, tok, ts), RegionsOf(tok, ts);
      && g.dataOff + g.dataSize == |f| && g.TableEnd() <= g.dataOff
      && f[..HEADER_SIZE] == Header(m, tok, ts) && f[..HEADER_SIZE - 8] == HeaderStart(m, g)
      && f[g.tokOff..g.TokEnd()] == tok && f[g.tableOff..g.TableEnd()] == TableOf(ts, |ts|)
      && f[g.dataOff..g.DataEnd()] == DataOf(ts, |ts|)
  {
    hide HeaderStart, DataOf, TableOf, Crc32, Words;
    var f, g := File(m, tok, ts), RegionsOf(tok, ts);
    assert f[..HEADER_SIZE][..HEADER_SIZE - 8] == f[..HEADER_SIZE - 8];
  }

  lemma FileRegions(m: Meta, tok: Bytes, ts: seq<OutTensor>)
    requires WellFormed(m, tok, ts)
    ensures var f := File(m, tok, ts);
      && |f| >= HEADER_SIZE && f[0..4] == MAGIC && U32(f, 4) == VERSION && MetaAt(f) == m
      && RegionsAt(f) == RegionsOf(tok, ts).(metaCrc := MetaCrcOf(m, tok, ts))
      && MetaBytes(f, RegionsAt(f)) == HeaderStart(m, RegionsOf(tok, ts)) + BLANK + tok + TableOf(ts, |ts|)
  {
    hide HeaderStart, DataOf, TableOf, Crc32, Words, MetaAt, RegionsAt, U32, MetaWords, File;
    var f, g := File(m, tok, ts), RegionsOf(tok, ts);
    Sections(m, tok, ts);
    HeaderMetaBack(f, m, g);
    HeaderRegionsBack(f, m, g, g.dataCrc, MetaCrcOf(m, tok, ts));
  }

  /** Whatever the converter writes, parsing reads back: the same header values,
      the same entries, the same tokenizer blob and the same data. */
  lemma RoundTrip(m: Meta, tok: Bytes, ts: seq<OutTensor>)
    requires WellFormed(m, tok, ts)
    ensures ParseSpec(File(m, tok, ts)) == Ok(ModelOf(m, tok, ts))
  {
    hide HeaderStart, DataOf, TableOf, Crc32, Words, MetaAt, RegionsAt, U32, MetaWords, File, EntriesAt, Coherent, TensorOk, MetaBytes;
    var f, g := File(m, tok, ts), RegionsOf(tok, ts);
    Sections(m, tok, ts);
    FileRegions(m, tok, ts);
    TableBack(f, g.tableOff, ts, |ts|);
  }

  /** The data check and the streaming check both accept the file. */
  lemma Accepted(m: Meta, tok: Bytes, ts: seq<OutTensor>)
    requires WellFormed(m, tok, ts)
    ensures Crc32(ModelOf(m, tok, ts).data) == ModelOf(m, tok, ts).dataCrc
    ensures Verify.Verdict(File(m, tok, ts)) == Ok(())
  {
    hide HeaderStart, DataOf, TableOf, Crc32, Words, MetaAt, RegionsAt, U32, MetaWords, File, Coherent, TensorOk, MetaBytes, Verify.Verdict;
    var f, g := File(m, tok, ts), RegionsOf(tok, ts);
    Sections(m, tok, ts);
    FileRegions(m, tok, ts);
    RoundTrip(m, tok, ts);
    assert Verify.CheckHeader(f).Ok?;
    Verify.ParsedVerdict(f);
    assert Verify.Verdict(f).Ok?;
    assert Verify.Verdict(f).value == ();
  }

  ghost predicate DistinctKeys(ts: seq<OutTensor>) {
    forall i, j | 0 <= i < j < |ts| :: ts[i].kind != ts[j].kind || ts[i].layer != ts[j].layer
  }

  /** Looking a tensor up in the parsed file gives its dtype, shape and bytes. */
  lemma TensorBack(m: Meta, tok: Bytes, ts: seq<OutTensor>, i: nat)
    requires WellFormed(m, tok, ts) && DistinctKeys(ts) && i < |ts|
    ensures var model := ModelOf(m, tok, ts);
      && ParseSpec(File(m, tok, ts)) == Ok(model) && InRange(model)
      && Tensor(model, ts[i].kind, ts[i].layer) == Ok(TensorView(ts[i].dtype, ts[i].rows, ts[i].cols, ts[i].bytes))
  {
    hide DataOf, Crc32, File, Offset, ParseSpec, WellFormed;
    RoundTrip(m, tok, ts);
    var model := ModelOf(m, tok, ts);
    forall k | 0 <= k < |ts| ensures model.entries[k].offset + model.entries[k].size <= |model.data| {
      Placed(ts, k);
    }
    Placed(ts, i);
    var j := FirstIndex(model.entries, ts[i].kind, ts[i].layer);
    assert model.entries[i] == EntryOf(ts, i);
    assert j <= i;
    assert model.entries[j] == EntryOf(ts, j);
  }

  // ---- The converter's loops ------------------------------------------------------------------

  /** `file.resize(n, 0)`. */
  function Resize(s: Bytes, n: nat): Bytes {
    if n <= |s| then s[..n] else s + Zeros(n - |s|)
  }

  method AssignOffsets(ts: seq<OutTensor>) returns (offsets: seq<nat>, dataSize: nat)
    ensures |offsets| == |ts| && forall i | 0 <= i < |ts| :: offsets[i] == Offset(ts, i)
    ensures dataSize == |DataOf(ts, |ts|)|
  {
    offsets := [];
    var cursor := 0;
    var i := 0;
    while i < |ts|
      invariant 0 <= i <= |ts| && |offsets| == i && cursor == |DataOf(ts, i)|
      invariant forall k | 0 <= k < i :: offsets[k] == Offset(ts, k)
    {
      cursor := (cursor + DATA_ALIGN - 1) / DATA_ALIGN * DATA_ALIGN;
      offsets := offsets + [cursor];
      cursor := cursor + |ts[i].bytes|;
      i := i + 1;
    }
    dataSize := cursor;
  }

  method SerializeTable(ts: seq<OutTensor>, offsets: seq<nat>) returns (table: Bytes)
    requires |offsets| == |ts| && forall i | 0 <= i < |ts| :: offsets[i] == Offset(ts, i)
    ensures table == TableOf(ts, |ts|)
  {
    hide EntryBytes, Offset;
    table := [];
    var i := 0;
    while i < |ts|
      invariant 0 <= i <= |ts| && table == TableOf(ts, i)
    {
      var e := SerializeEntry(ts[i], offsets[i]);
      table := table + e;
      i := i + 1;
    }
  }

  method SerializeEntry(t: OutTensor, offset: nat) returns (e: Bytes)
    ensures e == EntryBytes(t, offset)
  {
    e := Le(t.kind, 2);
    e := e + Le(t.layer, 2);
    e := e + Le(TagOf(t.dtype), 2);
    e := e + Le(0, 2);
    e := Extend(e, [offset, |t.bytes|], 8);
    e := Extend(e, [t.rows, t.cols], 4);
  }

  function Group(vs: seq<nat>, width: nat): Bytes {
    if width == 4 then Words(vs) else if width == 8 then Quads(vs) else []
  }

  /** Append each value in `width` little-endian bytes. */
  method Extend(s: Bytes, vs: seq<nat>, width: nat) returns (r: Bytes)
    requires width == 4 || width == 8
    ensures r == s + Group(vs, width)
  {
    hide Le;
    r := s;
    var i := 0;
    while i < |vs|
      invariant 0 <= i <= |vs| && r == s + Group(vs[..i], width)
    {
      r := r + Le(vs[i], width);
      assert vs[..i + 1][..i] == vs[..i];
      i := i + 1;
    }
    assert vs[..i] == vs;
  }

  /** The data checksum, padding hashed as zeros. */
  method DataChecksum(ts: seq<OutTensor>, offsets: seq<nat>, dataSize: nat) returns (crc: nat)
    requires |offsets| == |ts| && forall i | 0 <= i < |ts| :: offsets[i] == Offset(ts, i)
    requires dataSize == |DataOf(ts, |ts|)|
    ensures crc == Crc32(DataOf(ts, |ts|))
  {
    hide Raw, Crc.State, Number, Align;
    var h := new Crc.Crc32();
    var pos, i := 0, 0;
    RawNothing();
    while i < |ts|
      invariant 0 <= i <= |ts| && pos == |DataOf(ts, i)|
      invariant h.state == Crc.State(Crc.INIT, Raw(DataOf(ts, i)))
    {
      ghost var d := DataOf(ts, i);
      ghost var gap := Zeros(offsets[i] - pos);
      if offsets[i] > pos {
        h.Update(Raw(Zeros(offsets[i] - pos)));
        StateJoin(Crc.INIT, d, gap);
      } else {
        assert d + gap == d;
      }
      h.Update(Raw(ts[i].bytes));
      StateJoin(Crc.INIT, d + gap, ts[i].bytes);
      pos := offsets[i] + |ts[i].bytes|;
      i := i + 1;
    }
    // The source pads up to the data size here; nothing is left to pad.
    assert dataSize == pos;
    crc := Number(h.Finish());
  }

  method SerializeHeader(m: Meta, g: Regions) returns (h: Bytes)
    requires |m.name| == NAME_LEN
    ensures h == HeaderStart(m, g)
  {
    hide Le, Words, Quads;
    h := MAGIC + Le(VERSION, 4);
    h := Extend(h, MetaWords(m), 4);
    h := h + m.name;
    h := Extend(h, [g.tokOff, g.tokSize, g.tableOff], 8);
    h := Extend(h, [g.count, 0], 4);
    h := Extend(h, [g.dataOff, g.dataSize], 8);
  }

  method MetaChecksumOf(start: Bytes, tok: Bytes, table: Bytes) returns (crc: nat)
    ensures crc == Crc32(start + BLANK + tok + table)
  {
    hide Raw, Crc.State, Number;
    var h := new Crc.Crc32();
    h.Update(Raw(start));
    h.Update(Raw(BLANK));
    h.Update(Raw(tok));
    h.Update(Raw(table));
    StateJoin(Crc.INIT, start, BLANK);
    StateJoin(Crc.INIT, start + BLANK, tok);
    StateJoin(Crc.INIT, start + BLANK + tok, table);
    crc := Number(h.Finish());
  }

  /** Grow the file up to each tensor's place and append it. */
  method AppendTensors(file: Bytes, ts: seq<OutTensor>, offsets: seq<nat>, dataOff: nat) returns (r: Bytes)
    requires |file| == dataOff && |offsets| == |ts| && forall i | 0 <= i < |ts| :: offsets[i] == Offset(ts, i)
    ensures r == file + DataOf(ts, |ts|)
  {
    hide Align;
    r := file;
    var i := 0;
    while i < |ts|
      invariant 0 <= i <= |ts| && r == file + DataOf(ts, i)
    {
      r := Resize(r, dataOff + offsets[i]);
      assert r == file + (DataOf(ts, i) + Zeros(offsets[i] - |DataOf(ts, i)|));
      r := r + ts[i].bytes;
      i := i + 1;
    }
  }

  /** Lay out and write the file. */
  method Convert(m: Meta, tok: Bytes, ts: seq<OutTensor>) returns (file: Bytes)
    requires |m.name| == NAME_LEN
    ensures file == File(m, tok, ts)
  {
    hide HeaderStart, DataOf, TableOf, Crc32, Words, Offset;
    var offsets, dataSize := AssignOffsets(ts);
    var tableOff := HEADER_SIZE + |tok|;
    var dataOff := Align(tableOff + |ts| * ENTRY_SIZE);
    var table := SerializeTable(ts, offsets);
    var dataCrc := DataChecksum(ts, offsets, dataSize);
    var g := Regions(HEADER_SIZE, |tok|, tableOff, |ts|, dataOff, dataSize, dataCrc, 0);
    var start := SerializeHeader(m, g);
    var metaCrc := MetaChecksumOf(start, tok, table);
    var header := Extend(start, [dataCrc, metaCrc], 4);
    file := Resize(header + tok + table, dataOff);
    file := AppendTensors(file, ts, offsets, dataOff);
    file := Resize(file, dataOff + dataSize);
  }
}
