/** The bump arena, and whether the 24 buffers of a context fit it. */
module Arena {
  import opened Wire
  import opened Wrappers
  import opened Forward
  import opened Infer

  const ALIGN: nat := 64
  /** What the application adds to the computed size. */
  const MARGIN: nat := 8 * 1024 * 1024
  const PAGE: nat := 4096

  /** The next multiple of the alignment. */
  function AlignUp(n: nat, align: nat): (a: nat)
    requires align > 0
    ensures n <= a < n + align
    ensures a % align == 0
  {
    var m := n + align - 1;
    RoundDown(m, align);
    m - m % align
  }

  lemma RoundDown(m: nat, align: nat)
    requires align > 0
    ensures (m - m % align) % align == 0 && m % align <= m
  {
    var q := m / align;
    assert m - m % align == q * align;
    MultipleOf(align, q);
  }

  /** Where an allocation starts, if it fits. */
  function Place(offset: nat, size: nat, len: nat, align: nat): Option<nat>
    requires align > 0
  {
    if offset + align - 1 >= LIMIT then None
    else if AlignUp(offset, align) + len >= LIMIT then None
    else if AlignUp(offset, align) + len > size then None
    else Some(AlignUp(offset, align))
  }

  class Arena {
    const size: nat
    var offset: nat

    constructor (size: nat)
      ensures this.size == size && offset == 0
    {
      this.size, offset := size, 0;
    }

    /** Hand out the next aligned range; on failure nothing changes. */
    method AllocBytes(len: nat, align: nat) returns (r: Option<nat>)
      requires align > 0
      modifies this
      ensures r == Place(old(offset), size, len, align)
      ensures offset == if r.Some? then r.value + len else old(offset)
      ensures r.Some? ==> r.value % align == 0 && old(offset) <= r.value && offset <= size
    {
      if offset + align - 1 >= LIMIT {
        return None;
      }
      RoundDown(offset + align - 1, align);
      var start := (offset + align - 1) - (offset + align - 1) % align;
      if start + len >= LIMIT {
        return None;
      }
      var end := start + len;
      if end > size {
        return None;
      }
      offset := end;
      r := Some(start);
    }
  }

  /** An empty buffer still takes a byte. */
  function Bytes1(n: nat): nat {
    if n == 0 then 1 else n
  }

  /** The offset after allocating all of these. */
  function End(offset: nat, sizes: seq<nat>): nat
    decreases |sizes|
  {
    if sizes == [] then offset else End(AlignUp(offset, ALIGN) + Bytes1(sizes[0]), sizes[1..])
  }

  lemma {:induction false} EndGrows(offset: nat, sizes: seq<nat>)
    ensures End(offset, sizes) >= offset
    decreases |sizes|
  {
    if sizes != [] {
      EndGrows(AlignUp(offset, ALIGN) + Bytes1(sizes[0]), sizes[1..]);
    }
  }

  /** Aligned, inside the arena, in order and so disjoint. */
  ghost predicate LaidOut(starts: seq<nat>, sizes: seq<nat>, from: nat, size: nat) {
    && |starts| == |sizes|
    && (forall i | 0 <= i < |starts| :: from <= starts[i] && starts[i] % ALIGN == 0 && starts[i] + sizes[i] <= size)
    && (forall i, j | 0 <= i < j < |starts| :: starts[i] + sizes[i] <= starts[j])
  }

  lemma NothingLaid(from: nat, size: nat)
    ensures LaidOut([], [], from, size)
  {
  }

  lemma OneMoreLaid(starts: seq<nat>, sizes: seq<nat>, i: nat, from: nat, at: nat, size: nat, s: nat)
    requires |starts| == i < |sizes| && LaidOut(starts, sizes[..i], from, size)
    requires from <= at <= s && s % ALIGN == 0 && s + sizes[i] <= size && forall k | 0 <= k < i :: starts[k] + sizes[k] <= at
    ensures LaidOut(starts + [s], sizes[..i + 1], from, size)
  {
    assert sizes[..i + 1] == sizes[..i] + [sizes[i]];
  }

  /** Take the buffers one after another, failing at the first that does not fit. */
  method TakeAll(a: Arena, sizes: seq<nat>) returns (r: Option<seq<nat>>)
    requires a.size + ALIGN < LIMIT && a.offset <= a.size
    modifies a
    ensures r.Some? <==> End(old(a.offset), sizes) <= a.size
    ensures r.Some? ==> LaidOut(r.value, sizes, old(a.offset), a.size) && a.offset == End(old(a.offset), sizes)
  {
    hide AlignUp, LaidOut;
    var starts: seq<nat> := [];
    var i := 0;
    NothingLaid(a.offset, a.size);
    while i < |sizes|
      invariant 0 <= i <= |sizes| && a.offset <= a.size
      invariant End(old(a.offset), sizes) == End(a.offset, sizes[i..])
      invariant LaidOut(starts, sizes[..i], old(a.offset), a.size)
      invariant |starts| == i && old(a.offset) <= a.offset && forall k | 0 <= k < i :: starts[k] + sizes[k] <= a.offset
    {
      assert sizes[i..][1..] == sizes[i + 1..];
      EndGrows(AlignUp(a.offset, ALIGN) + Bytes1(sizes[i]), sizes[i + 1..]);
      ghost var at := a.offset;
      var s := a.AllocBytes(Bytes1(sizes[i]), ALIGN);
      if s.None? {
        return None;
      }
      OneMoreLaid(starts, sizes, i, old(a.offset), at, a.size, s.value);
      starts := starts + [s.value];
      i := i + 1;
    }
    assert sizes[..i] == sizes;
    r := Some(starts);
  }

  // ---- The context's buffers -----------------------------------------------------------

  const Q8_BYTES: nat := 34
  const Q8K_BYTES: nat := 292

  /** Bytes of the 24 buffers in allocation order. */
  function ContextSizes(d: Dims): (s: seq<nat>)
    ensures |s| == 24
  {
    var b := BufferSizes(d);
    [Floats(d.headDim / 2)] + FloatBuffers(b[..11]) + [Q8_BYTES * ActBlocks(d, 32), Q8K_BYTES * ActBlocks(d, 256)]
    + FloatBuffers(b[11..]) + [2 * CacheSize(d), 2 * CacheSize(d)]
  }

  function Floats(n: nat): nat { 4 * n }

  function FloatBuffers(b: seq<nat>): (s: seq<nat>)
    ensures |s| == |b|
  {
    seq(|b|, i requires 0 <= i < |b| => Floats(b[i]))
  }

  /** The size computed before construction. The batched norm buffer is counted
      `dim` wide although it is allocated `max(dim, attDim)` wide. */
  function RequiredBytes(d: Dims): nat {
    (VectorFloats(d) + BatchFloats(d)) * 4 + ActBytes(d) + 4 * CacheSize(d) + 64 * 40
  }

  /** Floats of the buffers for one token. */
  function VectorFloats(d: Dims): nat {
    d.dim * 3 + d.AttDim() * 2 + d.KvDim() * 2 + ScoreSize(d) + d.ffnDim * 2 + d.vocab + d.headDim / 2
  }

  /** Floats of the buffers for a batch, as the computation counts them. */
  function BatchFloats(d: Dims): nat {
    MAX_BATCH * (d.dim * 2 + d.AttDim() * 2 + d.KvDim() * 2 + d.ffnDim * 2)
  }

  function ActBytes(d: Dims): nat {
    MAX_BATCH * (MaxDim(d) / 32 * Q8_BYTES + MaxDim(d) / 256 * Q8K_BYTES)
  }

  function ScoreSize(d: Dims): (n: nat)
    ensures n == d.nHeads * d.ctx
  {
    d.nHeads * d.ctx
  }

  function Total(s: seq<nat>): nat {
    if s == [] then 0 else s[0] + Total(s[1..])
  }

  lemma Total24(s: seq<nat>)
    requires |s| == 24
    ensures Total(s) == s[0] + s[1] + s[2] + s[3] + s[4] + s[5] + s[6] + s[7] + s[8] + s[9] + s[10] + s[11]
      + s[12] + s[13] + s[14] + s[15] + s[16] + s[17] + s[18] + s[19] + s[20] + s[21] + s[22] + s[23]
  {
    Total6(s);
    Total6(s[6..]);
    Total6(s[12..]);
    Total6(s[18..]);
    assert s[6..][6..] == s[12..] && s[12..][6..] == s[18..] && s[18..][6..] == [];
  }

  lemma Total6(s: seq<nat>)
    requires |s| >= 6
    ensures Total(s) == s[0] + s[1] + s[2] + s[3] + s[4] + s[5] + Total(s[6..])
  {
    assert s[1..][1..] == s[2..] && s[2..][1..] == s[3..] && s[3..][1..] == s[4..] && s[4..][1..] == s[5..] && s[5..][1..] == s[6..];
    assert Total(s[5..]) == s[5] + Total(s[6..]);
    assert Total(s[4..]) == s[4] + Total(s[5..]);
    assert Total(s[3..]) == s[3] + Total(s[4..]);
    assert Total(s[2..]) == s[2] + Total(s[3..]);
    assert Total(s[1..]) == s[1] + Total(s[2..]);
  }

  /** How far the attention width exceeds the model width. */
  function Excess(d: Dims): nat {
    if d.AttDim() > d.dim then d.AttDim() - d.dim else 0
  }

  /** The buffers hold what was computed, less the slack, plus 256 bytes for every
      unit of excess width. */
  lemma TotalIs(d: Dims)
    ensures Total(ContextSizes(d)) == RequiredBytes(d) - 2560 + 256 * Excess(d)
  {
    hide CacheSize, Total;
    Total24(ContextSizes(d));
  }

  lemma {:induction false} EndUpper(offset: nat, sizes: seq<nat>)
    ensures End(offset, sizes) <= offset + Total(sizes) + 64 * |sizes|
    decreases |sizes|
  {
    if sizes != [] {
      EndUpper(AlignUp(offset, ALIGN) + Bytes1(sizes[0]), sizes[1..]);
    }
  }

  lemma {:induction false} EndLower(offset: nat, sizes: seq<nat>)
    ensures End(offset, sizes) >= offset + Total(sizes)
    decreases |sizes|
  {
    if sizes != [] {
      EndLower(AlignUp(offset, ALIGN) + Bytes1(sizes[0]), sizes[1..]);
    }
  }

  /** What alignment adds: every buffer but the last is rounded up to whole lines,
      and an empty buffer still takes a byte. */
  function Padding(sizes: seq<nat>): nat {
    if sizes == [] then 0
    else if |sizes| == 1 then Bytes1(sizes[0]) - sizes[0]
    else AlignUp(Bytes1(sizes[0]), ALIGN) - sizes[0] + Padding(sizes[1..])
  }

  lemma Shifted(a: nat, n: nat)
    requires a % 64 == 0
    ensures AlignUp(a, ALIGN) == a && AlignUp(a + n, ALIGN) == a + AlignUp(n, ALIGN)
  {
    WholeLines(a / 64, 63);
    WholeLines(a / 64, n + 63);
  }

  lemma WholeLines(q: nat, m: nat)
    ensures (64 * q + m) % 64 == m % 64
  {
  }

  /** Where a list of allocations ends, exactly. */
  lemma {:induction false} EndIs(offset: nat, sizes: seq<nat>)
    requires sizes != []
    ensures End(offset, sizes) == AlignUp(offset, ALIGN) + Total(sizes) + Padding(sizes)
    decreases |sizes|
  {
    hide AlignUp;
    var a, n := AlignUp(offset, ALIGN), Bytes1(sizes[0]);
    if |sizes| > 1 {
      EndIs(a + n, sizes[1..]);
      Shifted(a, n);
    }
  }

  /** The computed size always suffices when attention is no wider than the model. */
  lemma FitsRequired(d: Dims)
    requires d.AttDim() <= d.dim
    ensures End(0, ContextSizes(d)) <= RequiredBytes(d)
  {
    hide RequiredBytes, ContextSizes, Total;
    TotalIs(d);
    EndUpper(0, ContextSizes(d));
  }

  /** With the application's margin it suffices up to 32768 units of excess. */
  lemma FitsWithMargin(d: Dims)
    requires d.AttDim() <= d.dim + 32768
    ensures End(0, ContextSizes(d)) <= RequiredBytes(d) + MARGIN
  {
    hide RequiredBytes, ContextSizes, Total;
    TotalIs(d);
    EndUpper(0, ContextSizes(d));
  }

  /** Past the slack it never suffices, with or without the margin. */
  lemma NeverFits(d: Dims)
    ensures Excess(d) > 10 ==> End(0, ContextSizes(d)) > RequiredBytes(d)
    ensures Excess(d) > 32778 ==> End(0, ContextSizes(d)) > RequiredBytes(d) + MARGIN
  {
    hide RequiredBytes, ContextSizes, Total;
    TotalIs(d);
    EndLower(0, ContextSizes(d));
  }

  /** Whether the context fits an arena of any size, for every shape. */
  lemma FitsIff(d: Dims, size: nat)
    ensures End(0, ContextSizes(d)) <= size <==>
      RequiredBytes(d) + Padding(ContextSizes(d)) + 256 * Excess(d) <= size + 2560
  {
    hide RequiredBytes, ContextSizes, Total, Padding, Excess;
    TotalIs(d);
    EndIs(0, ContextSizes(d));
    Shifted(0, 0);
  }

  /** For every shape, the computed size suffices exactly when padding and excess
      together stay within the slack, and with the margin within slack and margin. */
  lemma FitsIffSlack(d: Dims)
    ensures End(0, ContextSizes(d)) <= RequiredBytes(d) <==> Padding(ContextSizes(d)) + 256 * Excess(d) <= 2560
    ensures End(0, ContextSizes(d)) <= RequiredBytes(d) + MARGIN <==> Padding(ContextSizes(d)) + 256 * Excess(d) <= 2560 + MARGIN
  {
    hide RequiredBytes, ContextSizes, Padding, Excess;
    FitsIff(d, RequiredBytes(d));
    FitsIff(d, RequiredBytes(d) + MARGIN);
  }

  /** The arena the application takes: size and margin in whole pages. */
  function Pages(d: Dims): nat {
    AlignUp(RequiredBytes(d) + MARGIN, PAGE)
  }

  /** Whether the context fits the application's arena, for every shape. */
  lemma FitsIffPages(d: Dims)
    ensures End(0, ContextSizes(d)) <= Pages(d) <==>
      Padding(ContextSizes(d)) + 256 * Excess(d) <= 2560 + (Pages(d) - RequiredBytes(d))
  {
    hide RequiredBytes, ContextSizes, Padding, Excess;
    FitsIff(d, Pages(d));
  }

  /** Widths that fill whole blocks, as every model whose products can run has. */
  predicate WholeBlocks(d: Dims) {
    d.dim % 32 == 0 && d.AttDim() % 32 == 0
  }

  lemma ExcessOfBlocks(a: nat, b: nat)
    requires a % 32 == 0 && b % 32 == 0
    ensures a > b + 10 <==> a > b
    ensures a > b + 32778 <==> a > b + 32768
  {
  }

  /** For widths of whole blocks the computed size suffices exactly when attention is
      no wider than the model, and with the margin exactly up to 32768 units wider. */
  lemma FitsIffNarrow(d: Dims)
    requires WholeBlocks(d)
    ensures End(0, ContextSizes(d)) <= RequiredBytes(d) <==> d.AttDim() <= d.dim
    ensures End(0, ContextSizes(d)) <= RequiredBytes(d) + MARGIN <==> d.AttDim() <= d.dim + 32768
  {
    hide RequiredBytes, ContextSizes;
    NeverFits(d);
    ExcessOfBlocks(d.AttDim(), d.dim);
    if d.AttDim() <= d.dim {
      FitsRequired(d);
    }
    if d.AttDim() <= d.dim + 32768 {
      FitsWithMargin(d);
    }
  }

  /** A model shape for which the computed size alone is too small: 16 heads of 128
      over a width of 1024. */
  lemma WideAttention(d: Dims)
    requires d.dim == 1024 && d.nHeads == 16 && d.headDim == 128
    ensures End(0, ContextSizes(d)) > RequiredBytes(d) && End(0, ContextSizes(d)) <= RequiredBytes(d) + MARGIN
  {
    hide RequiredBytes, ContextSizes;
    NeverFits(d);
    FitsWithMargin(d);
  }

  /** The context's buffers from a fresh arena of any size: granted exactly when they
      fit, and then aligned, in bounds and disjoint. */
  method BuildContext(d: Dims, size: nat) returns (r: Option<seq<nat>>)
    requires size + ALIGN < LIMIT
    ensures r.Some? <==> RequiredBytes(d) + Padding(ContextSizes(d)) + 256 * Excess(d) <= size + 2560
    ensures r.Some? ==> LaidOut(r.value, ContextSizes(d), 0, size)
  {
    hide RequiredBytes, ContextSizes, Padding, Excess;
    var a := new Arena(size);
    FitsIff(d, size);
    r := TakeAll(a, ContextSizes(d));
  }
}
