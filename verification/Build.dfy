/** Building the tokenizer blob, and what the parsed blob then satisfies. */
module Build {
  import opened Wire
  import opened Unicode
  import opened Wrappers
  import opened Blob
  import Pretok

  datatype Family = FamilyLlama3 | FamilyQwen3 | FamilyGranite

  /** Vocabulary metadata: token strings with their types, merge strings in rank
      order, and the two ids given by number. */
  datatype Source = Source(tokens: seq<Text>, types: seq<int>, merges: seq<Text>, bos: nat, eos: nat, family: Family)

  // ---- The byte alphabet ----------------------------------------------------------------

  /** Bytes that stand for themselves. */
  predicate Printable(b: Byte) {
    33 <= b <= 126 || 0xA1 <= b <= 0xAC || 0xAE <= b <= 0xFF
  }

  /** How many of the first `b` bytes are not printable. */
  function Skipped(b: nat): (n: nat)
    requires b <= 256
    ensures n <= b
  {
    if b == 0 then 0 else Skipped(b - 1) + if Printable(b - 1) then 0 else 1
  }

  /** The character that spells a byte. */
  function Spelled(b: Byte): Char {
    if Printable(b) then b else 256 + Skipped(b)
  }

  lemma {:induction false} SkippedGrows(a: nat, b: nat)
    requires a <= b <= 256
    ensures Skipped(a) <= Skipped(b) && (a < b && !Printable(a) ==> Skipped(a) < Skipped(b))
    decreases b
  {
    if a < b {
      SkippedGrows(a, b - 1);
    }
  }

  /** Different bytes are spelled differently. */
  lemma SpelledInjective(a: Byte, b: Byte)
    requires Spelled(a) == Spelled(b)
    ensures a == b
  {
    if !Printable(a) && !Printable(b) {
      if a < b {
        SkippedGrows(a, b);
      } else if b < a {
        SkippedGrows(b, a);
      }
    }
  }

  lemma NoneSkipped()
    ensures Skipped(0) == 0
  {
  }

  lemma SkipStep(b: nat)
    requires b < 256
    ensures Skipped(b + 1) == Skipped(b) + if Printable(b) then 0 else 1
  {
  }

  /** The reverse table: printable bytes first, then the others in order. */
  method UnicodeToByte() returns (m: map<Char, Byte>)
    ensures forall b: Byte :: Spelled(b) in m && m[Spelled(b)] == b
    ensures forall c | c in m :: Spelled(m[c]) == c
  {
    hide Skipped;
    m := map[];
    var b: nat := 0;
    while b < 256
      invariant 0 <= b <= 256
      invariant forall x: Byte | x < b && Printable(x) :: x in m && m[x] == x
      invariant forall c | c in m :: c < b && Printable(c) && m[c] == c
    {
      if Printable(b) {
        m := m[b := b];
      }
      b := b + 1;
    }
    var n := 0;
    b := 0;
    NoneSkipped();
    while b < 256
      invariant 0 <= b <= 256 && n == Skipped(b)
      invariant forall x: Byte | Printable(x) || x < b :: Spelled(x) in m && m[Spelled(x)] == x
      invariant forall c | c in m :: Spelled(m[c]) == c
    {
      SkipStep(b);
      if !Printable(b) {
        forall x: Byte | Spelled(x) == Spelled(b) ensures x == b {
          SpelledInjective(x, b);
        }
        m := m[256 + n := b];
        n := n + 1;
      }
      b := b + 1;
    }
  }

  /** The byte a character spells, if any. */
  function ByteOf(c: Char): Option<Byte> {
    ByteFrom(c, 256)
  }

  function ByteFrom(c: Char, n: nat): (r: Option<Byte>)
    requires n <= 256
    ensures r.Some? ==> Spelled(r.value) == c
    ensures r.None? ==> forall b: Byte | b < n :: Spelled(b) != c
  {
    if n == 0 then None else if Spelled(n - 1) == c then Some(n - 1) else ByteFrom(c, n - 1)
  }

  /** Raw bytes of a token string: control tokens literally, others letter by
      letter, with UTF-8 for letters outside the byte alphabet. */
  function Decode(s: Text, control: bool): Bytes {
    if control then Encode(s)
    else if s == [] then []
    else Decode(s[..|s| - 1], false) + Letter(s[|s| - 1])
  }

  function Letter(c: Char): Bytes {
    match ByteOf(c) case Some(b) => [b] case None => Utf8(c)
  }

  function Spell(bytes: Bytes): (s: Text)
    ensures |s| == |bytes|
  {
    seq(|bytes|, i requires 0 <= i < |bytes| => Spelled(bytes[i]))
  }

  /** Every byte string can be spelled, and decoding undoes the spelling. */
  lemma {:induction false} SpellRoundTrip(bytes: Bytes)
    ensures Decode(Spell(bytes), false) == bytes
    decreases |bytes|
  {
    if bytes != [] {
      var n := |bytes| - 1;
      SpellRoundTrip(bytes[..n]);
      assert Spell(bytes)[..n] == Spell(bytes[..n]);
      SpelledInjective(bytes[n], ByteOf(Spelled(bytes[n])).value);
    }
  }

  method DecodeToken(s: Text, control: bool, m: map<Char, Byte>) returns (r: Bytes)
    requires forall b: Byte :: Spelled(b) in m && m[Spelled(b)] == b
    requires forall c | c in m :: Spelled(m[c]) == c
    ensures r == Decode(s, control)
  {
    hide Utf8, Spelled;
    if control {
      return Encode(s);
    }
    r := [];
    var i := 0;
    while i < |s|
      invariant 0 <= i <= |s| && r == Decode(s[..i], false)
    {
      var c := s[i];
      if c in m {
        r := r + [m[c]];
      } else {
        r := r + Utf8(c);
      }
      LetterIs(c, m);
      assert s[..i + 1][..i] == s[..i];
      i := i + 1;
    }
    assert s[..i] == s;
  }

  lemma LetterIs(c: Char, m: map<Char, Byte>)
    requires forall b: Byte :: Spelled(b) in m && m[Spelled(b)] == b
    requires forall d | d in m :: Spelled(m[d]) == d
    ensures Letter(c) == if c in m then [m[c]] else Utf8(c)
  {
    hide Utf8, Spelled;
    if c in m {
      var b := ByteOf(c);
      assert b.Some?;
      assert m[Spelled(b.value)] == b.value;
    }
  }

  // ---- The vocabulary --------------------------------------------------------------------------

  /** Control and user-defined tokens are never produced from text. */
  predicate Control(s: Source, id: nat) {
    id < |s.types| && (s.types[id] == 3 || s.types[id] == 4)
  }

  function Raw(s: Source, id: nat): Bytes
    requires id < |s.tokens|
  {
    Decode(s.tokens[id], Control(s, id))
  }

  /** First ordinary token with these bytes, among the first `n`. */
  function FirstId(s: Source, bytes: Bytes, n: nat): (r: Option<nat>)
    requires n <= |s.tokens|
    ensures r.Some? ==> r.value < n && !Control(s, r.value) && Raw(s, r.value) == bytes
  {
    if n == 0 then None
    else if FirstId(s, bytes, n - 1).Some? then FirstId(s, bytes, n - 1)
    else if !Control(s, n - 1) && Raw(s, n - 1) == bytes then Some(n - 1)
    else None
  }

  function IdOf(s: Source, bytes: Bytes): Option<nat> {
    FirstId(s, bytes, |s.tokens|)
  }

  /** Index of the first space, or the length. */
  function SpaceAt(m: Text): (i: nat)
    ensures i <= |m| && (i < |m| ==> m[i] == 32)
  {
    if m == [] then 0 else if m[0] == 32 then 0 else 1 + SpaceAt(m[1..])
  }

  /** The two halves of a merge string. */
  function Halves(m: Text): Option<(Bytes, Bytes)> {
    var i := SpaceAt(m);
    if i == |m| then None else Some((Decode(m[..i], false), Decode(m[i + 1..], false)))
  }

  /** The merges that resolve to ordinary tokens, in rank order. */
  function Resolved(s: Source, n: nat): seq<Merge>
    requires n <= |s.merges| && forall i | 0 <= i < n :: Halves(s.merges[i]).Some?
  {
    if n == 0 then []
    else
      var (a, b) := Halves(s.merges[n - 1]).value;
      var l, r, res := IdOf(s, a), IdOf(s, b), IdOf(s, a + b);
      Resolved(s, n - 1) + if l.Some? && r.Some? && res.Some? then [Merge(l.value, r.value, res.value, n - 1)] else []
  }

  /** Left, right and result are ordinary tokens, and the result concatenates. */
  ghost predicate Concatenates(s: Source, m: Merge) {
    && m.left < |s.tokens| && m.right < |s.tokens| && m.result < |s.tokens| && m.rank < |s.merges|
    && !Control(s, m.left) && !Control(s, m.right) && !Control(s, m.result)
    && Raw(s, m.result) == Raw(s, m.left) + Raw(s, m.right)
  }

  ghost predicate AllConcatenate(s: Source, ms: seq<Merge>) {
    forall i | 0 <= i < |ms| :: Concatenates(s, ms[i])
  }

  lemma {:induction false} ResolvedConcatenate(s: Source, n: nat)
    requires n <= |s.merges| && forall i | 0 <= i < |s.merges| :: Halves(s.merges[i]).Some?
    ensures AllConcatenate(s, Resolved(s, n))
    decreases n
  {
    hide Halves, Raw, Control, FirstId;
    if n > 0 {
      ResolvedConcatenate(s, n - 1);
      var (a, b) := Halves(s.merges[n - 1]).value;
      var l, r, res := IdOf(s, a), IdOf(s, b), IdOf(s, a + b);
      if l.Some? && r.Some? && res.Some? {
        assert Concatenates(s, Merge(l.value, r.value, res.value, n - 1));
      }
    }
  }

  // ---- Sorting by pair ---------------------------------------------------------------------------

  function MergeKey(m: Merge): nat { Key(m.left, m.right) }

  ghost predicate InOrder(ms: seq<Merge>) {
    forall i, j | 0 <= i < j < |ms| :: MergeKey(ms[i]) <= MergeKey(ms[j])
  }

  /** Insert after everything with the same key or a smaller one. */
  function Insert(ms: seq<Merge>, m: Merge): (r: seq<Merge>)
    ensures |r| == |ms| + 1
  {
    if ms != [] && MergeKey(ms[|ms| - 1]) > MergeKey(m) then Insert(ms[..|ms| - 1], m) + [ms[|ms| - 1]] else ms + [m]
  }

  /** The stable sort of the library. */
  function SortByKey(ms: seq<Merge>): seq<Merge> {
    if ms == [] then [] else Insert(SortByKey(ms[..|ms| - 1]), ms[|ms| - 1])
  }

  lemma {:induction false} InsertOrdered(s: Source, ms: seq<Merge>, m: Merge)
    requires InOrder(ms) && AllConcatenate(s, ms) && Concatenates(s, m)
    ensures InOrder(Insert(ms, m)) && AllConcatenate(s, Insert(ms, m))
    ensures multiset(Insert(ms, m)) == multiset(ms) + multiset{m}
    ensures forall x | x in Insert(ms, m) :: x == m || x in ms
    decreases |ms|
  {
    hide MergeKey, Concatenates;
    if ms != [] && MergeKey(ms[|ms| - 1]) > MergeKey(m) {
      var n := |ms| - 1;
      InsertOrdered(s, ms[..n], m);
      assert ms == ms[..n] + [ms[n]];
      var r := Insert(ms[..n], m);
      forall i | 0 <= i < |r| ensures MergeKey(r[i]) <= MergeKey(ms[n]) {
        assert r[i] in r;
      }
      OrderedEnd(r, ms[n]);
    } else {
      OrderedEnd(ms, m);
    }
  }

  lemma OrderedEnd(r: seq<Merge>, m: Merge)
    requires InOrder(r) && forall i | 0 <= i < |r| :: MergeKey(r[i]) <= MergeKey(m)
    ensures InOrder(r + [m])
  {
    hide MergeKey;
  }

  lemma {:induction false} SortOrders(s: Source, ms: seq<Merge>)
    requires AllConcatenate(s, ms)
    ensures InOrder(SortByKey(ms)) && AllConcatenate(s, SortByKey(ms)) && multiset(SortByKey(ms)) == multiset(ms)
    decreases |ms|
  {
    hide Insert, InOrder, Concatenates;
    if ms == [] {
      NothingInOrder();
    } else {
      var n := |ms| - 1;
      SortOrders(s, ms[..n]);
      InsertOrdered(s, SortByKey(ms[..n]), ms[n]);
      assert ms == ms[..n] + [ms[n]];
    }
  }

  lemma NothingInOrder()
    ensures InOrder([])
  {
  }

  // ---- Serialization --------------------------------------------------------------------------------

  /** Pool contents after the first `n` tokens. */
  function PoolOf(s: Source, n: nat): Bytes
    requires n <= |s.tokens|
  {
    if n == 0 then [] else PoolOf(s, n - 1) + Raw(s, n - 1)
  }

  function Flag(s: Source, id: nat): nat {
    if Control(s, id) then 1 else 0
  }

  function TokenEntry(s: Source, id: nat): (e: Bytes)
    requires id < |s.tokens|
    ensures |e| == 8
  {
    Le(|PoolOf(s, id)|, 4) + Le(|Raw(s, id)|, 2) + Le(Flag(s, id), 2)
  }

  function TableBytes(s: Source, n: nat): (b: Bytes)
    requires n <= |s.tokens|
    ensures |b| == n * 8
  {
    if n == 0 then [] else TableBytes(s, n - 1) + TokenEntry(s, n - 1)
  }

  function MergeWords(m: Merge): (w: seq<nat>)
    ensures |w| == 4
  {
    [m.left, m.right, m.result, m.rank]
  }

  function MergeBytes(ms: seq<Merge>): (b: Bytes)
    ensures |b| == 16 * |ms|
  {
    if ms == [] then [] else MergeBytes(ms[..|ms| - 1]) + Words(MergeWords(ms[|ms| - 1]))
  }

  /** Last token whose string is `lit`: later entries overwrite earlier ones. */
  function Literal(s: Source, lit: Text, n: nat): (r: Option<nat>)
    requires n <= |s.tokens|
    ensures r.Some? ==> r.value < n && s.tokens[r.value] == lit
  {
    if n == 0 then None else if s.tokens[n - 1] == lit then Some(n - 1) else Literal(s, lit, n - 1)
  }

  function AsText(s: string): (t: Text)
    requires forall i | 0 <= i < |s| :: s[i] < 128 as char
  {
    seq(|s|, i requires 0 <= i < |s| => s[i] as int)
  }

  /** The strings in the slots eot, start header, end header, end of text. */
  function SlotNames(f: Family): (names: seq<Text>)
    ensures |names| == 4
  {
    match f
    case FamilyLlama3 => [AsText("<|eot_id|>"), AsText("<|start_header_id|>"), AsText("<|end_header_id|>"), AsText("<|end_of_text|>")]
    case FamilyQwen3 => [AsText("<|im_end|>"), AsText("<|im_start|>"), AsText("<|im_end|>"), AsText("<|endoftext|>")]
    case FamilyGranite => [AsText("<|end_of_text|>"), AsText("<|start_of_role|>"), AsText("<|end_of_role|>"), AsText("<|end_of_text|>")]
  }

  function TemplateId(f: Family): nat {
    match f case FamilyLlama3 => 1 case FamilyQwen3 => 2 case FamilyGranite => 3
  }

  function Slots(s: Source): (r: Option<Specials>)
    ensures r.Some? ==>
      r.value.eot < |s.tokens| && r.value.startHeader < |s.tokens| && r.value.endHeader < |s.tokens| && r.value.endOfText < |s.tokens|
    ensures r.Some? ==> r.value.bos == s.bos && r.value.eos == s.eos
  {
    var n := SlotNames(s.family);
    var eot, start, end, eof := Literal(s, n[0], |s.tokens|), Literal(s, n[1], |s.tokens|), Literal(s, n[2], |s.tokens|), Literal(s, n[3], |s.tokens|);
    if eot.Some? && start.Some? && end.Some? && eof.Some?
    then Some(Specials(s.bos, s.eos, eot.value, start.value, end.value, eof.value))
    else None
  }

  /** The conditions under which the builder does not stop with an error. */
  ghost predicate Buildable(s: Source) {
    && (forall b: Byte :: IdOf(s, [b]).Some?)
    && (forall i | 0 <= i < |s.merges| :: Halves(s.merges[i]).Some?)
    && Slots(s).Some?
    && (forall id | 0 <= id < |s.tokens| :: |Raw(s, id)| < 0x1_0000)
  }

  function ByteIdWords(s: Source): (w: seq<nat>)
    ensures |w| == 256
  {
    seq(256, b requires 0 <= b < 256 => if IdOf(s, [b]).Some? then IdOf(s, [b]).value else 0)
  }

  function HeaderWords(s: Source, merges: nat, x: Specials): (w: seq<nat>)
    ensures |w| == 11
  {
    [VERSION, TemplateId(s.family), |s.tokens|, merges, |PoolOf(s, |s.tokens|)|, x.bos, x.eos, x.eot, x.startHeader, x.endHeader, x.endOfText]
  }

  ghost function BlobOf(s: Source): Bytes
    requires Buildable(s)
  {
    var ms := SortByKey(Resolved(s, |s.merges|));
    MAGIC + Words(HeaderWords(s, |ms|, Slots(s).value)) + Words(ByteIdWords(s))
    + TableBytes(s, |s.tokens|) + MergeBytes(ms) + PoolOf(s, |s.tokens|)
  }

  /** Sizes fit their 32-bit fields; the two given ids are 32-bit numbers. */
  ghost predicate Fits32(s: Source) {
    |s.tokens| < WORD && |s.merges| < WORD && |PoolOf(s, |s.tokens|)| < WORD && s.bos < WORD && s.eos < WORD
  }

  /** The two ids given by number are in the vocabulary (the builder does not
      check this). */
  predicate GivenIds(s: Source) {
    s.bos < |s.tokens| && s.eos < |s.tokens|
  }

  // ---- Reading the blob back -----------------------------------------------------------------------------

  ghost function MergesOf(s: Source): seq<Merge>
    requires Buildable(s)
  {
    SortByKey(Resolved(s, |s.merges|))
  }

  ghost function TokenizerOf(s: Source): Tokenizer
    requires Buildable(s)
  {
    Tokenizer(Slots(s).value,
              match s.family case FamilyLlama3 => Llama3 case FamilyQwen3 => ChatMl case FamilyGranite => Granite,
              |s.tokens|, Words(ByteIdWords(s)), TableBytes(s, |s.tokens|), MergeBytes(MergesOf(s)), |MergesOf(s)|, PoolOf(s, |s.tokens|))
  }

  lemma MergesFit(s: Source)
    requires Buildable(s)
    ensures |MergesOf(s)| <= |s.merges| && AllConcatenate(s, MergesOf(s)) && InOrder(MergesOf(s))
  {
    hide InOrder, SortByKey, Resolved, AllConcatenate, Halves;
    ResolvedConcatenate(s, |s.merges|);
    ResolvedSize(s, |s.merges|);
    var ms := Resolved(s, |s.merges|);
    SortOrders(s, ms);
    assert |multiset(SortByKey(ms))| == |multiset(ms)|;
  }

  lemma {:induction false} ResolvedSize(s: Source, n: nat)
    requires n <= |s.merges| && forall i | 0 <= i < |s.merges| :: Halves(s.merges[i]).Some?
    ensures |Resolved(s, n)| <= n
    decreases n
  {
    hide Halves, IdOf;
    if n > 0 {
      ResolvedSize(s, n - 1);
    }
  }

  lemma HasSlots(s: Source)
    requires Buildable(s)
    ensures Slots(s).Some?
  {
  }

  lemma Sections(s: Source)
    requires Buildable(s)
    ensures var b, t := BlobOf(s), TokenizerOf(s);
      var m := TABLE + |s.tokens| * 8; var p := m + |MergesOf(s)| * 16;
      && |b| == p + |t.pool| && b[0..4] == MAGIC && b[4..48] == Words(HeaderWords(s, |MergesOf(s)|, Slots(s).value))
      && b[BYTE_IDS..TABLE] == t.byteIds && b[TABLE..m] == t.table && b[m..p] == t.merges && b[p..p + |t.pool|] == t.pool
  {
    hide Words, HeaderWords, ByteIdWords, TableBytes, MergeBytes, PoolOf, SortByKey, Resolved, Slots, Buildable;
    HasSlots(s);
    var b, t := BlobOf(s), TokenizerOf(s);
    var ms := MergesOf(s);
    var head := MAGIC + Words(HeaderWords(s, |ms|, Slots(s).value)) + t.byteIds;
    assert b == head + t.table + t.merges + t.pool && |head| == TABLE;
    assert head[0..4] == MAGIC && head[4..48] == Words(HeaderWords(s, |ms|, Slots(s).value)) && head[48..TABLE] == t.byteIds;
    assert b[..TABLE] == head;
    Inside(b, 0, head, 0, 4);
    Inside(b, 0, head, 4, 48);
    Inside(b, 0, head, 48, TABLE);
  }

  lemma HeaderBack(s: Source)
    requires Buildable(s) && Fits32(s)
    ensures var b, t := BlobOf(s), TokenizerOf(s);
      && |b| >= TABLE && U32(b, 4) == VERSION && TemplateOf(U32(b, 8)) == Some(t.template) && U32(b, 12) == t.vocab
      && U32(b, 16) == t.mergeCount && U32(b, 20) == |t.pool| && SpecialsAt(b) == t.specials
  {
    hide Words, ByteIdWords, TableBytes, MergeBytes, PoolOf, SortByKey, Resolved, Slots, Buildable, BlobOf, U32;
    HasSlots(s);
    Sections(s);
    MergesFit(s);
    var b := BlobOf(s);
    var w := HeaderWords(s, |MergesOf(s)|, Slots(s).value);
    WordBack(b, 4, w, 0);
    WordBack(b, 4, w, 1);
    WordBack(b, 4, w, 2);
    WordBack(b, 4, w, 3);
    WordBack(b, 4, w, 4);
    WordBack(b, 4, w, 5);
    WordBack(b, 4, w, 6);
    WordBack(b, 4, w, 7);
    WordBack(b, 4, w, 8);
    WordBack(b, 4, w, 9);
    WordBack(b, 4, w, 10);
  }

  lemma {:induction false} EntryAt(s: Source, n: nat, id: nat)
    requires id < n <= |s.tokens|
    ensures TableBytes(s, n)[id * 8..id * 8 + 8] == TokenEntry(s, id)
    decreases n
  {
    hide TokenEntry;
    if id < n - 1 {
      EntryAt(s, n - 1, id);
      assert TableBytes(s, n)[..(n - 1) * 8] == TableBytes(s, n - 1);
      Inside(TableBytes(s, n), 0, TableBytes(s, n - 1), id * 8, id * 8 + 8);
    }
  }

  lemma {:induction false} PoolGrows(s: Source, n: nat, id: nat)
    requires id <= n <= |s.tokens|
    ensures PoolOf(s, id) <= PoolOf(s, n)
    decreases n
  {
    hide Raw;
    if id < n {
      PoolGrows(s, n - 1, id);
    }
  }

  lemma PoolSlice(s: Source, id: nat)
    requires id < |s.tokens|
    ensures var p, at := PoolOf(s, |s.tokens|), |PoolOf(s, id)|;
      at + |Raw(s, id)| <= |p| && p[at..at + |Raw(s, id)|] == Raw(s, id)
  {
    hide Raw, PoolOf;
    PoolGrows(s, |s.tokens|, id + 1);
    PoolNext(s, id);
    PrefixSlice(PoolOf(s, |s.tokens|), PoolOf(s, id), Raw(s, id));
  }

  lemma PoolNext(s: Source, id: nat)
    requires id < |s.tokens|
    ensures PoolOf(s, id + 1) == PoolOf(s, id) + Raw(s, id)
  {
    hide Raw;
  }

  lemma PrefixSlice(p: Bytes, a: Bytes, b: Bytes)
    requires a + b <= p
    ensures p[|a|..|a| + |b|] == b
  {
    assert p[..|a| + |b|] == a + b;
    assert p[|a|..|a| + |b|] == p[..|a| + |b|][|a|..];
  }

  /** The three fields of a table entry. */
  lemma EntryBack(s: Source, id: nat)
    requires Buildable(s) && Fits32(s) && id < |s.tokens|
    ensures var t := TableBytes(s, |s.tokens|);
      && U32(t, id * 8) == |PoolOf(s, id)| && U16(t, id * 8 + 4) == |Raw(s, id)| && U16(t, id * 8 + 6) == Flag(s, id)
  {
    hide TableBytes, PoolOf, Raw, Slots, Halves, FirstId, Le, LeNum, U16, U32;
    var t, e := TableBytes(s, |s.tokens|), TokenEntry(s, id);
    EntryAt(s, |s.tokens|, id);
    PoolSlice(s, id);
    Inside(t, id * 8, e, 0, 4);
    Inside(t, id * 8, e, 4, 6);
    Inside(t, id * 8, e, 6, 8);
    EntryParts(s, id);
    FullBack(t, id * 8, |PoolOf(s, id)|);
    HalfBack(t, id * 8 + 4, |Raw(s, id)|);
    HalfBack(t, id * 8 + 6, Flag(s, id));
  }

  lemma EntryParts(s: Source, id: nat)
    requires id < |s.tokens|
    ensures var e := TokenEntry(s, id);
      e[0..4] == Le(|PoolOf(s, id)|, 4) && e[4..6] == Le(|Raw(s, id)|, 2) && e[6..8] == Le(Flag(s, id), 2)
  {
    hide Le, PoolOf, Raw, Flag;
  }

  lemma FullBack(b: Bytes, at: nat, v: nat)
    requires at + 4 <= |b| && b[at..at + 4] == Le(v, 4) && v < WORD
    ensures U32(b, at) == v
  {
    Pow256Values();
    LeRoundTrip(v, 4);
  }

  lemma {:induction false} MergeBytesAt(ms: seq<Merge>, i: nat)
    requires i < |ms|
    ensures MergeBytes(ms)[i * 16..i * 16 + 16] == Words(MergeWords(ms[i]))
    decreases |ms|
  {
    hide Words, MergeWords;
    if i < |ms| - 1 {
      var front := ms[..|ms| - 1];
      MergeBytesAt(front, i);
      assert MergeBytes(ms) == MergeBytes(front) + Words(MergeWords(ms[|ms| - 1]));
      assert |MergeBytes(front)| == (|ms| - 1) * 16;
      Inside(MergeBytes(ms), 0, MergeBytes(front), i * 16, i * 16 + 16);
      assert front[i] == ms[i];
    }
  }

  lemma TableBack(s: Source)
    requires Buildable(s) && Fits32(s)
    ensures TableOk(TableBytes(s, |s.tokens|), |s.tokens|, |PoolOf(s, |s.tokens|)|)
  {
    hide PoolOf, Raw, Halves, FirstId, TableBytes, MergeBytes, Words, U32, U16, Resolved, SortByKey;
    forall id | 0 <= id < |s.tokens| ensures EntryOk(TableBytes(s, |s.tokens|), id, |PoolOf(s, |s.tokens|)|) {
      EntryBack(s, id);
      PoolSlice(s, id);
    }
  }

  lemma TokenizerLoaded(s: Source)
    requires Buildable(s) && Fits32(s) && GivenIds(s)
    ensures Loaded(TokenizerOf(s))
  {
    hide PoolOf, Raw, Halves, FirstId, TableBytes, MergeBytes, Words, U32, U16, Resolved, SortByKey, TableOk;
    TableBack(s);
  }

  /** Parsing the built blob gives exactly the sections written, if and only if
      the two given ids are in the vocabulary; otherwise the blob is refused. */
  lemma BuiltParses(s: Source)
    requires Buildable(s) && Fits32(s)
    ensures ParseSpec(BlobOf(s)) == if GivenIds(s) then Ok(TokenizerOf(s)) else Err(TooShort)
    ensures GivenIds(s) ==> Loaded(TokenizerOf(s))
  {
    hide PoolOf, Raw, Halves, FirstId, TableBytes, MergeBytes, Words, U32, BlobOf, SpecialsAt, Buildable, TableOk, TemplateOf, SortByKey, Resolved, Slots;
    Sections(s);
    HeaderBack(s);
    TableBack(s);
    SlotIds(s);
    if GivenIds(s) {
      TokenizerLoaded(s);
    }
  }

  lemma SlotIds(s: Source)
    requires Buildable(s)
    ensures SpecialsOk(TokenizerOf(s).specials, |s.tokens|) <==> GivenIds(s)
  {
    hide SlotNames, Literal;
  }

  /** Token bytes and control flags are those of the vocabulary. */
  lemma TokenBack(s: Source, id: nat)
    requires Buildable(s) && Fits32(s) && GivenIds(s) && id < |s.tokens| && Loaded(TokenizerOf(s))
    ensures TokenBytes(TokenizerOf(s), id) == Raw(s, id)
    ensures IsControl(TokenizerOf(s), id) <==> Control(s, id)
  {
    hide PoolOf, Raw, Halves, FirstId, TableBytes, MergeBytes, Words, U32, U16, Resolved, SortByKey, Slots, Buildable, Loaded;
    EntryBack(s, id);
    PoolSlice(s, id);
  }

  lemma ByteBack(s: Source, b: Byte)
    requires Buildable(s) && Fits32(s) && GivenIds(s) && Loaded(TokenizerOf(s))
    ensures IdOf(s, [b]).Some? && ByteToken(TokenizerOf(s), b) == IdOf(s, [b]).value
  {
    hide PoolOf, Raw, Halves, FirstId, TableBytes, MergeBytes, Words, U32, Resolved, SortByKey, Slots, Loaded;
    WordBack(TokenizerOf(s).byteIds, 0, ByteIdWords(s), b);
  }

  lemma MergeBack(s: Source, i: nat)
    requires Buildable(s) && Fits32(s) && GivenIds(s) && Loaded(TokenizerOf(s)) && i < |MergesOf(s)|
    ensures MergeAt(TokenizerOf(s), i) == MergesOf(s)[i] && Concatenates(s, MergesOf(s)[i])
  {
    hide PoolOf, Raw, Halves, FirstId, TableBytes, MergeBytes, Words, U32, Resolved, SortByKey, Slots, Loaded, Buildable;
    MergesFit(s);
    var m := MergesOf(s)[i];
    var w := MergeWords(m);
    var b := TokenizerOf(s).merges;
    MergeBytesAt(MergesOf(s), i);
    WordBack(b, i * 16, w, 0);
    WordBack(b, i * 16, w, 1);
    WordBack(b, i * 16, w, 2);
    WordBack(b, i * 16, w, 3);
  }

  /** The blob that `build` writes is faithful: this is what the round trip of
      `Blob.TextRoundTrip` needs. */
  lemma BuiltIsFaithful(s: Source)
    requires Buildable(s) && Fits32(s) && GivenIds(s)
    ensures ParseSpec(BlobOf(s)) == Ok(TokenizerOf(s)) && Faithful(TokenizerOf(s)) && Ordered(TokenizerOf(s))
  {
    hide PoolOf, Raw, Halves, TableBytes, MergeBytes, Words, U32, Resolved, SortByKey, Slots, Loaded, Buildable, ParseSpec, BlobOf, TokenBytes, IsControl, FirstId, MergeAt, ByteToken;
    BuiltParses(s);
    var t := TokenizerOf(s);
    forall b: Byte ensures !IsControl(t, ByteToken(t, b)) && TokenBytes(t, ByteToken(t, b)) == [b] {
      ByteBack(s, b);
      TokenBack(s, IdOf(s, [b]).value);
    }
    forall i | 0 <= i < t.mergeCount ensures FaithfulMerge(t, i) {
      MergeBack(s, i);
      var m := MergesOf(s)[i];
      TokenBack(s, m.left);
      TokenBack(s, m.right);
      TokenBack(s, m.result);
    }
    MergesFit(s);
    forall i, j | 0 <= i < j < t.mergeCount ensures KeyAt(t, i) <= KeyAt(t, j) {
      MergeBack(s, i);
      MergeBack(s, j);
    }
  }

  /** No two merges resolve to the same pair. */
  ghost predicate DistinctPairs(s: Source)
    requires Buildable(s)
  {
    forall i, j | 0 <= i < j < |MergesOf(s)| :: MergeKey(MergesOf(s)[i]) != MergeKey(MergesOf(s)[j])
  }

  /** The order is strict, so that bisection is a linear lookup, exactly when no
      pair was listed twice. */
  lemma SortedIffDistinct(s: Source)
    requires Buildable(s) && Fits32(s) && GivenIds(s)
    ensures Loaded(TokenizerOf(s)) && (Sorted(TokenizerOf(s)) <==> DistinctPairs(s))
  {
    hide PoolOf, Raw, Halves, TableBytes, MergeBytes, Words, U32, Resolved, SortByKey, Slots, Loaded, Buildable, ParseSpec, BlobOf, MergeAt, MergesOf;
    BuiltParses(s);
    MergesFit(s);
    var t := TokenizerOf(s);
    CountOf(s);
    forall i | 0 <= i < t.mergeCount ensures KeyAt(t, i) == MergeKey(MergesOf(s)[i]) {
      MergeBack(s, i);
    }
  }

  /** With no pair listed twice, encoding with a built blob is the reference
      algorithm over the builder's merges: any run of it ends where the encoder
      does. */
  lemma BuiltIsReference(s: Source, run: seq<seq<nat>>)
    requires Buildable(s) && Fits32(s) && GivenIds(s) && DistinctPairs(s)
    ensures var r := ParseSpec(BlobOf(s));
      r.Ok? && Loaded(r.value) && (RefRun(r.value, run) && Ids(run[0]) ==> Bpe(r.value, run[0]) == run[|run| - 1])
  {
    hide Buildable, ParseSpec, BlobOf, Loaded, Sorted, RefRun, Bpe, DistinctPairs;
    BuiltParses(s);
    SortedIffDistinct(s);
    RunStarts(TokenizerOf(s), run);
    if RefRun(TokenizerOf(s), run) && Ids(run[0]) {
      BpeIsReference(TokenizerOf(s), run);
    }
  }

  /** With a built blob no merge ever applies to what the encoder leaves, even if a
      pair is listed twice. */
  lemma BuiltIsFinal(s: Source, ids: seq<nat>)
    requires Buildable(s) && Fits32(s) && GivenIds(s)
    ensures var r := ParseSpec(BlobOf(s)); r.Ok? && Loaded(r.value) && Final(r.value, Bpe(r.value, ids))
  {
    hide Buildable, ParseSpec, BlobOf, Loaded, Bpe, Final, Ordered;
    BuiltIsFaithful(s);
    FaithfulLoaded(TokenizerOf(s));
    BpeIsFinal(TokenizerOf(s), ids);
  }

  lemma RunStarts(t: Tokenizer, run: seq<seq<nat>>)
    requires Loaded(t)
    ensures RefRun(t, run) ==> run != []
  {
    hide Loaded, RefStep, Final;
  }

  lemma CountOf(s: Source)
    requires Buildable(s)
    ensures TokenizerOf(s).mergeCount == |MergesOf(s)|
  {
  }

  /** For every text, the tokens of a built blob concatenate to the text's bytes
      and none of them is a control token. */
  lemma BuiltRoundTrip(s: Source, k: Pretok.Classes, text: Text)
    requires Buildable(s) && Fits32(s) && GivenIds(s) && Pretok.Facts(k)
    ensures var r := ParseSpec(BlobOf(s));
      && r.Ok? && Loaded(r.value)
      && BytesOf(r.value, EncodedText(r.value, k, text)) == Encode(text)
      && Plain(r.value, EncodedText(r.value, k, text))
  {
    hide Buildable, ParseSpec, BlobOf, BytesOf, EncodedText, Faithful, Ordered, Plain, Pretok.Facts;
    BuiltIsFaithful(s);
    FaithfulLoaded(TokenizerOf(s));
    TextRoundTrip(TokenizerOf(s), k, text);
  }

  // ---- The builder's loops ----------------------------------------------------------------------------------

  /** Raw bytes and flags of all tokens, and the last id of each token string. */
  method DecodeVocab(s: Source, u2b: map<Char, Byte>) returns (decoded: seq<Bytes>, flags: seq<nat>, byLiteral: map<Text, nat>)
    requires forall b: Byte :: Spelled(b) in u2b && u2b[Spelled(b)] == b
    requires forall c | c in u2b :: Spelled(u2b[c]) == c
    ensures |decoded| == |flags| == |s.tokens|
    ensures forall id | 0 <= id < |s.tokens| :: decoded[id] == Raw(s, id) && flags[id] == Flag(s, id)
    ensures forall lit: Text :: (lit in byLiteral <==> Literal(s, lit, |s.tokens|).Some?)
    ensures forall lit | lit in byLiteral :: Literal(s, lit, |s.tokens|) == Some(byLiteral[lit])
  {
    hide Decode, Spelled;
    decoded, flags, byLiteral := [], [], map[];
    var id := 0;
    while id < |s.tokens|
      invariant 0 <= id <= |s.tokens| && |decoded| == |flags| == id
      invariant forall k | 0 <= k < id :: decoded[k] == Raw(s, k) && flags[k] == Flag(s, k)
      invariant forall lit: Text :: (lit in byLiteral <==> Literal(s, lit, id).Some?)
      invariant forall lit | lit in byLiteral :: Literal(s, lit, id) == Some(byLiteral[lit])
    {
      var control := Control(s, id);
      byLiteral := byLiteral[s.tokens[id] := id];
      var raw := DecodeToken(s.tokens[id], control, u2b);
      decoded := decoded + [raw];
      flags := flags + [if control then 1 else 0];
      id := id + 1;
    }
  }

  /** First ordinary id of each byte string. */
  method IndexBytes(s: Source, decoded: seq<Bytes>, flags: seq<nat>) returns (byBytes: map<Bytes, nat>)
    requires |decoded| == |flags| == |s.tokens|
    requires forall id | 0 <= id < |s.tokens| :: decoded[id] == Raw(s, id) && flags[id] == Flag(s, id)
    ensures forall b: Bytes :: (b in byBytes <==> IdOf(s, b).Some?)
    ensures forall b | b in byBytes :: IdOf(s, b) == Some(byBytes[b])
  {
    hide Raw, Control;
    byBytes := map[];
    var id := 0;
    while id < |s.tokens|
      invariant 0 <= id <= |s.tokens|
      invariant forall b: Bytes :: (b in byBytes <==> FirstId(s, b, id).Some?)
      invariant forall b | b in byBytes :: FirstId(s, b, id) == Some(byBytes[b])
    {
      if flags[id] == 0 && decoded[id] !in byBytes {
        byBytes := byBytes[decoded[id] := id];
      }
      id := id + 1;
    }
  }

  ghost predicate Indexes(s: Source, byBytes: map<Bytes, nat>) {
    && (forall b: Bytes :: (b in byBytes <==> IdOf(s, b).Some?))
    && (forall b | b in byBytes :: IdOf(s, b) == Some(byBytes[b]))
  }

  /** The id of every byte; nothing if some byte has no token. */
  method ResolveBytes(s: Source, byBytes: map<Bytes, nat>) returns (r: Option<seq<nat>>)
    requires Indexes(s, byBytes)
    ensures r.Some? <==> forall b: Byte :: IdOf(s, [b]).Some?
    ensures r.Some? ==> r.value == ByteIdWords(s)
  {
    hide IdOf;
    var ids: seq<nat> := [];
    var b: nat := 0;
    while b < 256
      invariant 0 <= b <= 256 && ids == ByteIdWords(s)[..b]
      invariant forall x: Byte | x < b :: IdOf(s, [x]).Some?
    {
      if [b] !in byBytes {
        assert IdOf(s, [b]).None?;
        return None;
      }
      ids := ids + [byBytes[[b]]];
      b := b + 1;
    }
    r := Some(ids);
  }

  method SplitMerge(m: Text, u2b: map<Char, Byte>) returns (r: Option<(Bytes, Bytes)>)
    requires forall b: Byte :: Spelled(b) in u2b && u2b[Spelled(b)] == b
    requires forall c | c in u2b :: Spelled(u2b[c]) == c
    ensures r == Halves(m)
  {
    hide Decode, Spelled;
    var i := SpaceAt(m);
    if i == |m| {
      return None;
    }
    var a := DecodeToken(m[..i], false, u2b);
    var b := DecodeToken(m[i + 1..], false, u2b);
    r := Some((a, b));
  }

  /** The merges in rank order; nothing if some string has no space. */
  method ResolveMerges(s: Source, byBytes: map<Bytes, nat>, u2b: map<Char, Byte>) returns (r: Option<seq<Merge>>)
    requires Indexes(s, byBytes)
    requires forall b: Byte :: Spelled(b) in u2b && u2b[Spelled(b)] == b
    requires forall c | c in u2b :: Spelled(u2b[c]) == c
    ensures r.Some? <==> forall i | 0 <= i < |s.merges| :: Halves(s.merges[i]).Some?
    ensures r.Some? ==> r.value == Resolved(s, |s.merges|)
  {
    hide IdOf, Halves, Spelled;
    var resolved: seq<Merge> := [];
    var rank := 0;
    while rank < |s.merges|
      invariant 0 <= rank <= |s.merges|
      invariant forall i | 0 <= i < rank :: Halves(s.merges[i]).Some?
      invariant resolved == Resolved(s, rank)
    {
      var halves := SplitMerge(s.merges[rank], u2b);
      if halves.None? {
        return None;
      }
      var (a, b) := halves.value;
      if a in byBytes && b in byBytes && a + b in byBytes {
        resolved := resolved + [Merge(byBytes[a], byBytes[b], byBytes[a + b], rank)];
      }
      rank := rank + 1;
    }
    r := Some(resolved);
  }

  /** The token table and the pool; nothing if some token is too long. */
  method Serialize(s: Source, decoded: seq<Bytes>, flags: seq<nat>) returns (r: Option<(Bytes, Bytes)>)
    requires |decoded| == |flags| == |s.tokens|
    requires forall id | 0 <= id < |s.tokens| :: decoded[id] == Raw(s, id) && flags[id] == Flag(s, id)
    ensures r.Some? <==> forall id | 0 <= id < |s.tokens| :: |Raw(s, id)| < 0x1_0000
    ensures r.Some? ==> r.value == (TableBytes(s, |s.tokens|), PoolOf(s, |s.tokens|))
  {
    hide Raw, Flag, Le;
    var table: Bytes, pool: Bytes := [], [];
    var id := 0;
    while id < |s.tokens|
      invariant 0 <= id <= |s.tokens|
      invariant forall k | 0 <= k < id :: |Raw(s, k)| < 0x1_0000
      invariant table == TableBytes(s, id) && pool == PoolOf(s, id)
    {
      if |decoded[id]| > 0xffff {
        return None;
      }
      var entry := Le(|pool|, 4);
      entry := entry + Le(|decoded[id]|, 2);
      entry := entry + Le(flags[id], 2);
      table := table + entry;
      pool := pool + decoded[id];
      id := id + 1;
    }
    r := Some((table, pool));
  }

  method ExtendWords(b: Bytes, vs: seq<nat>) returns (r: Bytes)
    ensures r == b + Words(vs)
  {
    hide Le;
    r := b;
    var i := 0;
    while i < |vs|
      invariant 0 <= i <= |vs| && r == b + Words(vs[..i])
    {
      r := r + Le(vs[i], 4);
      assert vs[..i + 1][..i] == vs[..i];
      i := i + 1;
    }
    assert vs[..i] == vs;
  }

  method ExtendMerges(b: Bytes, ms: seq<Merge>) returns (r: Bytes)
    ensures r == b + MergeBytes(ms)
  {
    hide Words, MergeWords;
    r := b;
    var i := 0;
    while i < |ms|
      invariant 0 <= i <= |ms| && r == b + MergeBytes(ms[..i])
    {
      r := ExtendWords(r, MergeWords(ms[i]));
      assert ms[..i + 1][..i] == ms[..i];
      i := i + 1;
    }
    assert ms[..i] == ms;
  }

  method LookupSlots(s: Source, byLiteral: map<Text, nat>) returns (r: Option<Specials>)
    requires forall lit: Text :: (lit in byLiteral <==> Literal(s, lit, |s.tokens|).Some?)
    requires forall lit | lit in byLiteral :: Literal(s, lit, |s.tokens|) == Some(byLiteral[lit])
    ensures r == Slots(s)
  {
    hide SlotNames, Literal;
    var n := SlotNames(s.family);
    if n[0] in byLiteral && n[1] in byLiteral && n[2] in byLiteral && n[3] in byLiteral {
      r := Some(Specials(s.bos, s.eos, byLiteral[n[0]], byLiteral[n[1]], byLiteral[n[2]], byLiteral[n[3]]));
    } else {
      r := None;
    }
  }

  /** The whole builder; nothing stands for its panics. */
  method Build(s: Source) returns (r: Option<Bytes>)
    ensures r.Some? <==> Buildable(s)
    ensures r.Some? ==> r.value == BlobOf(s)
  {
    hide Spelled, IdOf, Raw, Flag, Literal, Halves, Slots, SortByKey, Resolved, Words, TableBytes, MergeBytes, PoolOf, ByteIdWords;
    var u2b := UnicodeToByte();
    var decoded, flags, byLiteral := DecodeVocab(s, u2b);
    var byBytes := IndexBytes(s, decoded, flags);
    var byteIds := ResolveBytes(s, byBytes);
    if byteIds.None? {
      return None;
    }
    var resolved := ResolveMerges(s, byBytes, u2b);
    if resolved.None? {
      return None;
    }
    var sorted := SortByKey(resolved.value);
    var slots := LookupSlots(s, byLiteral);
    if slots.None? {
      return None;
    }
    var serial := Serialize(s, decoded, flags);
    if serial.None? {
      return None;
    }
    var blob := ExtendWords(MAGIC, HeaderWords(s, |sorted|, slots.value));
    blob := ExtendWords(blob, byteIds.value);
    blob := blob + serial.value.0;
    blob := ExtendMerges(blob, sorted);
    blob := blob + serial.value.1;
    r := Some(blob);
  }
}
