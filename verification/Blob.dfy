/** The tokenizer blob: parsing, lookups and byte-pair encoding. */
module Blob {
  import opened Wire
  import opened Unicode
  import opened Wrappers
  import Pretok

  const MAGIC: Bytes := [0x4E, 0x52, 0x54, 0x4B]
  const VERSION: nat := 2
  const BYTE_IDS: nat := 48
  const TABLE: nat := 48 + 1024

  datatype Error = TooShort | BadMagic | BadVersion
  datatype Template = Llama3 | ChatMl | Granite
  datatype Specials = Specials(bos: nat, eos: nat, eot: nat, startHeader: nat, endHeader: nat, endOfText: nat)
  datatype Merge = Merge(left: nat, right: nat, result: nat, rank: nat)

  /** The parsed blob keeps its sections as raw bytes. */
  datatype Tokenizer = Tokenizer(
    specials: Specials, template: Template, vocab: nat, byteIds: Bytes, table: Bytes, merges: Bytes, mergeCount: nat, pool: Bytes)

  // ---- Parsing ------------------------------------------------------------------------

  /** Token `id`'s bytes lie inside the pool. */
  predicate EntryOk(table: Bytes, id: nat, poolSize: nat)
    requires id * 8 + 8 <= |table|
  {
    U32(table, id * 8) + U16(table, id * 8 + 4) <= poolSize
  }

  ghost predicate TableOk(table: Bytes, vocab: nat, poolSize: nat)
    requires vocab * 8 <= |table|
  {
    forall id | 0 <= id < vocab :: EntryOk(table, id, poolSize)
  }

  function SpecialsAt(b: Bytes): Specials
    requires |b| >= 48
  {
    Specials(U32(b, 24), U32(b, 28), U32(b, 32), U32(b, 36), U32(b, 40), U32(b, 44))
  }

  predicate SpecialsOk(s: Specials, vocab: nat) {
    s.bos < vocab && s.eos < vocab && s.eot < vocab && s.startHeader < vocab && s.endHeader < vocab && s.endOfText < vocab
  }

  function TemplateOf(v: nat): Option<Template> {
    if v == 1 then Some(Llama3) else if v == 2 then Some(ChatMl) else if v == 3 then Some(Granite) else None
  }

  ghost function ParseSpec(b: Bytes): Result<Tokenizer, Error> {
    if |b| < 8 + 12 + 24 + 1024 then Err(TooShort)
    else if b[0..4] != MAGIC then Err(BadMagic)
    else if U32(b, 4) != VERSION then Err(BadVersion)
    else if TemplateOf(U32(b, 8)).None? then Err(BadVersion)
    else
      var vocab, count, poolSize := U32(b, 12), U32(b, 16), U32(b, 20);
      var mergesOff := TABLE + vocab * 8;
      var poolOff := mergesOff + count * 16;
      if |b| < poolOff + poolSize then Err(TooShort)
      else if !TableOk(b[TABLE..mergesOff], vocab, poolSize) then Err(TooShort)
      else if !SpecialsOk(SpecialsAt(b), vocab) then Err(TooShort)
      else
        Ok(Tokenizer(SpecialsAt(b), TemplateOf(U32(b, 8)).value, vocab, b[BYTE_IDS..TABLE], b[TABLE..mergesOff],
                     b[mergesOff..poolOff], count, b[poolOff..poolOff + poolSize]))
  }

  /** The first test lets through four lengths too short for the byte table; the
      section test rejects them before anything is sliced. */
  method Parse(b: Bytes) returns (r: Result<Tokenizer, Error>)
    ensures r == ParseSpec(b)
    ensures r.Ok? ==> Loaded(r.value)
  {
    hide LeNum;
    if |b| < 8 + 12 + 24 + 1024 {
      return Err(TooShort);
    }
    if b[0..4] != MAGIC {
      return Err(BadMagic);
    }
    if U32(b, 4) != VERSION {
      return Err(BadVersion);
    }
    var template := TemplateOf(U32(b, 8));
    if template.None? {
      return Err(BadVersion);
    }
    var vocab, count, poolSize := U32(b, 12), U32(b, 16), U32(b, 20);
    var specials := SpecialsAt(b);
    var mergesOff := TABLE + vocab * 8;
    var poolOff := mergesOff + count * 16;
    if |b| < poolOff + poolSize {
      return Err(TooShort);
    }
    var table := b[TABLE..mergesOff];
    var id := 0;
    while id < vocab
      invariant 0 <= id <= vocab && forall k | 0 <= k < id :: EntryOk(table, k, poolSize)
    {
      if !EntryOk(table, id, poolSize) {
        return Err(TooShort);
      }
      id := id + 1;
    }
    if !SpecialsOk(specials, vocab) {
      return Err(TooShort);
    }
    r := Ok(Tokenizer(specials, template.value, vocab, b[BYTE_IDS..TABLE], table, b[mergesOff..poolOff], count, b[poolOff..poolOff + poolSize]));
  }

  /** What parsing guarantees of the sections. */
  ghost predicate Loaded(t: Tokenizer) {
    && |t.byteIds| == 1024 && |t.table| == t.vocab * 8 && |t.merges| == t.mergeCount * 16
    && TableOk(t.table, t.vocab, |t.pool|) && SpecialsOk(t.specials, t.vocab)
  }

  // ---- Reading tokens and merges ------------------------------------------------------------

  function ByteToken(t: Tokenizer, b: Byte): nat
    requires Loaded(t)
  {
    U32(t.byteIds, b * 4)
  }

  /** Raw bytes of a token; none for ids outside the vocabulary. */
  function TokenBytes(t: Tokenizer, id: nat): Bytes
    requires Loaded(t)
  {
    if id >= t.vocab then []
    else
      assert EntryOk(t.table, id, |t.pool|);
      t.pool[U32(t.table, id * 8)..U32(t.table, id * 8) + U16(t.table, id * 8 + 4)]
  }

  predicate IsControl(t: Tokenizer, id: nat)
    requires Loaded(t)
  {
    id >= t.vocab || U16(t.table, id * 8 + 6) % 2 == 1
  }

  function MergeAt(t: Tokenizer, i: nat): Merge
    requires Loaded(t) && i < t.mergeCount
  {
    Merge(U32(t.merges, i * 16), U32(t.merges, i * 16 + 4), U32(t.merges, i * 16 + 8), U32(t.merges, i * 16 + 12))
  }

  function Key(l: nat, r: nat): nat { l * WORD + r }

  function KeyAt(t: Tokenizer, i: nat): nat
    requires Loaded(t) && i < t.mergeCount
  {
    Key(MergeAt(t, i).left, MergeAt(t, i).right)
  }

  /** The bisection of the source. */
  function Bisect(t: Tokenizer, key: nat, lo: nat, hi: nat): (r: Option<nat>)
    requires Loaded(t) && lo <= hi <= t.mergeCount
    ensures r.Some? ==> lo <= r.value < hi && KeyAt(t, r.value) == key
    decreases hi - lo
  {
    if lo == hi then None
    else
      var mid := (lo + hi) / 2;
      if KeyAt(t, mid) < key then Bisect(t, key, mid + 1, hi)
      else if KeyAt(t, mid) > key then Bisect(t, key, lo, mid)
      else Some(mid)
  }

  function Found(t: Tokenizer, l: nat, r: nat): Option<(nat, nat)>
    requires Loaded(t)
  {
    match Bisect(t, Key(l, r), 0, t.mergeCount)
    case None => None
    case Some(i) => Some((MergeAt(t, i).result, MergeAt(t, i).rank))
  }

  method FindMerge(t: Tokenizer, l: nat, r: nat) returns (m: Option<(nat, nat)>)
    requires Loaded(t)
    ensures m == Found(t, l, r)
  {
    hide U32, MergeAt;
    var key := Key(l, r);
    var lo, hi := 0, t.mergeCount;
    while lo < hi
      invariant 0 <= lo <= hi <= t.mergeCount && Bisect(t, key, 0, t.mergeCount) == Bisect(t, key, lo, hi)
    {
      var mid := (lo + hi) / 2;
      var k := KeyAt(t, mid);
      if k < key {
        lo := mid + 1;
      } else if k > key {
        hi := mid;
      } else {
        return Some((MergeAt(t, mid).result, MergeAt(t, mid).rank));
      }
    }
    m := None;
  }

  /** The merges are in strictly increasing key order. */
  ghost predicate Sorted(t: Tokenizer)
    requires Loaded(t)
  {
    forall i, j | 0 <= i < j < t.mergeCount :: KeyAt(t, i) < KeyAt(t, j)
  }

  /** As a stable sort leaves them: equal keys may repeat. */
  ghost predicate Ordered(t: Tokenizer)
    requires Loaded(t)
  {
    forall i, j | 0 <= i < j < t.mergeCount :: KeyAt(t, i) <= KeyAt(t, j)
  }

  /** Even with repeated pairs the search succeeds exactly when the pair is there. */
  lemma {:induction false} BisectFinds(t: Tokenizer, key: nat, lo: nat, hi: nat, i: nat)
    requires Loaded(t) && Ordered(t) && lo <= i < hi <= t.mergeCount && KeyAt(t, i) == key
    ensures Bisect(t, key, lo, hi).Some?
    decreases hi - lo
  {
    hide KeyAt, Loaded;
    var mid := (lo + hi) / 2;
    if KeyAt(t, mid) < key {
      BisectFinds(t, key, mid + 1, hi, i);
    } else if KeyAt(t, mid) > key {
      BisectFinds(t, key, lo, mid, i);
    }
  }

  /** The first merge in table order for this pair. */
  function Linear(t: Tokenizer, l: nat, r: nat, from: nat): Option<(nat, nat)>
    requires Loaded(t) && from <= t.mergeCount
    decreases t.mergeCount - from
  {
    if from == t.mergeCount then None
    else if KeyAt(t, from) == Key(l, r) then Some((MergeAt(t, from).result, MergeAt(t, from).rank))
    else Linear(t, l, r, from + 1)
  }

  lemma {:induction false} BisectComplete(t: Tokenizer, key: nat, lo: nat, hi: nat, i: nat)
    requires Loaded(t) && Sorted(t) && lo <= i < hi <= t.mergeCount && KeyAt(t, i) == key
    ensures Bisect(t, key, lo, hi) == Some(i)
    decreases hi - lo
  {
    hide KeyAt, Loaded;
    var mid := (lo + hi) / 2;
    if mid < i {
      BisectComplete(t, key, mid + 1, hi, i);
    } else if i < mid {
      BisectComplete(t, key, lo, mid, i);
    }
  }

  ghost predicate IsHit(t: Tokenizer, l: nat, r: nat, i: nat, hit: (nat, nat))
    requires Loaded(t) && i < t.mergeCount
  {
    KeyAt(t, i) == Key(l, r) && hit == (MergeAt(t, i).result, MergeAt(t, i).rank)
  }

  lemma {:induction false} LinearFinds(t: Tokenizer, l: nat, r: nat, from: nat)
    requires Loaded(t) && from <= t.mergeCount
    ensures Linear(t, l, r, from).None? ==> forall i | from <= i < t.mergeCount :: KeyAt(t, i) != Key(l, r)
    ensures Linear(t, l, r, from).Some? ==> exists i :: from <= i < t.mergeCount && IsHit(t, l, r, i, Linear(t, l, r, from).value)
    decreases t.mergeCount - from
  {
    hide KeyAt, MergeAt, Loaded;
    if from < t.mergeCount {
      if KeyAt(t, from) == Key(l, r) {
        assert IsHit(t, l, r, from, Linear(t, l, r, from).value);
      } else {
        LinearFinds(t, l, r, from + 1);
      }
    }
  }

  /** Binary search finds what a linear scan finds. */
  lemma BisectIsLinear(t: Tokenizer, l: nat, r: nat)
    requires Loaded(t) && Sorted(t)
    ensures Found(t, l, r) == Linear(t, l, r, 0)
  {
    hide KeyAt, MergeAt, Loaded, Sorted;
    LinearFinds(t, l, r, 0);
    if Linear(t, l, r, 0).Some? {
      var i :| 0 <= i < t.mergeCount && IsHit(t, l, r, i, Linear(t, l, r, 0).value);
      BisectComplete(t, Key(l, r), 0, t.mergeCount, i);
    }
  }

  // ---- Byte-pair encoding ---------------------------------------------------------------------

  function Pair(t: Tokenizer, ids: seq<nat>, i: nat): Option<(nat, nat)>
    requires Loaded(t) && i + 1 < |ids|
  {
    Found(t, ids[i], ids[i + 1])
  }

  datatype Candidate = Candidate(at: nat, result: nat, rank: nat)

  /** The scan for the best pair among the first `n`. */
  function Best(t: Tokenizer, ids: seq<nat>, n: nat): (b: Option<Candidate>)
    requires Loaded(t) && (n == 0 || n < |ids|)
    ensures b.Some? ==> b.value.at < n
  {
    if n == 0 then None
    else
      var b, p := Best(t, ids, n - 1), Pair(t, ids, n - 1);
      if p.Some? && (b.None? || p.value.1 < b.value.rank) then Some(Candidate(n - 1, p.value.0, p.value.1)) else b
  }

  function Pairs(ids: seq<nat>): (n: nat)
    ensures n == 0 || n < |ids|
  {
    if |ids| == 0 then 0 else |ids| - 1
  }

  /** The pair at `i` has a merge of least rank, and no pair to its left does. */
  ghost predicate LowestLeftmost(t: Tokenizer, ids: seq<nat>, i: nat)
    requires Loaded(t)
  {
    && i < Pairs(ids) && Pair(t, ids, i).Some?
    && forall j | 0 <= j < Pairs(ids) && Pair(t, ids, j).Some? ::
      && Pair(t, ids, i).value.1 <= Pair(t, ids, j).value.1
      && (Pair(t, ids, i).value.1 == Pair(t, ids, j).value.1 ==> i <= j)
  }

  ghost predicate Settled(t: Tokenizer, ids: seq<nat>)
    requires Loaded(t)
  {
    forall j | 0 <= j < Pairs(ids) :: Pair(t, ids, j).None?
  }

  lemma {:induction false} BestUpTo(t: Tokenizer, ids: seq<nat>, n: nat)
    requires Loaded(t) && (n == 0 || n < |ids|)
    ensures var b := Best(t, ids, n);
      match b
      case None => forall j | 0 <= j < n :: Pair(t, ids, j).None?
      case Some(c) =>
        && Pair(t, ids, c.at) == Some((c.result, c.rank))
        && forall j | 0 <= j < n && Pair(t, ids, j).Some? ::
          && c.rank <= Pair(t, ids, j).value.1
          && (c.rank == Pair(t, ids, j).value.1 ==> c.at <= j)
    decreases n
  {
    hide Pair, Loaded;
    if n > 0 {
      BestUpTo(t, ids, n - 1);
    }
  }

  /** The scan finds the lowest-rank, leftmost pair, or shows there is none. */
  lemma BestIsLowest(t: Tokenizer, ids: seq<nat>)
    requires Loaded(t)
    ensures match Best(t, ids, Pairs(ids))
            case None => Settled(t, ids)
            case Some(c) => LowestLeftmost(t, ids, c.at) && Pair(t, ids, c.at) == Some((c.result, c.rank))
  {
    hide Pair, Loaded;
    BestUpTo(t, ids, Pairs(ids));
  }

  /** Replace the pair at `i` by its merge. */
  function Merged(t: Tokenizer, ids: seq<nat>, i: nat): (s: seq<nat>)
    requires Loaded(t) && i < Pairs(ids) && Pair(t, ids, i).Some?
    ensures |s| == |ids| - 1
  {
    ids[..i] + [Pair(t, ids, i).value.0] + ids[i + 2..]
  }

  /** Merge until no adjacent pair has a merge. */
  function Bpe(t: Tokenizer, ids: seq<nat>): seq<nat>
    requires Loaded(t)
    decreases |ids|
  {
    match Best(t, ids, Pairs(ids))
    case None => ids
    case Some(c) => BestIsLowest(t, ids); Bpe(t, Merged(t, ids, c.at))
  }

  lemma BpeStep(t: Tokenizer, ids: seq<nat>, i: nat)
    requires Loaded(t)
    ensures LowestLeftmost(t, ids, i) ==> Bpe(t, ids) == Bpe(t, Merged(t, ids, i))
    ensures Settled(t, ids) ==> Bpe(t, ids) == ids
  {
    hide Pair, Loaded;
    BestIsLowest(t, ids);
  }

  // ---- The reference algorithm, over the merge table itself ---------------------------------------

  ghost predicate Ids(ids: seq<nat>) {
    forall i | 0 <= i < |ids| :: ids[i] < WORD
  }

  lemma KeyInjective(a: nat, b: nat, c: nat, d: nat)
    requires b < WORD && d < WORD && Key(a, b) == Key(c, d)
    ensures a == c && b == d
  {
  }

  /** Entry `m` of the merge table merges the pair at `i`. */
  ghost predicate Applies(t: Tokenizer, ids: seq<nat>, i: nat, m: nat)
    requires Loaded(t)
  {
    i < Pairs(ids) && m < t.mergeCount && MergeAt(t, m).left == ids[i] && MergeAt(t, m).right == ids[i + 1]
  }

  /** No entry that applies has a lower rank, or the same rank further left. */
  ghost predicate Chosen(t: Tokenizer, ids: seq<nat>, i: nat, m: nat)
    requires Loaded(t)
  {
    && Applies(t, ids, i, m)
    && forall j: nat, n: nat | Applies(t, ids, j, n) ::
      MergeAt(t, m).rank < MergeAt(t, n).rank || (MergeAt(t, m).rank == MergeAt(t, n).rank && i <= j)
  }

  /** No entry applies anywhere. */
  ghost predicate Final(t: Tokenizer, ids: seq<nat>)
    requires Loaded(t)
  {
    forall i: nat, m: nat :: !Applies(t, ids, i, m)
  }

  function Replace(ids: seq<nat>, i: nat, id: nat): (s: seq<nat>)
    requires i < Pairs(ids)
    ensures |s| == |ids| - 1
  {
    ids[..i] + [id] + ids[i + 2..]
  }

  ghost predicate RefStep(t: Tokenizer, ids: seq<nat>, next: seq<nat>)
    requires Loaded(t)
  {
    exists i: nat, m: nat :: Chosen(t, ids, i, m) && next == Replace(ids, i, MergeAt(t, m).result)
  }

  /** The token lists of one run of the reference algorithm, start to end. */
  ghost predicate RefRun(t: Tokenizer, run: seq<seq<nat>>)
    requires Loaded(t)
  {
    && run != [] && Final(t, run[|run| - 1])
    && forall k | 0 <= k < |run| - 1 :: RefStep(t, run[k], run[k + 1])
  }

  lemma {:induction false} BpeSettles(t: Tokenizer, ids: seq<nat>)
    requires Loaded(t)
    ensures Settled(t, Bpe(t, ids))
    decreases |ids|
  {
    hide Pair, Loaded;
    BestIsLowest(t, ids);
    match Best(t, ids, Pairs(ids))
    case None =>
    case Some(c) => BpeSettles(t, Merged(t, ids, c.at));
  }

  /** Even where a pair is listed twice, no entry applies to the encoder's result. */
  lemma BpeIsFinal(t: Tokenizer, ids: seq<nat>)
    requires Loaded(t) && Ordered(t)
    ensures Final(t, Bpe(t, ids))
  {
    hide MergeAt, Loaded, Ordered, Bpe;
    var out := Bpe(t, ids);
    forall i: nat, m: nat | Applies(t, out, i, m) ensures i < Pairs(out) && Pair(t, out, i).Some? {
      BisectFinds(t, Key(out[i], out[i + 1]), 0, t.mergeCount, m);
    }
    BpeSettles(t, ids);
  }

  /** With the table in strict order the lookup of a pair is its only entry. */
  lemma PairIsEntry(t: Tokenizer, ids: seq<nat>, i: nat)
    requires Loaded(t) && Sorted(t) && Ids(ids) && i < Pairs(ids)
    ensures forall m: nat | Applies(t, ids, i, m) :: Pair(t, ids, i) == Some((MergeAt(t, m).result, MergeAt(t, m).rank))
    ensures Pair(t, ids, i).Some? ==>
      exists m: nat :: Applies(t, ids, i, m) && Pair(t, ids, i).value == (MergeAt(t, m).result, MergeAt(t, m).rank)
  {
    hide MergeAt, Sorted, Loaded;
    forall m: nat | Applies(t, ids, i, m) ensures Pair(t, ids, i) == Some((MergeAt(t, m).result, MergeAt(t, m).rank)) {
      BisectComplete(t, Key(ids[i], ids[i + 1]), 0, t.mergeCount, m);
    }
    if Pair(t, ids, i).Some? {
      var m := Bisect(t, Key(ids[i], ids[i + 1]), 0, t.mergeCount).value;
      RightFits(t, m);
      KeyInjective(MergeAt(t, m).left, MergeAt(t, m).right, ids[i], ids[i + 1]);
      assert Applies(t, ids, i, m);
    }
  }

  lemma RightFits(t: Tokenizer, m: nat)
    requires Loaded(t) && m < t.mergeCount
    ensures MergeAt(t, m).right < WORD && MergeAt(t, m).result < WORD
  {
  }

  lemma FinalIsSettled(t: Tokenizer, ids: seq<nat>)
    requires Loaded(t) && Sorted(t) && Ids(ids)
    ensures Final(t, ids) <==> Settled(t, ids)
  {
    hide Pair, MergeAt, Loaded, Sorted;
    forall i: nat | i < Pairs(ids) ensures Pair(t, ids, i).Some? <==> exists m: nat :: Applies(t, ids, i, m) {
      PairIsEntry(t, ids, i);
    }
    forall i: nat, m: nat | Applies(t, ids, i, m) ensures Pair(t, ids, i).Some? && i < Pairs(ids) {
      AppliesInside(t, ids, i, m);
    }
  }

  lemma AppliesInside(t: Tokenizer, ids: seq<nat>, i: nat, m: nat)
    requires Loaded(t) && Applies(t, ids, i, m)
    ensures i < Pairs(ids) && m < t.mergeCount
  {
  }

  lemma ChosenIsLowest(t: Tokenizer, ids: seq<nat>, i: nat, m: nat)
    requires Loaded(t) && Sorted(t) && Ids(ids) && Chosen(t, ids, i, m)
    ensures i < Pairs(ids) && LowestLeftmost(t, ids, i) && Merged(t, ids, i) == Replace(ids, i, MergeAt(t, m).result)
  {
    hide Pair, MergeAt, Loaded, Sorted, Applies;
    AppliesInside(t, ids, i, m);
    PairIsEntry(t, ids, i);
    forall j | 0 <= j < Pairs(ids) && Pair(t, ids, j).Some?
      ensures Pair(t, ids, i).value.1 <= Pair(t, ids, j).value.1
      ensures Pair(t, ids, i).value.1 == Pair(t, ids, j).value.1 ==> i <= j
    {
      PairIsEntry(t, ids, j);
    }
  }

  lemma LowestIsChosen(t: Tokenizer, ids: seq<nat>, i: nat) returns (m: nat)
    requires Loaded(t) && Sorted(t) && Ids(ids) && LowestLeftmost(t, ids, i)
    ensures Chosen(t, ids, i, m) && Merged(t, ids, i) == Replace(ids, i, MergeAt(t, m).result)
  {
    hide Pair, MergeAt, Loaded, Sorted;
    PairIsEntry(t, ids, i);
    m :| Applies(t, ids, i, m) && Pair(t, ids, i).value == (MergeAt(t, m).result, MergeAt(t, m).rank);
    forall j: nat, n: nat | Applies(t, ids, j, n)
      ensures MergeAt(t, m).rank < MergeAt(t, n).rank || (MergeAt(t, m).rank == MergeAt(t, n).rank && i <= j)
    {
      AppliesInside(t, ids, j, n);
      PairIsEntry(t, ids, j);
    }
  }

  lemma ReplaceIds(t: Tokenizer, ids: seq<nat>, i: nat, m: nat)
    requires Loaded(t) && Ids(ids) && i < Pairs(ids) && m < t.mergeCount
    ensures Ids(Replace(ids, i, MergeAt(t, m).result))
  {
    RightFits(t, m);
  }

  /** The encoder is the reference algorithm: every run of it ends with what the
      encoder makes of the list it starts from. */
  lemma {:induction false} BpeIsReference(t: Tokenizer, run: seq<seq<nat>>)
    requires Loaded(t) && Sorted(t) && RefRun(t, run) && Ids(run[0])
    ensures Bpe(t, run[0]) == run[|run| - 1]
    decreases |run|
  {
    hide Pair, MergeAt, Loaded, Sorted, Final, LowestLeftmost, Settled, Merged, Replace;
    if |run| == 1 {
      FinalIsSettled(t, run[0]);
      BpeStep(t, run[0], 0);
    } else {
      assert RefStep(t, run[0], run[1]);
      var i: nat, m: nat :| Chosen(t, run[0], i, m) && run[1] == Replace(run[0], i, MergeAt(t, m).result);
      ChosenIsLowest(t, run[0], i, m);
      BpeStep(t, run[0], i);
      ChosenInside(t, run[0], i, m);
      ReplaceIds(t, run[0], i, m);
      RestOfRun(t, run);
      BpeIsReference(t, run[1..]);
    }
  }

  lemma ChosenInside(t: Tokenizer, ids: seq<nat>, i: nat, m: nat)
    requires Loaded(t) && Chosen(t, ids, i, m)
    ensures i < Pairs(ids) && m < t.mergeCount
  {
  }

  lemma RestOfRun(t: Tokenizer, run: seq<seq<nat>>)
    requires Loaded(t) && RefRun(t, run) && |run| > 1
    ensures RefRun(t, run[1..]) && run[1..][0] == run[1]
  {
    hide Final, RefStep, Loaded;
    forall k | 0 <= k < |run[1..]| - 1 ensures RefStep(t, run[1..][k], run[1..][k + 1]) {
      assert RefStep(t, run[k + 1], run[k + 2]);
    }
  }

  /** From every list there is a run, so the reference algorithm always ends. */
  lemma {:induction false} ReferenceEnds(t: Tokenizer, ids: seq<nat>) returns (run: seq<seq<nat>>)
    requires Loaded(t) && Sorted(t) && Ids(ids)
    ensures RefRun(t, run) && run[0] == ids && run[|run| - 1] == Bpe(t, ids)
    decreases |ids|
  {
    hide Pair, MergeAt, Loaded, Sorted, Final, Chosen, LowestLeftmost, Settled;
    BestIsLowest(t, ids);
    match Best(t, ids, Pairs(ids))
    case None =>
      FinalIsSettled(t, ids);
      run := [ids];
    case Some(c) =>
      var m := LowestIsChosen(t, ids, c.at);
      ChosenInside(t, ids, c.at, m);
      ReplaceIds(t, ids, c.at, m);
      var rest := ReferenceEnds(t, Merged(t, ids, c.at));
      run := [ids] + rest;
      assert RefStep(t, run[0], run[1]);
      forall k | 0 <= k < |run| - 1 ensures RefStep(t, run[k], run[k + 1]) {
        if k > 0 {
          assert RefStep(t, rest[k - 1], rest[k]);
        }
      }
  }

  // ---- A pair listed twice -------------------------------------------------------------------------

  /** Tokens 1 and 2 merge twice, at rank 0 and again at rank 2; tokens 2 and 3 merge
      between them. */
  const TWICE_WORDS: seq<nat> := [1, 2, 4, 0, 1, 2, 4, 2, 2, 3, 5, 1]

  const TWICE: Tokenizer := Tokenizer(
    Specials(0, 0, 0, 0, 0, 0), Llama3, 1, seq(1024, _ => 0), seq(8, _ => 0), Words(TWICE_WORDS), 3, [])

  const TWICE_RUN: seq<seq<nat>> := [[1, 2, 3], [4, 3]]

  lemma TwiceEntries()
    ensures Loaded(TWICE)
    ensures MergeAt(TWICE, 0) == Merge(1, 2, 4, 0) && MergeAt(TWICE, 1) == Merge(1, 2, 4, 2) && MergeAt(TWICE, 2) == Merge(2, 3, 5, 1)
  {
    hide Words, U32, U16, LeNum;
    var w := TWICE_WORDS;
    ZeroEntry();
    WordBack(TWICE.merges, 0, w, 0);
    WordBack(TWICE.merges, 0, w, 1);
    WordBack(TWICE.merges, 0, w, 2);
    WordBack(TWICE.merges, 0, w, 3);
    WordBack(TWICE.merges, 0, w, 4);
    WordBack(TWICE.merges, 0, w, 5);
    WordBack(TWICE.merges, 0, w, 6);
    WordBack(TWICE.merges, 0, w, 7);
    WordBack(TWICE.merges, 0, w, 8);
    WordBack(TWICE.merges, 0, w, 9);
    WordBack(TWICE.merges, 0, w, 10);
    WordBack(TWICE.merges, 0, w, 11);
  }

  lemma ZeroEntry()
    ensures EntryOk(TWICE.table, 0, 0)
  {
    var b := TWICE.table;
    assert b[0..4] == [0, 0, 0, 0] && b[4..6] == [0, 0];
    LeZero(4);
    LeZero(2);
    assert [0, 0, 0, 0] == seq(4, _ => 0) && [0, 0] == seq(2, _ => 0);
  }

  lemma {:induction false} LeZero(n: nat)
    ensures LeNum(seq(n, _ => 0)) == 0
    decreases n
  {
    if n > 0 {
      LeZero(n - 1);
      assert seq(n, _ => 0)[1..] == seq(n - 1, _ => 0);
    }
  }

  lemma TwiceFound()
    ensures Loaded(TWICE)
    ensures Found(TWICE, 1, 2) == Some((4, 2)) && Found(TWICE, 2, 3) == Some((5, 1)) && Found(TWICE, 1, 5) == None
  {
    hide Loaded, MergeAt;
    TwiceEntries();
    assert Bisect(TWICE, Key(1, 2), 0, 3) == Some(1);
    assert Bisect(TWICE, Key(2, 3), 2, 3) == Some(2);
    assert Bisect(TWICE, Key(1, 5), 2, 3) == Bisect(TWICE, Key(1, 5), 2, 2);
  }

  lemma TwiceEncoded()
    ensures Loaded(TWICE) && Bpe(TWICE, [1, 2, 3]) == [1, 5]
  {
    hide Loaded, Found;
    TwiceFound();
    var t := TWICE;
    assert Best(t, [1, 2, 3], 0) == None;
    assert Best(t, [1, 2, 3], 1) == Some(Candidate(0, 4, 2));
    assert Best(t, [1, 2, 3], 2) == Some(Candidate(1, 5, 1));
    assert Merged(t, [1, 2, 3], 1) == [1, 5];
    assert Best(t, [1, 5], 0) == None;
    assert Best(t, [1, 5], 1) == None;
  }

  /** So the strict order that `BpeIsReference` requires cannot be weakened to the
      order every built table has: bisection meets the second of the two entries, and
      the encoder merges another pair first. */
  lemma TwiceDiffers()
    ensures Loaded(TWICE) && Ordered(TWICE) && !Sorted(TWICE) && Ids(TWICE_RUN[0]) && RefRun(TWICE, TWICE_RUN)
    ensures Bpe(TWICE, TWICE_RUN[0]) != TWICE_RUN[|TWICE_RUN| - 1]
  {
    hide Loaded, Bpe, MergeAt;
    var run := TWICE_RUN;
    TwiceEntries();
    TwiceEncoded();
    var t := TWICE;
    assert KeyAt(t, 0) == KeyAt(t, 1) < KeyAt(t, 2);
    assert Chosen(t, run[0], 0, 0);
    assert Replace(run[0], 0, 4) == [4, 3];
    assert RefStep(t, run[0], run[1]);
    assert [1, 5][0] != [4, 3][0];
  }

  function ByteTokens(t: Tokenizer, chunk: Bytes): (ids: seq<nat>)
    requires Loaded(t)
    ensures |ids| == |chunk|
  {
    seq(|chunk|, i requires 0 <= i < |chunk| => ByteToken(t, chunk[i]))
  }

  /** A growing list of token ids. */
  class Output {
    var ids: seq<nat>

    constructor ()
      ensures ids == []
    {
      ids := [];
    }

    method Push(id: nat)
      modifies this
      ensures ids == old(ids) + [id]
    {
      ids := ids + [id];
    }
  }

  method FindBest(t: Tokenizer, ids: seq<nat>) returns (best: Option<Candidate>)
    requires Loaded(t)
    ensures best == Best(t, ids, Pairs(ids))
  {
    hide Loaded, Found;
    best := None;
    var i := 0;
    while i < Pairs(ids)
      invariant 0 <= i <= Pairs(ids) && best == Best(t, ids, i)
    {
      var m := FindMerge(t, ids[i], ids[i + 1]);
      if m.Some? && (best.None? || m.value.1 < best.value.rank) {
        best := Some(Candidate(i, m.value.0, m.value.1));
      }
      i := i + 1;
    }
  }

  /** Encode one chunk. The list shrinks at every merge, so the loop ends. */
  method EncodeChunk(t: Tokenizer, chunk: Bytes, out: Output)
    requires Loaded(t)
    modifies out
    ensures out.ids == old(out.ids) + Bpe(t, ByteTokens(t, chunk))
  {
    hide Loaded, Pair, ByteToken;
    var ids := ByteTokens(t, chunk);
    var done := false;
    while !done
      invariant Bpe(t, ids) == Bpe(t, ByteTokens(t, chunk))
      invariant done ==> Bpe(t, ids) == ids
      invariant out.ids == old(out.ids)
      decreases !done, |ids|
    {
      var best := FindBest(t, ids);
      BestIsLowest(t, ids);
      match best {
        case Some(c) =>
          ghost var before := ids;
          ids := ids[c.at := c.result];
          ids := ids[..c.at + 1] + ids[c.at + 2..];
          assert ids == Merged(t, before, c.at);
        case None =>
          done := true;
      }
    }
    out.ids := out.ids + ids;
  }

  // ---- Text ------------------------------------------------------------------------------------

  function StyleOf(m: Template): Pretok.Style {
    if m.ChatMl? then Pretok.Qwen2 else Pretok.Llama3
  }

  ghost function EncodeChunks(t: Tokenizer, cs: seq<Text>): seq<nat>
    requires Loaded(t)
  {
    if cs == [] then [] else EncodeChunks(t, cs[..|cs| - 1]) + Bpe(t, ByteTokens(t, Encode(cs[|cs| - 1])))
  }

  ghost function EncodedText(t: Tokenizer, k: Pretok.Classes, text: Text): seq<nat>
    requires Loaded(t) && Pretok.Facts(k)
  {
    EncodeChunks(t, Pretok.Split(k, StyleOf(t.template), text))
  }

  method EncodeText(t: Tokenizer, k: Pretok.Classes, text: Text, out: Output)
    requires Loaded(t) && Pretok.Facts(k)
    modifies out
    ensures out.ids == old(out.ids) + EncodedText(t, k, text)
  {
    hide Loaded, Bpe, Encode, Pretok.Split, Pretok.Facts;
    var style := match t.template case Llama3 => Pretok.Llama3 case ChatMl => Pretok.Qwen2 case Granite => Pretok.Llama3;
    var cs := Pretok.Collect(k, text, style);
    var i := 0;
    while i < |cs|
      invariant 0 <= i <= |cs| && out.ids == old(out.ids) + EncodeChunks(t, cs[..i])
    {
      EncodeChunk(t, Encode(cs[i]), out);
      assert cs[..i + 1][..i] == cs[..i];
      i := i + 1;
    }
    assert cs[..i] == cs;
  }

  /** Which template splits in which way, on texts of number characters: one by one
      under ChatMl, in groups of three under the others. */
  lemma NumbersEncoded(t: Tokenizer, k: Pretok.Classes, text: Text)
    requires Loaded(t) && Pretok.Facts(k) && Pretok.NumberChars(k, text)
    ensures t.template == ChatMl ==> EncodedText(t, k, text) == EncodeChunks(t, Pretok.Groups(text, 1))
    ensures t.template == Llama3 || t.template == Granite ==> EncodedText(t, k, text) == EncodeChunks(t, Pretok.Groups(text, 3))
  {
    hide Loaded, EncodeChunks, Pretok.Split, Pretok.Groups, Pretok.Facts;
    Pretok.NumbersSplit(k, StyleOf(t.template), text);
  }

  /** Groups of one are the characters. */
  lemma {:induction false} SingleGroups(s: Text)
    ensures |Pretok.Groups(s, 1)| == |s| && forall i | 0 <= i < |s| :: Pretok.Groups(s, 1)[i] == [s[i]]
    decreases |s|
  {
    if |s| > 1 {
      SingleGroups(s[1..]);
    }
  }

  /** Every group of three but the last is full. */
  lemma {:induction false} TripleGroups(s: Text, i: nat)
    requires 3 * i < |s|
    ensures i < |Pretok.Groups(s, 3)| && Pretok.Groups(s, 3)[i] == s[3 * i..if 3 * i + 3 <= |s| then 3 * i + 3 else |s|]
    decreases |s|
  {
    if |s| > 3 && i > 0 {
      TripleGroups(s[3..], i - 1);
      assert Pretok.Groups(s, 3)[i] == Pretok.Groups(s[3..], 3)[i - 1];
      SliceLater(s, 3 * (i - 1), if 3 * i + 3 <= |s| then 3 * i else |s| - 3);
    }
  }

  lemma SliceLater(s: Text, a: nat, b: nat)
    requires a <= b <= |s| - 3
    ensures s[3..][a..b] == s[a + 3..b + 3]
  {
  }

  // ---- Round trip --------------------------------------------------------------------------------

  /** What a built blob satisfies (see `Build.BuiltIsFaithful`): byte tokens and
      merge results are ordinary tokens, each byte token is its byte, and each
      merge concatenates. */
  ghost predicate Faithful(t: Tokenizer) {
    && Loaded(t)
    && (forall b: Byte :: !IsControl(t, ByteToken(t, b)) && TokenBytes(t, ByteToken(t, b)) == [b])
    && forall i | 0 <= i < t.mergeCount :: FaithfulMerge(t, i)
  }

  ghost predicate FaithfulMerge(t: Tokenizer, i: nat)
    requires Loaded(t) && i < t.mergeCount
  {
    var m := MergeAt(t, i);
    !IsControl(t, m.result) && TokenBytes(t, m.result) == TokenBytes(t, m.left) + TokenBytes(t, m.right)
  }

  /** The bytes a list of tokens stands for. */
  function BytesOf(t: Tokenizer, ids: seq<nat>): Bytes
    requires Loaded(t)
  {
    if ids == [] then [] else TokenBytes(t, ids[0]) + BytesOf(t, ids[1..])
  }

  ghost predicate Plain(t: Tokenizer, ids: seq<nat>)
    requires Loaded(t)
  {
    forall i | 0 <= i < |ids| :: !IsControl(t, ids[i])
  }

  lemma {:induction false} BytesAppend(t: Tokenizer, a: seq<nat>, b: seq<nat>)
    requires Loaded(t)
    ensures BytesOf(t, a + b) == BytesOf(t, a) + BytesOf(t, b)
    decreases |a|
  {
    hide Loaded, TokenBytes;
    if a == [] {
      assert a + b == b;
    } else {
      assert (a + b)[1..] == a[1..] + b;
      BytesAppend(t, a[1..], b);
    }
  }

  lemma BytesSingle(t: Tokenizer, id: nat)
    requires Loaded(t)
    ensures BytesOf(t, [id]) == TokenBytes(t, id)
  {
    hide Loaded, TokenBytes;
    assert [id][1..] == [];
  }

  /** A merge keeps the bytes and introduces no control token. */
  lemma PairFaithful(t: Tokenizer, ids: seq<nat>, i: nat)
    requires Faithful(t) && i < Pairs(ids) && Pair(t, ids, i).Some?
    ensures var r := Pair(t, ids, i).value.0;
      !IsControl(t, r) && ((ids[i] < WORD && ids[i + 1] < WORD) ==> TokenBytes(t, r) == TokenBytes(t, ids[i]) + TokenBytes(t, ids[i + 1]))
  {
    hide TokenBytes, IsControl;
    var k := Bisect(t, Key(ids[i], ids[i + 1]), 0, t.mergeCount).value;
    assert FaithfulMerge(t, k);
    if ids[i] < WORD && ids[i + 1] < WORD {
      KeyInjective(MergeAt(t, k).left, MergeAt(t, k).right, ids[i], ids[i + 1]);
    }
  }

  lemma PairFits(t: Tokenizer, ids: seq<nat>, i: nat)
    requires Loaded(t) && i < Pairs(ids) && Pair(t, ids, i).Some?
    ensures Pair(t, ids, i).value.0 < WORD
  {
  }

  lemma {:induction false} BpeKeepsBytes(t: Tokenizer, ids: seq<nat>)
    requires Faithful(t) && Ids(ids) && Plain(t, ids)
    ensures BytesOf(t, Bpe(t, ids)) == BytesOf(t, ids) && Plain(t, Bpe(t, ids))
    decreases |ids|
  {
    hide Pair, Loaded, TokenBytes, IsControl, FaithfulMerge;
    BestIsLowest(t, ids);
    match Best(t, ids, Pairs(ids))
    case None =>
    case Some(c) =>
      var i := c.at;
      PairFaithful(t, ids, i);
      PairFits(t, ids, i);
      var next := Merged(t, ids, i);
      BpeKeepsBytes(t, next);
      assert ids == ids[..i] + [ids[i]] + [ids[i + 1]] + ids[i + 2..];
      BytesAppend(t, ids[..i] + [ids[i]] + [ids[i + 1]], ids[i + 2..]);
      BytesAppend(t, ids[..i] + [ids[i]], [ids[i + 1]]);
      BytesAppend(t, ids[..i], [ids[i]]);
      BytesAppend(t, ids[..i] + [c.result], ids[i + 2..]);
      BytesAppend(t, ids[..i], [c.result]);
      BytesSingle(t, ids[i]);
      BytesSingle(t, ids[i + 1]);
      BytesSingle(t, c.result);
  }

  lemma {:induction false} ByteTokensBytes(t: Tokenizer, chunk: Bytes)
    requires Faithful(t)
    ensures BytesOf(t, ByteTokens(t, chunk)) == chunk && Plain(t, ByteTokens(t, chunk)) && Ids(ByteTokens(t, chunk))
    decreases |chunk|
  {
    hide TokenBytes, IsControl, FaithfulMerge, Loaded;
    ByteIds(t);
    if chunk != [] {
      ByteTokensBytes(t, chunk[1..]);
      assert ByteTokens(t, chunk)[1..] == ByteTokens(t, chunk[1..]);
    }
  }

  lemma ByteIds(t: Tokenizer)
    requires Loaded(t)
    ensures forall b: Byte :: ByteToken(t, b) < WORD
  {
  }

  lemma {:induction false} ChunksKeepBytes(t: Tokenizer, cs: seq<Text>)
    requires Faithful(t)
    ensures BytesOf(t, EncodeChunks(t, cs)) == Encode(Pretok.Join(cs)) && Plain(t, EncodeChunks(t, cs))
    decreases |cs|
  {
    hide TokenBytes, IsControl, Faithful, Loaded, Bpe, ByteTokens;
    FaithfulLoaded(t);
    if cs != [] {
      var n := |cs| - 1;
      var ids := ByteTokens(t, Encode(cs[n]));
      ChunksKeepBytes(t, cs[..n]);
      ByteTokensBytes(t, Encode(cs[n]));
      BpeKeepsBytes(t, ids);
      BytesAppend(t, EncodeChunks(t, cs[..n]), Bpe(t, ids));
      JoinLast(cs);
      EncodeAppend(Pretok.Join(cs[..n]), cs[n]);
    }
  }

  lemma FaithfulLoaded(t: Tokenizer)
    requires Faithful(t)
    ensures Loaded(t)
  {
  }

  lemma {:induction false} JoinLast(cs: seq<Text>)
    requires cs != []
    ensures Pretok.Join(cs) == Pretok.Join(cs[..|cs| - 1]) + cs[|cs| - 1]
    decreases |cs|
  {
    if |cs| == 1 {
      assert cs[1..] == [] && cs[..0] == [];
    } else {
      var rest, front := cs[1..], cs[..|cs| - 1];
      JoinLast(rest);
      assert rest[..|rest| - 1] == front[1..] && rest[|rest| - 1] == cs[|cs| - 1] && front[0] == cs[0];
      assert Pretok.Join(front) == cs[0] + Pretok.Join(front[1..]);
      assert cs[0] + (Pretok.Join(front[1..]) + cs[|cs| - 1]) == (cs[0] + Pretok.Join(front[1..])) + cs[|cs| - 1];
    }
  }

  /** Every text comes back byte for byte from its tokens, and none of them is a
      control token. */
  lemma TextRoundTrip(t: Tokenizer, k: Pretok.Classes, text: Text)
    requires Faithful(t) && Pretok.Facts(k)
    ensures BytesOf(t, EncodedText(t, k, text)) == Encode(text)
    ensures Plain(t, EncodedText(t, k, text))
  {
    hide TokenBytes, IsControl, Bpe, ByteTokens;
    var cs := Pretok.Split(k, StyleOf(t.template), text);
    Pretok.SplitJoins(k, StyleOf(t.template), text);
    ChunksKeepBytes(t, cs);
  }
}
