/** The bounded NRMP reassembler: one message in flight, fragments in any order,
    a bitmask of the pieces seen. */
module Reassembly {
  import opened Wire
  import opened Masks
  import opened Nrmp
  import opened Wrappers

  /** The reassembler's fields as a value. `received` is a 64-bit mask. */
  datatype State = State(
    active: bool, kind: nat, id: nat, count: nat, totalLen: nat, checksum: nat, received: nat, buffer: Bytes)

  type Reply = Result<Option<Complete>, Error>

  predicate Same(s: State, f: Fragment) {
    && s.active && s.kind == f.kind && s.id == f.id && s.count == f.count && s.totalLen == f.totalLen && s.checksum == f.checksum
  }

  /** Keep the message in flight, or drop it for the fragment's own. */
  function Select(s: State, f: Fragment): State {
    if Same(s, f) then s else State(true, f.kind, f.id, f.count, f.totalLen, f.checksum, 0, s.buffer)
  }

  /** All-ones for 64 pieces, since `1 << 64` does not fit the word. */
  function CompleteMask(count: nat): nat {
    if count == 64 then 0xffff_ffff_ffff_ffff else Pow2(count) - 1
  }

  function Accept(s: State, f: Fragment): (State, Reply)
    requires ValidFragment(f) && f.totalLen <= |s.buffer|
  {
    var t := Select(s, f);
    var u := t.(buffer := Splice(t.buffer, f.index * PIECE, f.payload), received := SetBit(t.received, f.index));
    if u.received != CompleteMask(u.count) then (u, Ok(None))
    else
      var done := u.(active := false);
      if Crc32(u.buffer[..u.totalLen]) != u.checksum then (done, Err(ChecksumMismatch))
      else (done, Ok(Some(Complete(u.kind, u.id, u.buffer[..u.totalLen]))))
  }

  function PushSpec(s: State, d: Bytes): (State, Reply) {
    match Parse(d)
    case Err(e) => (s, Err(e))
    case Ok(f) =>
      if f.totalLen > |s.buffer| then (s, Err(MessageTooLarge))
      else ParseExact(d); Accept(s, f)
  }

  // ---- The object -----------------------------------------------------------------------

  class Reassembler {
    const buffer: array<Byte>
    var active: bool
    var kind: nat
    var id: nat
    var count: nat
    var totalLen: nat
    var checksum: nat
    var received: nat

    constructor (max: nat)
      ensures View() == State(false, 1, 0, 0, 0, 0, 0, seq(max, _ => 0)) && fresh(buffer)
    {
      buffer := new Byte[max](_ => 0);
      active, kind, id, count, totalLen, checksum, received := false, 1, 0, 0, 0, 0, 0;
      new;
      assert buffer[..] == seq(max, _ => 0);
    }

    function View(): State
      reads this, buffer
    {
      State(active, kind, id, count, totalLen, checksum, received, buffer[..])
    }

    /** Handle one datagram. Every store and the mask shift are in range. */
    method Push(d: Bytes) returns (r: Reply)
      requires 0 <= received < Pow2(64)
      modifies this, buffer
      ensures (View(), r) == PushSpec(old(View()), d)
      ensures received < Pow2(64)
    {
      hide Crc32, Pow2, Parse, FragmentBytes, SetBit, Pieces, PieceLen;
      var p := Parse(d);
      if p.Err? {
        return Err(p.error);
      }
      var f := p.value;
      ParseExact(d);
      if f.totalLen > buffer.Length {
        return Err(MessageTooLarge);
      }
      var same := active && kind == f.kind && id == f.id && count == f.count && totalLen == f.totalLen && checksum == f.checksum;
      if !same {
        active := true;
        kind := f.kind;
        id := f.id;
        count := f.count;
        totalLen := f.totalLen;
        checksum := f.checksum;
        received := 0;
        ZeroFits();
      }
      Put(buffer, f.index * PIECE, f.payload);
      SetBitBound(received, f.index, 64);
      received := SetBit(received, f.index);
      var mask := CompleteMask(count);
      if received != mask {
        return Ok(None);
      }
      active := false;
      if Crc32(buffer[..totalLen]) != checksum {
        return Err(ChecksumMismatch);
      }
      r := Ok(Some(Complete(kind, id, buffer[..totalLen])));
    }
  }

  lemma ZeroFits()
    ensures 0 < Pow2(64)
  {
  }

  // ---- Masks and pieces --------------------------------------------------------------------

  ghost predicate AllBits(n: nat, count: nat) {
    forall j: nat | j < count :: BitAt(n, j)
  }

  /** The mask is complete exactly when every piece, and nothing else, is in. */
  lemma MaskComplete(received: nat, count: nat)
    requires count <= 64 && forall j: nat :: BitAt(received, j) ==> j < count
    ensures received == CompleteMask(count) <==> AllBits(received, count)
  {
    hide BitAt, Pow2;
    WordWidth();
    var mask := CompleteMask(count);
    assert mask == Pow2(count) - 1;
    forall j: nat ensures BitAt(mask, j) <==> j < count {
      LowBits(count, j);
    }
    if AllBits(received, count) {
      forall j: nat ensures BitAt(received, j) <==> BitAt(mask, j) {
      }
      BitsDetermine(received, mask);
    }
  }

  /** Piece `j` of `body` is in the buffer. */
  ghost predicate Has(b: Bytes, body: Bytes, j: nat)
    requires |body| > 0 && |body| <= |b| && j < Pieces(|body|)
  {
    b[j * PIECE..j * PIECE + PieceLen(|body|, j)] == Piece(body, j)
  }

  lemma SpliceHas(b: Bytes, body: Bytes, i: nat, j: nat)
    requires 0 < |body| <= |b| && i < Pieces(|body|) && j < Pieces(|body|) && (i == j || Has(b, body, j))
    ensures Has(Splice(b, i * PIECE, Piece(body, i)), body, j)
  {
    var r := Splice(b, i * PIECE, Piece(body, i));
    var at, n := j * PIECE, PieceLen(|body|, j);
    forall k | 0 <= k < n ensures r[at + k] == Piece(body, j)[k] {
      if i != j {
        assert b[at..at + n][k] == Piece(body, j)[k];
      }
    }
  }

  /** Nothing past the message is written. */
  lemma SpliceTail(b: Bytes, body: Bytes, i: nat)
    requires 0 < |body| <= |b| && i < Pieces(|body|)
    ensures Splice(b, i * PIECE, Piece(body, i))[|body|..] == b[|body|..]
  {
  }

  lemma AllPieces(b: Bytes, body: Bytes)
    requires 0 < |body| <= |b| && forall j | 0 <= j < Pieces(|body|) :: Has(b, body, j)
    ensures b[..|body|] == body
  {
    forall k | 0 <= k < |body| ensures b[k] == body[k] {
      var j := k / PIECE;
      PieceOf(body, k);
      assert Has(b, body, j);
      var n := PieceLen(|body|, j);
      assert b[j * PIECE..j * PIECE + n][k - j * PIECE] == Piece(body, j)[k - j * PIECE];
    }
  }

  // ---- A message in progress -----------------------------------------------------------------

  /** The state holds part of `body`, announced with checksum `sum`: the pieces in
      `seen` are in the buffer and marked, and no other is marked. */
  ghost predicate Holds(s: State, kind: nat, id: nat, body: Bytes, sum: nat, seen: set<nat>) {
    && 0 < |body| <= |s.buffer| && Pieces(|body|) <= MAX_COUNT
    && s.active && s.kind == kind && s.id == id && s.count == Pieces(|body|) && s.totalLen == |body| && s.checksum == sum
    && (forall j | j in seen :: 0 <= j < Pieces(|body|) && Has(s.buffer, body, j))
    && (forall j: nat :: BitAt(s.received, j) <==> j in seen)
  }

  ghost predicate Message(kind: nat, id: nat, body: Bytes, sum: nat) {
    1 <= kind <= 5 && id < WORD && sum < WORD && |body| > 0 && Pieces(|body|) <= MAX_COUNT
  }

  /** Every piece is in. */
  ghost predicate Full(seen: set<nat>, n: nat) {
    forall j: nat | j < n :: j in seen
  }

  /** What the last missing piece brings. */
  function Finished(kind: nat, id: nat, body: Bytes, sum: nat): Reply {
    if Crc32(body) != sum then Err(ChecksumMismatch) else Ok(Some(Complete(kind, id, body)))
  }

  lemma SmallWord(body: Bytes)
    requires |body| > 0 && Pieces(|body|) <= MAX_COUNT
    ensures |body| < WORD
  {
  }

  lemma ForIsValid(kind: nat, id: nat, body: Bytes, sum: nat, i: nat)
    requires Message(kind, id, body, sum) && i < Pieces(|body|)
    ensures ValidFragment(FragmentFor(kind, id, body, sum, i))
    ensures Parse(FragmentBytes(FragmentFor(kind, id, body, sum, i))) == Ok(FragmentFor(kind, id, body, sum, i))
  {
    SmallWord(body);
    ParseEncoded(FragmentFor(kind, id, body, sum, i));
  }

  /** One more fragment of the message in flight, or the first of a new one. */
  lemma PushPiece(s: State, kind: nat, id: nat, body: Bytes, sum: nat, i: nat, seen: set<nat>)
    requires Message(kind, id, body, sum) && i < Pieces(|body|) && |body| <= |s.buffer|
    requires Holds(s, kind, id, body, sum, seen) || (seen == {} && !Same(s, FragmentFor(kind, id, body, sum, i)))
    ensures var (t, r) := PushSpec(s, FragmentBytes(FragmentFor(kind, id, body, sum, i)));
      && |t.buffer| == |s.buffer| && t.buffer[|body|..] == s.buffer[|body|..]
      && if Full(seen + {i}, Pieces(|body|)) then !t.active && r == Finished(kind, id, body, sum)
         else Holds(t, kind, id, body, sum, seen + {i}) && r == Ok(None)
  {
    hide FragmentBytes, Parse, SetBit, BitAt, Has, Piece, Crc32, Splice, CompleteMask, Pieces, Pow2;
    var f := FragmentFor(kind, id, body, sum, i);
    ForIsValid(kind, id, body, sum, i);
    var t := Select(s, f);
    if t != s {
      forall j: nat ensures !BitAt(t.received, j) {
        NoBits(j);
      }
    }
    var b := Splice(t.buffer, f.index * PIECE, f.payload);
    var received := SetBit(t.received, f.index);
    forall j: nat ensures BitAt(received, j) <==> j in seen + {i} {
      SetBitAt(t.received, i, j);
    }
    forall j | j in seen + {i} ensures Has(b, body, j) {
      SpliceHas(t.buffer, body, i, j);
    }
    SpliceTail(t.buffer, body, i);
    MaskComplete(received, Pieces(|body|));
    assert AllBits(received, Pieces(|body|)) <==> Full(seen + {i}, Pieces(|body|));
    if received == CompleteMask(Pieces(|body|)) {
      AllPieces(b, body);
    }
  }

  // ---- Uninterrupted delivery ------------------------------------------------------------------

  /** The replies to a list of datagrams, and the final state. */
  function Run(s: State, ds: seq<Bytes>): (State, seq<Reply>) {
    if ds == [] then (s, [])
    else
      var n := |ds| - 1;
      var (t, rs) := Run(s, ds[..n]);
      var (u, r) := PushSpec(t, ds[n]);
      (u, rs + [r])
  }

  function Datagrams(kind: nat, id: nat, body: Bytes, sum: nat, order: seq<nat>): (ds: seq<Bytes>)
    requires Message(kind, id, body, sum) && forall k | 0 <= k < |order| :: order[k] < Pieces(|body|)
    ensures |ds| == |order|
  {
    seq(|order|, k requires 0 <= k < |order| => FragmentBytes(FragmentFor(kind, id, body, sum, order[k])))
  }

  function Elements(order: seq<nat>): set<nat> {
    set j | j in order
  }

  /** The reassembler is idle, or busy with something else. */
  ghost predicate Free(s: State, kind: nat, id: nat, body: Bytes, sum: nat) {
    !(s.active && s.kind == kind && s.id == id && s.count == Pieces(|body|) && s.totalLen == |body| && s.checksum == sum)
  }

  /** While a piece is missing, every reply is `None`, in whatever order and with
      whatever repeats the pieces arrive. */
  lemma {:induction false} Incomplete(s: State, kind: nat, id: nat, body: Bytes, sum: nat, order: seq<nat>)
    requires Message(kind, id, body, sum) && |body| <= |s.buffer| && Free(s, kind, id, body, sum)
    requires forall k | 0 <= k < |order| :: order[k] < Pieces(|body|)
    requires !Full(Elements(order), Pieces(|body|))
    ensures var (t, rs) := Run(s, Datagrams(kind, id, body, sum, order));
      && |rs| == |order| && (forall k | 0 <= k < |order| :: rs[k] == Ok(None)) && |t.buffer| == |s.buffer|
      && if order == [] then t == s else Holds(t, kind, id, body, sum, Elements(order))
    decreases |order|
  {
    hide FragmentBytes, PushSpec, Holds, Pieces;
    if order != [] {
      var n := |order| - 1;
      var pre := order[..n];
      assert Elements(order) == Elements(pre) + {order[n]};
      var missing: nat :| missing < Pieces(|body|) && missing !in Elements(order);
      assert missing !in Elements(pre);
      Incomplete(s, kind, id, body, sum, pre);
      assert Datagrams(kind, id, body, sum, order)[..n] == Datagrams(kind, id, body, sum, pre);
      var t := Run(s, Datagrams(kind, id, body, sum, pre)).0;
      PushPiece(t, kind, id, body, sum, order[n], Elements(pre));
    }
  }

  /** Delivering the pieces of one message, in any order and with repeats, gives
      `None` until the last missing one and then the message, exactly when the
      bytes match the announced checksum. */
  lemma Completes(s: State, kind: nat, id: nat, body: Bytes, sum: nat, order: seq<nat>, last: nat)
    requires Message(kind, id, body, sum) && |body| <= |s.buffer| && Free(s, kind, id, body, sum)
    requires (forall k | 0 <= k < |order| :: order[k] < Pieces(|body|)) && last < Pieces(|body|)
    requires last !in order && Full(Elements(order + [last]), Pieces(|body|))
    ensures var (t, rs) := Run(s, Datagrams(kind, id, body, sum, order + [last]));
      && |rs| == |order| + 1 && (forall k | 0 <= k < |order| :: rs[k] == Ok(None))
      && rs[|order|] == Finished(kind, id, body, sum) && !t.active
  {
    hide FragmentBytes, PushSpec, Holds, Pieces, Finished;
    assert last !in Elements(order);
    Incomplete(s, kind, id, body, sum, order);
    var t := Run(s, Datagrams(kind, id, body, sum, order)).0;
    assert Datagrams(kind, id, body, sum, order + [last])[..|order|] == Datagrams(kind, id, body, sum, order);
    assert Elements(order + [last]) == Elements(order) + {last};
    PushPiece(t, kind, id, body, sum, last, Elements(order));
  }

  lemma WithChecksum(kind: nat, id: nat, msg: Bytes)
    ensures Finished(kind, id, msg, Crc32(msg)) == Ok(Some(Complete(kind, id, msg)))
  {
  }

  /** Damage confined to four consecutive bytes of a message never gets through:
      the last piece reports a mismatch. */
  lemma DamageCaught(s: State, kind: nat, id: nat, p: Bytes, x: Bytes, y: Bytes, q: Bytes, order: seq<nat>, last: nat)
    requires |x| == |y| <= 4 && x != y
    requires var body, sum := p + y + q, Crc32(p + x + q);
      && Message(kind, id, body, sum) && |body| <= |s.buffer| && Free(s, kind, id, body, sum)
      && (forall k | 0 <= k < |order| :: order[k] < Pieces(|body|)) && last < Pieces(|body|)
      && last !in order && Full(Elements(order + [last]), Pieces(|body|))
    ensures var rs := Run(s, Datagrams(kind, id, p + y + q, Crc32(p + x + q), order + [last])).1;
      |rs| > 0 && rs[|rs| - 1] == Err(ChecksumMismatch)
  {
    Completes(s, kind, id, p + y + q, Crc32(p + x + q), order, last);
    Burst(p, x, y, q);
  }

  // ---- Any mix of honest fragments -----------------------------------------------------------------

  /** The messages sent, one payload for each kind and number. */
  type Sent = map<(nat, nat), Bytes>

  ghost predicate ValidSent(sent: Sent) {
    forall key | key in sent :: Message(key.0, key.1, sent[key], Crc32(sent[key]))
  }

  /** The datagram is some fragment of some message sent. */
  ghost predicate Honest(sent: Sent, d: Bytes) {
    exists key, i: nat :: HonestPiece(sent, d, key, i)
  }

  ghost predicate HonestPiece(sent: Sent, d: Bytes, key: (nat, nat), i: nat) {
    && key in sent && Message(key.0, key.1, sent[key], Crc32(sent[key])) && i < Pieces(|sent[key]|)
    && d == FragmentBytes(FragmentFor(key.0, key.1, sent[key], Crc32(sent[key]), i))
  }

  /** Whatever is in flight is part of a message sent. */
  ghost predicate Inv(sent: Sent, s: State) {
    s.active ==>
      (s.kind, s.id) in sent
      && exists seen :: Holds(s, s.kind, s.id, sent[(s.kind, s.id)], Crc32(sent[(s.kind, s.id)]), seen)
  }

  /** Acceptable replies: nothing yet, a message sent, or a message too big to hold. */
  ghost predicate Faithful(sent: Sent, max: nat, r: Reply) {
    match r
    case Ok(None) => true
    case Ok(Some(c)) => (c.kind, c.id) in sent && c.payload == sent[(c.kind, c.id)]
    case Err(e) => e == MessageTooLarge && exists key :: key in sent && |sent[key]| > max
  }

  lemma StepSafe(sent: Sent, s: State, d: Bytes)
    requires ValidSent(sent) && Inv(sent, s) && Honest(sent, d)
    ensures var (t, r) := PushSpec(s, d);
      Inv(sent, t) && |t.buffer| == |s.buffer| && Faithful(sent, |s.buffer|, r)
  {
    hide FragmentBytes, PushSpec, Holds, Pieces, Crc32;
    var key, i: nat :| HonestPiece(sent, d, key, i);
    var body, sum := sent[key], Crc32(sent[key]);
    if |body| > |s.buffer| {
      TooLarge(s, key.0, key.1, body, sum, i);
    } else {
      var seen := SeenBefore(sent, s, key, i);
      PushPiece(s, key.0, key.1, body, sum, i, seen);
      var t := PushSpec(s, d).0;
      if t.active {
        HoldsKey(t, key.0, key.1, body, sum, seen + {i});
      }
      WithChecksum(key.0, key.1, body);
    }
  }

  lemma HoldsKey(s: State, kind: nat, id: nat, body: Bytes, sum: nat, seen: set<nat>)
    requires Holds(s, kind, id, body, sum, seen)
    ensures s.active && s.kind == kind && s.id == id
  {
  }

  lemma TooLarge(s: State, kind: nat, id: nat, body: Bytes, sum: nat, i: nat)
    requires Message(kind, id, body, sum) && i < Pieces(|body|) && |body| > |s.buffer|
    ensures PushSpec(s, FragmentBytes(FragmentFor(kind, id, body, sum, i))) == (s, Err(MessageTooLarge))
  {
    hide FragmentBytes, Parse;
    ForIsValid(kind, id, body, sum, i);
  }

  /** The pieces of this message already in: some if it is the one in flight,
      none otherwise. */
  lemma SeenBefore(sent: Sent, s: State, key: (nat, nat), i: nat) returns (seen: set<nat>)
    requires ValidSent(sent) && Inv(sent, s) && key in sent && |sent[key]| > 0 && i < Pieces(|sent[key]|)
    ensures var body, sum := sent[key], Crc32(sent[key]);
      Holds(s, key.0, key.1, body, sum, seen) || (seen == {} && !Same(s, FragmentFor(key.0, key.1, body, sum, i)))
  {
    hide Holds, Crc32, Pieces;
    var body, sum := sent[key], Crc32(sent[key]);
    if Same(s, FragmentFor(key.0, key.1, body, sum, i)) {
      assert (s.kind, s.id) == key;
      var found :| Holds(s, s.kind, s.id, sent[(s.kind, s.id)], Crc32(sent[(s.kind, s.id)]), found);
      seen := found;
    } else {
      seen := {};
    }
  }

  /** Over any run of honest fragments, with loss, reordering, repeats and
      interleaving, every completed message is one that was sent, and nothing is
      reported damaged or malformed. */
  lemma {:induction false} RunSafe(sent: Sent, s: State, ds: seq<Bytes>)
    requires ValidSent(sent) && Inv(sent, s) && forall k | 0 <= k < |ds| :: Honest(sent, ds[k])
    ensures var (t, rs) := Run(s, ds);
      && Inv(sent, t) && |t.buffer| == |s.buffer| && |rs| == |ds|
      && forall k | 0 <= k < |ds| :: Faithful(sent, |s.buffer|, rs[k])
    decreases |ds|
  {
    hide PushSpec, Inv, Honest, Faithful;
    if ds != [] {
      var n := |ds| - 1;
      RunSafe(sent, s, ds[..n]);
      StepSafe(sent, Run(s, ds[..n]).0, ds[n]);
    }
  }

  /** A new reassembler satisfies the invariant. */
  lemma InitialSafe(sent: Sent, s: State)
    requires !s.active
    ensures Inv(sent, s)
  {
  }
}
