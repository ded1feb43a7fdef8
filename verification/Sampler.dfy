/** Token sampling: the fixed-size heap that keeps the 64 largest logits, the
    nucleus cut and the draw, over exact reals. */
module Sampler {
  import opened Wrappers

  const TOP_K: nat := 64

  /** A heap key: minus infinity marks an empty place. */
  datatype Key = NegInf | Fin(v: real)
  datatype Item = Item(key: Key, id: nat)

  const EMPTY: Item := Item(NegInf, 0)

  predicate Less(a: Key, b: Key) {
    match a
    case NegInf => b.Fin?
    case Fin(x) => b.Fin? && x < b.v
  }

  // ---- The heap -----------------------------------------------------------------------

  function Parent(n: nat): nat
    requires n > 0
  {
    (n - 1) / 2
  }

  /** No child is below its parent, except possibly the children of `hole`. */
  ghost predicate HeapBut(h: seq<Item>, hole: nat) {
    forall n | 0 < n < |h| && Parent(n) != hole :: !Less(h[n].key, h[Parent(n)].key)
  }

  ghost predicate MinHeap(h: seq<Item>) {
    forall n | 0 < n < |h| :: !Less(h[n].key, h[Parent(n)].key)
  }

  /** The hole's children are not below the hole's parent. */
  ghost predicate Bridged(h: seq<Item>, hole: nat) {
    hole > 0 ==> forall n | 0 < n < |h| && Parent(n) == hole && hole < |h| :: !Less(h[n].key, h[Parent(hole)].key)
  }

  /** The root is a least element. */
  lemma {:induction false} RootLeast(h: seq<Item>, n: nat)
    requires MinHeap(h) && n < |h|
    ensures !Less(h[n].key, h[0].key)
    decreases n
  {
    if n > 0 {
      RootLeast(h, Parent(n));
    }
  }

  lemma SwapKeeps(h: seq<Item>, i: nat, j: nat)
    requires i < |h| && j < |h|
    ensures multiset(h[i := h[j]][j := h[i]]) == multiset(h)
  {
  }

  /** The smaller child moves up and the hole moves down. */
  lemma SwapDown(h: seq<Item>, n: nat, small: nat)
    requires 0 < small < |h| && n == Parent(small) && HeapBut(h, n) && Bridged(h, n) && Less(h[small].key, h[n].key)
    requires forall c | 0 < c < |h| && Parent(c) == n :: !Less(h[c].key, h[small].key)
    ensures var t := h[n := h[small]][small := h[n]];
      HeapBut(t, small) && Bridged(t, small)
  {
    var t := h[n := h[small]][small := h[n]];
    forall k | 0 < k < |t| && Parent(k) != small ensures !Less(t[k].key, t[Parent(k)].key) {
      if k == n {
        assert !Less(h[small].key, h[Parent(n)].key);
      }
    }
  }

  /** The least of a place and its children, earlier ones first on ties. */
  function Smallest(h: seq<Item>, n: nat): (small: nat)
    requires |h| == TOP_K && n < TOP_K
    ensures small < TOP_K && (small == n || small == 2 * n + 1 || small == 2 * n + 2)
  {
    var l, r := 2 * n + 1, 2 * n + 2;
    var s := if l < TOP_K && Less(h[l].key, h[n].key) then l else n;
    if r < TOP_K && Less(h[r].key, h[s].key) then r else s
  }

  lemma Children(n: nat)
    ensures forall c | c > 0 :: Parent(c) == n <==> c == 2 * n + 1 || c == 2 * n + 2
  {
  }

  /** If no child is smaller the heap is whole. */
  lemma SiftEnds(h: seq<Item>, n: nat)
    requires |h| == TOP_K && n < TOP_K && HeapBut(h, n) && Smallest(h, n) == n
    ensures MinHeap(h)
  {
    Children(n);
  }

  /** Otherwise swapping with the smaller child moves the hole down. */
  lemma SiftMoves(h: seq<Item>, n: nat)
    requires |h| == TOP_K && n < TOP_K && HeapBut(h, n) && Bridged(h, n) && Smallest(h, n) != n
    ensures var small := Smallest(h, n); var t := h[n := h[small]][small := h[n]];
      n < small && HeapBut(t, small) && Bridged(t, small) && multiset(t) == multiset(h)
  {
    Children(n);
    SwapDown(h, n, Smallest(h, n));
    SwapKeeps(h, n, Smallest(h, n));
  }

  /** The comparisons of one round. */
  method LeastChild(heap: array<Item>, n: nat) returns (small: nat)
    requires heap.Length == TOP_K && n < TOP_K
    ensures small == Smallest(heap[..], n)
  {
    hide Less;
    var l, r := 2 * n + 1, 2 * n + 2;
    small := n;
    if l < TOP_K && Less(heap[l].key, heap[small].key) {
      small := l;
    }
    if r < TOP_K && Less(heap[r].key, heap[small].key) {
      small := r;
    }
  }

  method Swap(heap: array<Item>, i: nat, j: nat)
    requires i < heap.Length && j < heap.Length
    modifies heap
    ensures heap[..] == old(heap[..])[i := old(heap[j])][j := old(heap[i])]
  {
    heap[i], heap[j] := heap[j], heap[i];
  }

  /** Restore the heap after the root was replaced. */
  method SiftDown(heap: array<Item>)
    requires heap.Length == TOP_K && HeapBut(heap[..], 0)
    modifies heap
    ensures MinHeap(heap[..]) && multiset(heap[..]) == multiset(old(heap[..]))
  {
    hide HeapBut, Bridged, MinHeap, Smallest, Less;
    var n := 0;
    NoParent(heap[..]);
    while true
      invariant 0 <= n < TOP_K && HeapBut(heap[..], n) && Bridged(heap[..], n)
      invariant multiset(heap[..]) == multiset(old(heap[..]))
      decreases TOP_K - n
    {
      var small := LeastChild(heap, n);
      if small == n {
        SiftEnds(heap[..], n);
        return;
      }
      SiftMoves(heap[..], n);
      Swap(heap, n, small);
      n := small;
    }
  }

  lemma NoParent(h: seq<Item>)
    ensures Bridged(h, 0)
  {
  }

  // ---- The 64 largest --------------------------------------------------------------------

  predicate InHeap(h: seq<Item>, j: nat) {
    exists n :: 0 <= n < |h| && h[n].key.Fin? && h[n].id == j
  }

  /** Every finite item names an index seen so far that holds its value, no index
      is named twice, and every other value seen is at most the least kept. */
  ghost predicate KeepsLargest(h: seq<Item>, logits: seq<real>, i: nat)
    requires i <= |logits| && |h| > 0
  {
    && (forall n | 0 <= n < |h| && h[n].key.Fin? :: h[n].id < i && logits[h[n].id] == h[n].key.v)
    && (forall m, n | 0 <= m < n < |h| && h[m].key.Fin? && h[n].key.Fin? :: h[m].id != h[n].id)
    && (forall j | 0 <= j < i && !InHeap(h, j) :: !Less(h[0].key, Fin(logits[j])))
    && (forall n | 0 <= n < |h| && h[n].key.NegInf? :: h[n] == EMPTY)
  }

  /** The same items in another order. */
  lemma SameItems(h: seq<Item>, t: seq<Item>, n: nat)
    requires multiset(h) == multiset(t) && n < |t|
    ensures t[n] in h
  {
    assert t[n] in multiset(t);
  }

  lemma MembersKept(h: seq<Item>, t: seq<Item>, j: nat)
    requires multiset(h) == multiset(t)
    ensures InHeap(h, j) <==> InHeap(t, j)
  {
    if InHeap(h, j) {
      var n :| 0 <= n < |h| && h[n].key.Fin? && h[n].id == j;
      SameItems(t, h, n);
    }
    if InHeap(t, j) {
      var n :| 0 <= n < |t| && t[n].key.Fin? && t[n].id == j;
      SameItems(h, t, n);
    }
  }

  /** Finite items of a list with distinct ids occur once. */
  ghost predicate Once(h: seq<Item>) {
    forall x | x in h && x.key.Fin? :: multiset(h)[x] == 1
  }

  /** No id is named by two different items. */
  ghost predicate OneItemPerId(h: seq<Item>) {
    forall x, y | x in h && y in h && x.key.Fin? && y.key.Fin? && x.id == y.id :: x == y
  }

  lemma TwicePlaced(h: seq<Item>, m: nat, n: nat)
    requires m < n < |h| && h[m] == h[n]
    ensures multiset(h)[h[m]] >= 2
  {
    assert h == h[..n] + [h[n]] + h[n + 1..];
    assert h[m] in h[..n];
  }

  lemma DistinctIds(h: seq<Item>)
    requires Once(h) && OneItemPerId(h)
    ensures forall m, n | 0 <= m < n < |h| && h[m].key.Fin? && h[n].key.Fin? :: h[m].id != h[n].id
  {
    forall m, n | 0 <= m < n < |h| && h[m].key.Fin? && h[n].key.Fin? ensures h[m].id != h[n].id {
      if h[m].id == h[n].id {
        assert h[m] in h && h[n] in h;
        TwicePlaced(h, m, n);
        assert false;
      }
    }
  }

  lemma {:induction false} AtMostOnce(h: seq<Item>, x: Item)
    requires forall m, n | 0 <= m < n < |h| && h[m].key.Fin? && h[n].key.Fin? :: h[m].id != h[n].id
    requires x.key.Fin?
    ensures multiset(h)[x] <= 1
    decreases |h|
  {
    if h != [] {
      var k := |h| - 1;
      assert h == h[..k] + [h[k]];
      AtMostOnce(h[..k], x);
    }
  }

  /** A rearranged heap keeps the same largest values. */
  lemma Rearranged(h: seq<Item>, t: seq<Item>, logits: seq<real>, i: nat)
    requires multiset(h) == multiset(t) && |t| == |h| > 0 && i <= |logits|
    requires forall n | 0 <= n < |h| && h[n].key.Fin? :: h[n].id < i && logits[h[n].id] == h[n].key.v
    requires forall m, n | 0 <= m < n < |h| && h[m].key.Fin? && h[n].key.Fin? :: h[m].id != h[n].id
    requires forall n | 0 <= n < |h| && h[n].key.NegInf? :: h[n] == EMPTY
    requires MinHeap(t) && forall j | 0 <= j < i && !InHeap(h, j) :: forall n | 0 <= n < |h| :: !Less(h[n].key, Fin(logits[j]))
    ensures KeepsLargest(t, logits, i)
  {
    forall n | 0 <= n < |t| ensures t[n] in h {
      SameItems(h, t, n);
    }
    forall x | x in t && x.key.Fin? ensures multiset(t)[x] == 1 {
      AtMostOnce(h, x);
      assert x in multiset(t);
    }
    DistinctIds(t);
    forall j | 0 <= j < i && !InHeap(t, j) ensures !Less(t[0].key, Fin(logits[j])) {
      MembersKept(h, t, j);
      assert t[0] in h;
    }
  }

  /** How many places are still empty. */
  ghost predicate Empties(h: seq<Item>, i: nat) {
    multiset(h)[EMPTY] == if i < TOP_K then TOP_K - i else 0
  }

  /** While any place is empty the root is empty. */
  lemma EmptyRoot(h: seq<Item>)
    requires MinHeap(h) && EMPTY in h
    ensures h[0].key == NegInf
  {
    var n :| 0 <= n < |h| && h[n] == EMPTY;
    RootLeast(h, n);
  }

  lemma Replaced(h: seq<Item>, x: Item)
    requires |h| > 0
    ensures multiset(h[0 := x]) == multiset(h) - multiset{h[0]} + multiset{x}
  {
    assert h == [h[0]] + h[1..] && h[0 := x] == [x] + h[1..];
  }

  /** Taking in a value uses up one empty place while there are any. */
  lemma EmptiesStep(h: seq<Item>, t: seq<Item>, x: Item, i: nat)
    requires |h| > 0 && Empties(h, i) && multiset(t) == multiset(h[0 := x]) && x.key.Fin?
    requires (i < TOP_K <==> h[0] == EMPTY)
    ensures Empties(t, i + 1)
  {
    Replaced(h, x);
  }

  /** Taking in one more value. */
  method Offer(heap: array<Item>, logits: seq<real>, i: nat)
    requires heap.Length == TOP_K && i < |logits| && MinHeap(heap[..]) && KeepsLargest(heap[..], logits, i) && Empties(heap[..], i)
    modifies heap
    ensures MinHeap(heap[..]) && KeepsLargest(heap[..], logits, i + 1) && Empties(heap[..], i + 1)
  {
    ghost var h := heap[..];
    var v := logits[i];
    if i < TOP_K {
      assert EMPTY in multiset(h);
      EmptyRoot(h);
    }
    if Less(heap[0].key, Fin(v)) {
      heap[0] := Item(Fin(v), i);
      ghost var g := heap[..];
      assert g == h[0 := Item(Fin(v), i)];
      Offered(h, logits, i);
      SiftDown(heap);
      Rearranged(g, heap[..], logits, i + 1);
      EmptiesStep(h, heap[..], Item(Fin(v), i), i);
    } else {
      Refused(h, logits, i);
    }
  }

  lemma Refused(h: seq<Item>, logits: seq<real>, i: nat)
    requires |h| > 0 && i < |logits| && KeepsLargest(h, logits, i) && !Less(h[0].key, Fin(logits[i]))
    ensures KeepsLargest(h, logits, i + 1)
  {
  }

  /** The list with the root replaced, before sifting. */
  lemma Offered(h: seq<Item>, logits: seq<real>, i: nat)
    requires |h| > 0 && i < |logits| && MinHeap(h) && KeepsLargest(h, logits, i) && Less(h[0].key, Fin(logits[i]))
    ensures var g := h[0 := Item(Fin(logits[i]), i)];
      && HeapBut(g, 0)
      && (forall n | 0 <= n < |g| && g[n].key.Fin? :: g[n].id < i + 1 && logits[g[n].id] == g[n].key.v)
      && (forall m, n | 0 <= m < n < |g| && g[m].key.Fin? && g[n].key.Fin? :: g[m].id != g[n].id)
      && (forall n | 0 <= n < |g| && g[n].key.NegInf? :: g[n] == EMPTY)
      && (forall j | 0 <= j < i + 1 && !InHeap(g, j) :: forall n | 0 <= n < |g| :: !Less(g[n].key, Fin(logits[j])))
  {
    var g := h[0 := Item(Fin(logits[i]), i)];
    ReplacedMembers(h, Item(Fin(logits[i]), i));
    forall j, n | 0 <= j < i + 1 && !InHeap(g, j) && 0 <= n < |g| ensures !Less(g[n].key, Fin(logits[j])) {
      assert g[0].id == i && g[0].key.Fin?;
      assert j < i;
      RootLeast(h, n);
    }
  }

  /** Only the old root's index can leave the heap. */
  lemma ReplacedMembers(h: seq<Item>, x: Item)
    requires |h| > 0
    ensures forall j | InHeap(h, j) && !InHeap(h[0 := x], j) :: h[0].key.Fin? && h[0].id == j
  {
    var g := h[0 := x];
    assert forall n | 0 < n < |h| :: g[n] == h[n];
  }

  /** The 64 largest logits, each with an index that holds it; empty places make up
      the number when there are fewer. */
  ghost predicate Largest(h: seq<Item>, logits: seq<real>) {
    && |h| == TOP_K
    && (forall n | 0 <= n < |h| && h[n].key.Fin? :: h[n].id < |logits| && logits[h[n].id] == h[n].key.v)
    && (forall m, n | 0 <= m < n < |h| && h[m].key.Fin? && h[n].key.Fin? :: h[m].id != h[n].id)
    && (forall n | 0 <= n < |h| && h[n].key.NegInf? :: h[n] == EMPTY)
    && (forall j, n | 0 <= j < |logits| && 0 <= n < |h| && !InHeap(h, j) :: !Less(h[n].key, Fin(logits[j])))
    && Empties(h, |logits|)
  }

  /** With at least 64 logits no place stays empty. */
  lemma AllFinite(h: seq<Item>, logits: seq<real>)
    requires Largest(h, logits) && |logits| >= TOP_K
    ensures forall n | 0 <= n < |h| :: h[n].key.Fin?
  {
    forall n | 0 <= n < |h| ensures h[n].key.Fin? {
      assert h[n] in multiset(h);
    }
  }

  /** One pass over the logits leaves the 64 largest, each with an index that holds
      it. */
  method TopK(logits: seq<real>) returns (heap: array<Item>)
    ensures fresh(heap) && MinHeap(heap[..]) && Largest(heap[..], logits)
  {
    heap := new Item[TOP_K](_ => EMPTY);
    AllEmpty(heap[..]);
    var i := 0;
    while i < |logits|
      invariant 0 <= i <= |logits| && MinHeap(heap[..]) && KeepsLargest(heap[..], logits, i) && Empties(heap[..], i)
    {
      Offer(heap, logits, i);
      i := i + 1;
    }
    BelowAll(heap[..], logits);
  }

  lemma AllEmpty(h: seq<Item>)
    requires |h| == TOP_K && forall n | 0 <= n < |h| :: h[n] == EMPTY
    ensures MinHeap(h) && KeepsLargest(h, [], 0) && Empties(h, 0)
  {
    EmptyCount(h);
  }

  lemma {:induction false} EmptyCount(h: seq<Item>)
    requires forall n | 0 <= n < |h| :: h[n] == EMPTY
    ensures multiset(h)[EMPTY] == |h|
    decreases |h|
  {
    if h != [] {
      var k := |h| - 1;
      assert h == h[..k] + [h[k]];
      EmptyCount(h[..k]);
    }
  }

  lemma BelowAll(h: seq<Item>, logits: seq<real>)
    requires |h| == TOP_K && MinHeap(h) && KeepsLargest(h, logits, |logits|) && Empties(h, |logits|)
    ensures Largest(h, logits)
  {
    forall j, n | 0 <= j < |logits| && 0 <= n < |h| && !InHeap(h, j) ensures !Less(h[n].key, Fin(logits[j])) {
      RootLeast(h, n);
    }
  }

  // ---- Nucleus and draw ------------------------------------------------------------------

  ghost predicate Descending(c: seq<Item>) {
    forall i, j | 0 <= i < j < |c| :: !Less(c[i].key, c[j].key)
  }

  /** Any sort by descending key will do; ties may come in any order. */
  ghost predicate Sorts(sort: seq<Item> -> seq<Item>) {
    forall h: seq<Item> :: multiset(sort(h)) == multiset(h) && Descending(sort(h))
  }

  lemma SortedLargest(sort: seq<Item> -> seq<Item>, h: seq<Item>, logits: seq<real>)
    requires Sorts(sort) && Largest(h, logits)
    ensures |sort(h)| == TOP_K && Descending(sort(h)) && Largest(sort(h), logits)
  {
    var t := sort(h);
    assert multiset(t) == multiset(h) && Descending(t);
    assert |t| == |multiset(t)| == |h|;
    forall n | 0 <= n < |t| ensures t[n] in h {
      SameItems(h, t, n);
    }
    forall x | x in t && x.key.Fin? ensures multiset(t)[x] == 1 {
      AtMostOnce(h, x);
      assert x in multiset(t);
    }
    DistinctIds(t);
    forall j, n | 0 <= j < |logits| && 0 <= n < |t| && !InHeap(t, j) ensures !Less(t[n].key, Fin(logits[j])) {
      MembersKept(h, t, j);
      assert t[n] in h;
    }
  }

  /** An empty place comes first only if there are no logits. */
  lemma FirstEmpty(c: seq<Item>, logits: seq<real>)
    requires Largest(c, logits) && Descending(c) && c[0].key.NegInf?
    ensures logits == [] && c[TOP_K - 1].id == 0
  {
    if logits != [] {
      FirstFinite(c, logits);
    } else {
      assert c[TOP_K - 1].key.NegInf?;
    }
  }

  lemma FirstSome(c: seq<Item>, logits: seq<real>)
    requires Largest(c, logits) && Descending(c) && c[0].key.Fin?
    ensures logits != []
  {
  }

  /** Some logit comes first. */
  lemma FirstFinite(c: seq<Item>, logits: seq<real>)
    requires Largest(c, logits) && Descending(c) && logits != []
    ensures c[0].key.Fin?
  {
    if InHeap(c, 0) {
      var n :| 0 <= n < |c| && c[n].key.Fin? && c[n].id == 0;
      assert n == 0 || !Less(c[0].key, c[n].key);
    } else {
      assert !Less(c[0].key, Fin(logits[0]));
    }
  }

  /** Unnormalized softmax weight of one candidate against the largest; minus
      infinity weighs nothing. */
  function Weight(exp: real -> real, k: Key, max: real, temperature: real): real
    requires temperature > 0.0
  {
    match k case NegInf => 0.0 case Fin(v) => exp((v - max) / temperature)
  }

  function Weights(exp: real -> real, c: seq<Item>, temperature: real): (p: seq<real>)
    requires |c| == TOP_K && temperature > 0.0 && c[0].key.Fin?
    ensures |p| == TOP_K
  {
    seq(TOP_K, n requires 0 <= n < TOP_K => Weight(exp, c[n].key, c[0].key.v, temperature))
  }

  /** All that is needed of the exponential; underflow to zero is allowed. */
  ghost predicate Positive(exp: real -> real) {
    exp(0.0) > 0.0 && forall x: real :: exp(x) >= 0.0
  }

  /** Mass of the first `n` candidates. */
  function Mass(p: seq<real>, n: nat): real
    requires n <= |p|
  {
    if n == 0 then 0.0 else Mass(p, n - 1) + p[n - 1]
  }

  /** No weight is negative and the first is positive. */
  ghost predicate Weighty(p: seq<real>) {
    p != [] && p[0] > 0.0 && forall n | 0 <= n < |p| :: p[n] >= 0.0
  }

  lemma {:induction false} MassGrows(p: seq<real>, m: nat, n: nat)
    requires Weighty(p) && m <= n <= |p|
    ensures Mass(p, m) <= Mass(p, n) && (m == 0 < n ==> Mass(p, n) > 0.0)
    decreases n
  {
    if m < n {
      MassGrows(p, m, n - 1);
    }
  }

  /** Length of the smallest prefix whose mass reaches `cut`; everything if none does. */
  function CutAt(p: seq<real>, cut: real, from: nat): (n: nat)
    requires from <= |p|
    ensures from <= n <= |p| && (from < |p| ==> from < n)
    ensures forall m | from < m < n :: Mass(p, m) < cut
    ensures n < |p| ==> Mass(p, n) >= cut
    decreases |p| - from
  {
    if from == |p| then from
    else if Mass(p, from + 1) >= cut then from + 1
    else CutAt(p, cut, from + 1)
  }

  /** Index of the first candidate whose cumulative mass reaches `r`. */
  function DrawAt(p: seq<real>, r: real, n: nat, from: nat): (i: nat)
    requires from < n <= |p|
    ensures from <= i < n
    decreases n - from
  {
    if r <= Mass(p, from + 1) || from + 1 == n then from else DrawAt(p, r, n, from + 1)
  }

  function Scale(a: real, b: real): real { a * b }

  /** The nucleus: the smallest prefix with a share `topP` of the mass. */
  function Nucleus(p: seq<real>, topP: real): (n: nat)
    requires p != []
    ensures 0 < n <= |p|
  {
    CutAt(p, Scale(topP, Mass(p, |p|)), 0)
  }

  /** For a share of at most one the nucleus reaches it, and nothing shorter does. */
  lemma NucleusSmallest(p: seq<real>, topP: real)
    requires Weighty(p) && topP <= 1.0
    ensures Mass(p, Nucleus(p, topP)) >= Scale(topP, Mass(p, |p|))
    ensures forall m | 0 < m < Nucleus(p, topP) :: Mass(p, m) < Scale(topP, Mass(p, |p|))
  {
    hide Scale;
    MassGrows(p, 0, |p|);
    AtMostAll(topP, Mass(p, |p|));
  }

  lemma AtMostAll(topP: real, total: real)
    requires topP <= 1.0 && total >= 0.0
    ensures Scale(topP, total) <= total
  {
  }

  /** The draw is by cumulative mass: candidate `i` is taken exactly for draws above
      the mass before it and at most the mass through it. */
  lemma {:induction false} DrawIsInverse(p: seq<real>, r: real, n: nat, from: nat)
    requires from < n <= |p| && r <= Mass(p, n) && (from > 0 ==> Mass(p, from) < r)
    ensures var i := DrawAt(p, r, n, from);
      r <= Mass(p, i + 1) && (i > 0 ==> Mass(p, i) < r)
    decreases n - from
  {
    if !(r <= Mass(p, from + 1) || from + 1 == n) {
      DrawIsInverse(p, r, n, from + 1);
    }
  }

  lemma ScaledDraw(u: real, mass: real)
    requires 0.0 <= u < 1.0 && mass > 0.0
    ensures 0.0 <= Scale(u, mass) <= mass
  {
  }

  /** Which candidate a uniform number picks. */
  function Pick(exp: real -> real, temperature: real, topP: real, c: seq<Item>, u: real): (i: nat)
    requires |c| == TOP_K && temperature > 0.0 && c[0].key.Fin?
    ensures i < TOP_K
  {
    var p := Weights(exp, c, temperature);
    DrawAt(p, Scale(u, Mass(p, Nucleus(p, topP))), Nucleus(p, topP), 0)
  }

  lemma WeightsPositive(exp: real -> real, c: seq<Item>, temperature: real)
    requires |c| == TOP_K && temperature > 0.0 && c[0].key.Fin? && Positive(exp)
    ensures var p := Weights(exp, c, temperature);
      Weighty(p) && forall n | 0 <= n < TOP_K :: p[n] > 0.0 ==> c[n].key.Fin?
  {
    var p := Weights(exp, c, temperature);
    NoDifference(c[0].key.v, temperature);
    assert p[0] == exp(0.0);
  }

  lemma NoDifference(v: real, temperature: real)
    requires temperature > 0.0
    ensures (v - v) / temperature == 0.0
  {
  }

  /** The candidate picked is a logit inside the nucleus, by cumulative mass. */
  lemma PickInNucleus(exp: real -> real, temperature: real, topP: real, c: seq<Item>, u: real)
    requires |c| == TOP_K && temperature > 0.0 && c[0].key.Fin?
    requires Positive(exp) && topP <= 1.0 && 0.0 <= u < 1.0
    ensures var p := Weights(exp, c, temperature); var n := Nucleus(p, topP); var i := Pick(exp, temperature, topP, c, u);
      && i < n && Mass(p, n) >= Scale(topP, Mass(p, TOP_K)) && (forall m | 0 < m < n :: Mass(p, m) < Scale(topP, Mass(p, TOP_K)))
      && Scale(u, Mass(p, n)) <= Mass(p, i + 1) && (i > 0 ==> Mass(p, i) < Scale(u, Mass(p, n)))
  {
    hide Scale, Weights, Mass, CutAt, DrawAt, Nucleus;
    var p := Weights(exp, c, temperature);
    WeightsPositive(exp, c, temperature);
    NucleusSmallest(p, topP);
    var n := Nucleus(p, topP);
    MassGrows(p, 0, n);
    ScaledDraw(u, Mass(p, n));
    DrawIsInverse(p, Scale(u, Mass(p, n)), n, 0);
  }

  /** Whatever the share asked for, an empty place is never picked. */
  lemma PickFinite(exp: real -> real, temperature: real, topP: real, c: seq<Item>, u: real)
    requires |c| == TOP_K && temperature > 0.0 && c[0].key.Fin? && Positive(exp) && 0.0 <= u < 1.0
    ensures c[Pick(exp, temperature, topP, c, u)].key.Fin?
  {
    hide Scale, Weights, Mass, CutAt, DrawAt, Nucleus;
    var p := Weights(exp, c, temperature);
    WeightsPositive(exp, c, temperature);
    var n := Nucleus(p, topP);
    MassGrows(p, 0, n);
    ScaledDraw(u, Mass(p, n));
    DrawIsInverse(p, Scale(u, Mass(p, n)), n, 0);
    MassStep(p, Pick(exp, temperature, topP, c, u));
  }

  lemma MassStep(p: seq<real>, i: nat)
    requires i < |p|
    ensures Mass(p, i + 1) == Mass(p, i) + p[i]
  {
  }

  // ---- The generator ----------------------------------------------------------------------

  function Step1(x: bv64): bv64 { x ^ (x << 13) }
  function Step2(x: bv64): bv64 { x ^ (x >> 7) }
  function Step3(x: bv64): bv64 { x ^ (x << 17) }

  lemma Step1Nonzero(x: bv64)
    requires x != 0
    ensures Step1(x) != 0
  {
  }

  lemma Step2Nonzero(x: bv64)
    requires x != 0
    ensures Step2(x) != 0
  {
  }

  lemma Step3Nonzero(x: bv64)
    requires x != 0
    ensures Step3(x) != 0
  {
  }

  /** The top 24 bits as a fraction. */
  function Uniform(x: bv64): (u: real)
    ensures 0.0 <= u < 1.0
  {
    (High24(x) as real) / 16777216.0
  }

  function High24(x: bv64): (n: nat)
    ensures n < 16777216
  {
    ((x >> 40) as bv24) as nat
  }

  /** The id a sampled call may return: some order of the 64 largest logits, picked
      from by one uniform number. */
  ghost predicate Sampled(exp: real -> real, sort: seq<Item> -> seq<Item>, temperature: real, topP: real, logits: seq<real>, u: real, id: nat) {
    exists h: seq<Item> :: SampledFrom(exp, sort(h), temperature, topP, logits, u, id)
  }

  ghost predicate SampledFrom(exp: real -> real, c: seq<Item>, temperature: real, topP: real, logits: seq<real>, u: real, id: nat) {
    && temperature > 0.0 && Largest(c, logits) && Descending(c) && c[0].key.Fin?
    && var item := c[Pick(exp, temperature, topP, c, u)]; item.key.Fin? && id == item.id
  }

  class Sampler {
    const temperature: real
    const topP: real
    var rng: bv64

    constructor (temperature: real, topP: real, seed: bv64)
      ensures this.temperature == temperature && this.topP == topP && rng == seed | 1 && rng != 0
    {
      this.temperature, this.topP := temperature, topP;
      rng := seed | 1;
    }

    /** One step of the generator, which never reaches zero. */
    method NextUniform() returns (u: real)
      requires rng != 0
      modifies this
      ensures rng == Step3(Step2(Step1(old(rng)))) && rng != 0
      ensures u == Uniform(rng) && 0.0 <= u < 1.0
    {
      hide Step1, Step2, Step3, High24;
      Step1Nonzero(rng);
      Step2Nonzero(Step1(rng));
      Step3Nonzero(Step2(Step1(rng)));
      rng := Step3(Step2(Step1(rng)));
      u := Uniform(rng);
    }

    /** The first index of a largest logit, and 0 for no logits. */
    method Argmax(logits: seq<real>) returns (best: nat)
      ensures logits == [] ==> best == 0
      ensures logits != [] ==> best < |logits| && (forall j | 0 <= j < |logits| :: logits[j] <= logits[best]) && forall j | 0 <= j < best :: logits[j] < logits[best]
    {
      best := 0;
      var bv := NegInf;
      var i := 0;
      while i < |logits|
        invariant 0 <= i <= |logits| && (i > 0 ==> best < |logits|)
        invariant if i == 0 then bv == NegInf && best == 0 else best < i && bv == Fin(logits[best])
        invariant forall j | 0 <= j < i :: logits[j] <= logits[best]
        invariant forall j | 0 <= j < best :: logits[j] < logits[best]
      {
        if Less(bv, Fin(logits[i])) {
          bv := Fin(logits[i]);
          best := i;
        }
        i := i + 1;
      }
    }

    /** Pick a token: greedily without temperature, otherwise from the nucleus of the
        64 largest. With no logits at all every candidate is the empty place, whose
        id is 0; its weights are not numbers, so no comparison cuts or stops early. */
    method Sample(logits: seq<real>, exp: real -> real, sort: seq<Item> -> seq<Item>) returns (id: nat)
      requires rng != 0 && Sorts(sort) && Positive(exp)
      modifies this
      ensures rng == if temperature <= 0.0 then old(rng) else Step3(Step2(Step1(old(rng))))
      ensures rng != 0 && if logits == [] then id == 0 else id < |logits|
      ensures temperature <= 0.0 ==> forall j | 0 <= j < |logits| :: logits[j] <= logits[id]
      ensures temperature > 0.0 && logits != [] ==> Sampled(exp, sort, temperature, topP, logits, Uniform(rng), id)
    {
      hide MinHeap, Uniform, Sorts, Mass, Step1, Step2, Step3;
      if temperature <= 0.0 {
        id := Argmax(logits);
        return;
      }
      var heap := TopK(logits);
      var cand := sort(heap[..]);
      SortedLargest(sort, heap[..], logits);
      if cand[0].key.NegInf? {
        FirstEmpty(cand, logits);
        var _ := NextUniform();
        return cand[TOP_K - 1].id;
      }
      FirstSome(cand, logits);
      var i := Draw(cand, exp);
      PickFinite(exp, temperature, topP, cand, Uniform(rng));
      id := cand[i].id;
      assert SampledFrom(exp, sort(heap[..]), temperature, topP, logits, Uniform(rng), id);
    }

    /** Weights, nucleus cut and draw. */
    method Draw(cand: seq<Item>, exp: real -> real) returns (i: nat)
      requires rng != 0 && temperature > 0.0 && |cand| == TOP_K && cand[0].key.Fin?
      requires Positive(exp)
      modifies this
      ensures rng == Step3(Step2(Step1(old(rng))))
      ensures rng != 0 && i < TOP_K && i == Pick(exp, temperature, topP, cand, Uniform(rng))
    {
      hide Uniform, Step1, Step2, Step3, Scale, Weights, Mass, CutAt, DrawAt, Positive;
      WeightsPositive(exp, cand, temperature);
      var probs, sum := Softmax(cand, exp, temperature);
      var n, cum := Cut(probs, Scale(topP, sum));
      var u := NextUniform();
      MassGrows(probs, 0, n);
      ScaledDraw(u, cum);
      i := DrawLoop(probs, Scale(u, cum), n);
    }
  }

  /** Weights of the candidates and their sum. */
  method Softmax(cand: seq<Item>, exp: real -> real, temperature: real) returns (probs: seq<real>, sum: real)
    requires temperature > 0.0 && |cand| == TOP_K && cand[0].key.Fin?
    ensures probs == Weights(exp, cand, temperature) && sum == Mass(probs, TOP_K)
  {
    var max := cand[0].key.v;
    sum, probs := 0.0, [];
    ghost var p := Weights(exp, cand, temperature);
    var k := 0;
    while k < TOP_K
      invariant 0 <= k <= TOP_K && probs == p[..k] && sum == Mass(p, k)
    {
      var w := match cand[k].key case NegInf => 0.0 case Fin(v) => exp((v - max) / temperature);
      assert w == p[k];
      probs := probs + [w];
      sum := sum + w;
      k := k + 1;
    }
    assert probs == p;
  }

  /** The nucleus length and its mass. */
  method Cut(probs: seq<real>, cut: real) returns (n: nat, cum: real)
    requires |probs| == TOP_K
    ensures n == CutAt(probs, cut, 0) && cum == Mass(probs, n)
  {
    cum, n := 0.0, TOP_K;
    var k := 0;
    while k < TOP_K
      invariant 0 <= k <= TOP_K && cum == Mass(probs, k) && n == TOP_K && CutAt(probs, cut, 0) == CutAt(probs, cut, k)
    {
      cum := cum + probs[k];
      if cum >= cut {
        n := k + 1;
        return;
      }
      k := k + 1;
    }
  }

  /** Walk the cumulative mass. Over the reals a draw of at most the nucleus mass
      never passes its end. */
  method DrawLoop(probs: seq<real>, r: real, n: nat) returns (i: nat)
    requires 0 < n <= |probs| && r <= Mass(probs, n)
    ensures i < n && i == DrawAt(probs, r, n, 0)
  {
    var acc := 0.0;
    i := 0;
    while i < n
      invariant 0 <= i <= n && acc == Mass(probs, i) && (i < n ==> DrawAt(probs, r, n, 0) == DrawAt(probs, r, n, i))
      invariant i > 0 ==> Mass(probs, i) < r
    {
      acc := acc + probs[i];
      if r <= acc {
        return;
      }
      i := i + 1;
    }
    assert false;
  }
}
