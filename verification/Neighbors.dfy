/** The fixed-size neighbor cache, which is a bounded first-in-first-out map with
    unique addresses. The array is proved to refine it. */
module Neighbors {
  import opened Wire
  import opened Wrappers
  import opened Net

  // ---- The abstract map ---------------------------------------------------------------

  ghost predicate Unique(f: seq<Binding>) {
    forall i, j | 0 <= i < j < |f| :: f[i].ip != f[j].ip
  }

  predicate Known(f: seq<Binding>, ip: Ip) {
    exists i :: 0 <= i < |f| && f[i].ip == ip
  }

  function Lookup(f: seq<Binding>, ip: Ip): Option<Mac> {
    if f == [] then None else if f[0].ip == ip then Some(f[0].mac) else Lookup(f[1..], ip)
  }

  function Refresh(f: seq<Binding>, b: Binding): (g: seq<Binding>)
    ensures |g| == |f|
  {
    seq(|f|, i requires 0 <= i < |f| => if f[i].ip == b.ip then b else f[i])
  }

  predicate Teachable(b: Binding) {
    b.ip != IP_UNSPECIFIED && b.mac != MAC_ZERO && b.mac != MAC_BROADCAST
  }

  /** Learn a binding: refresh a known address in place, otherwise append, dropping
      the oldest when all `n` places are taken. */
  function Learned(f: seq<Binding>, n: nat, b: Binding): seq<Binding>
    requires |f| <= n
  {
    if !Teachable(b) then f
    else if Known(f, b.ip) then Refresh(f, b)
    else if n == 0 then f
    else if |f| == n then f[1..] + [b]
    else f + [b]
  }

  /** Learning keeps the bound and the unique keys. */
  lemma LearnedKeeps(f: seq<Binding>, n: nat, b: Binding)
    requires Unique(f) && |f| <= n
    ensures |Learned(f, n, b)| <= n && Unique(Learned(f, n, b))
  {
    hide Lookup;
  }

  /** What was taught is found; other addresses keep their answer unless the oldest
      had to go. */
  lemma LearnedFinds(f: seq<Binding>, n: nat, b: Binding, ip: Ip)
    requires Unique(f) && |f| <= n && Teachable(b) && n > 0
    ensures Lookup(Learned(f, n, b), b.ip) == Some(b.mac)
    ensures ip != b.ip && (|f| < n || f[0].ip != ip || Known(f, b.ip)) ==> Lookup(Learned(f, n, b), ip) == Lookup(f, ip)
  {
    hide Refresh, Known, Teachable;
    if Known(f, b.ip) {
      RefreshLookup(f, b);
    } else {
      var kept := if |f| == n then f[1..] else f;
      AppendLookup(kept, b);
      NotKnown(f, b.ip);
    }
  }

  lemma {:induction false} NotKnown(f: seq<Binding>, ip: Ip)
    requires !Known(f, ip)
    ensures Lookup(f, ip) == None
  {
    if f != [] {
      assert f[0].ip != ip;
      assert forall i | 0 <= i < |f[1..]| :: f[1..][i] == f[i + 1];
      NotKnown(f[1..], ip);
    }
  }

  lemma {:induction false} AppendLookup(f: seq<Binding>, b: Binding)
    ensures forall ip: Ip :: Lookup(f + [b], ip) == if Lookup(f, ip).Some? then Lookup(f, ip) else if ip == b.ip then Some(b.mac) else None
    decreases |f|
  {
    if f == [] {
      assert (f + [b])[1..] == [];
    } else {
      AppendLookup(f[1..], b);
      assert (f + [b])[1..] == f[1..] + [b];
    }
  }

  lemma {:induction false} RefreshLookup(f: seq<Binding>, b: Binding)
    ensures forall ip: Ip | ip != b.ip :: Lookup(Refresh(f, b), ip) == Lookup(f, ip)
    ensures Known(f, b.ip) ==> Lookup(Refresh(f, b), b.ip) == Some(b.mac)
    decreases |f|
  {
    if f != [] {
      RefreshLookup(f[1..], b);
      assert Refresh(f, b)[1..] == Refresh(f[1..], b);
      if Known(f, b.ip) && f[0].ip != b.ip {
        var i :| 0 <= i < |f| && f[i].ip == b.ip;
        assert f[1..][i - 1].ip == b.ip;
      }
    }
  }

  /** With unique keys any hit is the answer. */
  lemma {:induction false} HitIsLookup(f: seq<Binding>, i: nat)
    requires Unique(f) && i < |f|
    ensures Lookup(f, f[i].ip) == Some(f[i].mac)
    decreases |f|
  {
    if i > 0 {
      HitIsLookup(f[1..], i - 1);
    }
  }

  // ---- The array ------------------------------------------------------------------------

  datatype Slot = Slot(ip: Ip, mac: Mac, valid: bool)

  const EMPTY: Slot := Slot(IP_UNSPECIFIED, MAC_ZERO, false)

  function Bindings(s: seq<Slot>): (f: seq<Binding>)
    ensures |f| == |s| && forall i | 0 <= i < |s| :: f[i] == Binding(s[i].ip, s[i].mac)
  {
    seq(|s|, i requires 0 <= i < |s| => Binding(s[i].ip, s[i].mac))
  }

  /** Filled from the front up to `next`; once full, `next` is the oldest. */
  ghost predicate Ring(s: seq<Slot>, next: nat) {
    && (if s == [] then next == 0 else next < |s|)
    && ((forall i | 0 <= i < |s| :: s[i].valid) || (forall i | 0 <= i < |s| :: s[i].valid <==> i < next))
    && (forall i, j | 0 <= i < j < |s| && s[i].valid && s[j].valid :: s[i].ip != s[j].ip)
  }

  /** The map the ring stands for, oldest first. */
  function MapOf(s: seq<Slot>, next: nat): seq<Binding>
    requires next <= |s|
  {
    if next < |s| && s[next].valid then Bindings(s[next..]) + Bindings(s[..next]) else Bindings(s[..next])
  }

  lemma MapUnique(s: seq<Slot>, next: nat)
    requires Ring(s, next)
    ensures Unique(MapOf(s, next)) && |MapOf(s, next)| <= |s|
  {
  }

  /** Where slot `i` is in the map. */
  lemma SlotPlace(s: seq<Slot>, next: nat, i: nat) returns (k: nat)
    requires Ring(s, next) && i < |s| && s[i].valid
    ensures k < |MapOf(s, next)| && MapOf(s, next)[k] == Binding(s[i].ip, s[i].mac)
  {
    if next < |s| && s[next].valid {
      k := if i >= next then i - next else i + (|s| - next);
    } else {
      k := i;
    }
  }

  /** An address is in the map exactly when a valid slot holds it. */
  lemma KnownIff(s: seq<Slot>, next: nat, ip: Ip)
    requires Ring(s, next)
    ensures Known(MapOf(s, next), ip) <==> exists i :: 0 <= i < |s| && s[i].valid && s[i].ip == ip
  {
    var f := MapOf(s, next);
    if i :| 0 <= i < |s| && s[i].valid && s[i].ip == ip {
      var k := SlotPlace(s, next, i);
      assert f[k].ip == ip;
    }
    if Known(f, ip) {
      var k :| 0 <= k < |f| && f[k].ip == ip;
      var i := if next < |s| && s[next].valid then (if k < |s| - next then k + next else k - (|s| - next)) else k;
      assert s[i].valid && s[i].ip == ip;
    }
  }

  class Table {
    const slots: array<Slot>
    var next: nat

    ghost predicate Valid()
      reads this, slots
    {
      Ring(slots[..], next)
    }

    function View(): seq<Binding>
      requires next <= slots.Length
      reads this, slots
    {
      MapOf(slots[..], next)
    }

    constructor (n: nat)
      ensures Valid() && View() == [] && slots.Length == n && fresh(slots)
    {
      slots := new Slot[n](_ => EMPTY);
      next := 0;
    }

    method Clear()
      modifies this, slots
      ensures Valid() && View() == []
    {
      forall i | 0 <= i < slots.Length {
        slots[i] := EMPTY;
      }
      next := 0;
    }

    /** Index of the valid slot with this address, or the length. */
    method Find(ip: Ip) returns (i: nat)
      ensures i <= slots.Length
      ensures i < slots.Length ==> slots[i].valid && slots[i].ip == ip
      ensures i == slots.Length ==> forall j | 0 <= j < slots.Length :: !(slots[j].valid && slots[j].ip == ip)
    {
      i := 0;
      while i < slots.Length && !(slots[i].valid && slots[i].ip == ip)
        invariant 0 <= i <= slots.Length && forall j | 0 <= j < i :: !(slots[j].valid && slots[j].ip == ip)
      {
        i := i + 1;
      }
    }

    method Neighbor(ip: Ip) returns (m: Option<Mac>)
      requires Valid()
      ensures m == Lookup(View(), ip)
    {
      var i := Find(ip);
      KnownIff(slots[..], next, ip);
      MapUnique(slots[..], next);
      if i < slots.Length {
        ghost var k := SlotPlace(slots[..], next, i);
        HitIsLookup(View(), k);
        m := Some(slots[i].mac);
      } else {
        NotKnown(View(), ip);
        m := None;
      }
    }

    method Learn(b: Binding)
      requires Valid()
      modifies this, slots
      ensures Valid() && |old(View())| <= slots.Length && View() == Learned(old(View()), slots.Length, b)
    {
      MapUnique(slots[..], next);
      if b.ip == IP_UNSPECIFIED || b.mac == MAC_ZERO || b.mac == MAC_BROADCAST {
        return;
      }
      ghost var s := slots[..];
      KnownIff(s, next, b.ip);
      var i := Find(b.ip);
      if i < slots.Length {
        slots[i] := slots[i].(mac := b.mac);
        Refreshed(s, next, i, b);
        return;
      }
      if slots.Length != 0 {
        slots[next] := Slot(b.ip, b.mac, true);
        Appended(s, next, b);
        next := if next + 1 == slots.Length then 0 else next + 1;
      }
    }
  }

  lemma RefreshedSlice(s: seq<Slot>, i: nat, b: Binding, lo: nat, hi: nat)
    requires i < |s| && s[i].ip == b.ip && lo <= hi <= |s|
    requires forall j | lo <= j < hi && j != i :: s[j].ip != b.ip
    ensures Bindings(s[i := s[i].(mac := b.mac)][lo..hi]) == Refresh(Bindings(s[lo..hi]), b)
  {
  }

  lemma RefreshAppend(f: seq<Binding>, g: seq<Binding>, b: Binding)
    ensures Refresh(f + g, b) == Refresh(f, b) + Refresh(g, b)
  {
  }

  lemma Refreshed(s: seq<Slot>, next: nat, i: nat, b: Binding)
    requires Ring(s, next) && i < |s| && s[i].valid && s[i].ip == b.ip
    ensures var t := s[i := s[i].(mac := b.mac)];
      Ring(t, next) && MapOf(t, next) == Refresh(MapOf(s, next), b)
  {
    hide Bindings, Refresh;
    RefreshedRing(s, next, i, b);
    RefreshedSlice(s, i, b, 0, next);
    if next < |s| && s[next].valid {
      RefreshedSlice(s, i, b, next, |s|);
      RefreshAppend(Bindings(s[next..]), Bindings(s[..next]), b);
      FullSlices(s, s[i := s[i].(mac := b.mac)], next);
    }
    PrefixSlices(s, s[i := s[i].(mac := b.mac)], next);
  }

  lemma FullSlices(s: seq<Slot>, t: seq<Slot>, next: nat)
    requires next <= |s| == |t|
    ensures s[next..] == s[next..|s|] && t[next..] == t[next..|s|]
  {
  }

  lemma PrefixSlices(s: seq<Slot>, t: seq<Slot>, next: nat)
    requires next <= |s| == |t|
    ensures s[..next] == s[0..next] && t[..next] == t[0..next]
  {
  }

  lemma RefreshedRing(s: seq<Slot>, next: nat, i: nat, b: Binding)
    requires Ring(s, next) && i < |s| && s[i].valid && s[i].ip == b.ip
    ensures Ring(s[i := s[i].(mac := b.mac)], next)
  {
  }

  lemma BindingsAppend(p: seq<Slot>, q: seq<Slot>)
    ensures Bindings(p + q) == Bindings(p) + Bindings(q)
  {
  }

  lemma AppendedRing(s: seq<Slot>, next: nat, b: Binding)
    requires Ring(s, next) && |s| > 0 && forall j | 0 <= j < |s| :: !(s[j].valid && s[j].ip == b.ip)
    ensures Ring(s[next := Slot(b.ip, b.mac, true)], if next + 1 == |s| then 0 else next + 1)
  {
  }

  /** The slices of the ring after a store at `next`. */
  lemma StoreSlices(s: seq<Slot>, next: nat, x: Slot)
    requires next < |s|
    ensures var t := s[next := x];
      && t[..next + 1] == s[..next] + [x] && t[next + 1..] == s[next + 1..]
      && s[next..] == [s[next]] + s[next + 1..]
      && (next + 1 == |s| ==> t[0..] == s[..next] + [x] && t[..0] == [] && s[next + 1..] == [])
  {
  }

  lemma Appended(s: seq<Slot>, next: nat, b: Binding)
    requires Ring(s, next) && |s| > 0 && forall j | 0 <= j < |s| :: !(s[j].valid && s[j].ip == b.ip)
    ensures var t, n := s[next := Slot(b.ip, b.mac, true)], if next + 1 == |s| then 0 else next + 1; var f := MapOf(s, next);
      Ring(t, n) && MapOf(t, n) == if |f| == |s| then f[1..] + [b] else f + [b]
  {
    hide Bindings, MapOf;
    AppendedRing(s, next, b);
    if s[next].valid {
      AppendedFull(s, next, b);
    } else {
      AppendedFilling(s, next, b);
    }
  }

  /** A store into a full ring drops the oldest entry. */
  lemma AppendedFull(s: seq<Slot>, next: nat, b: Binding)
    requires next < |s| && forall i | 0 <= i < |s| :: s[i].valid
    ensures var t, n := s[next := Slot(b.ip, b.mac, true)], if next + 1 == |s| then 0 else next + 1; var f := MapOf(s, next);
      |f| == |s| && MapOf(t, n) == f[1..] + [b]
  {
    hide Bindings;
    var x := Slot(b.ip, b.mac, true);
    StoreSlices(s, next, x);
    BindingsAppend(s[..next], [x]);
    BindingsAppend([s[next]], s[next + 1..]);
    Single(x);
    Single(s[next]);
    Dequeue(Bindings([s[next]]), Bindings(s[next + 1..]), Bindings(s[..next]), b);
  }

  lemma Dequeue(a: seq<Binding>, p: seq<Binding>, q: seq<Binding>, b: Binding)
    requires |a| == 1
    ensures ((a + p) + q)[1..] + [b] == p + (q + [b])
  {
  }

  /** A store into a ring that is still filling. */
  lemma AppendedFilling(s: seq<Slot>, next: nat, b: Binding)
    requires next < |s| && forall i | 0 <= i < |s| :: s[i].valid <==> i < next
    ensures var t, n := s[next := Slot(b.ip, b.mac, true)], if next + 1 == |s| then 0 else next + 1; var f := MapOf(s, next);
      |f| < |s| && MapOf(t, n) == f + [b]
  {
    hide Bindings;
    var x := Slot(b.ip, b.mac, true);
    StoreSlices(s, next, x);
    BindingsAppend(s[..next], [x]);
    Single(x);
  }

  lemma Single(x: Slot)
    ensures Bindings([x]) == [Binding(x.ip, x.mac)] && Bindings([]) == []
  {
  }
}
