/** Ordered-choice regular expressions with greedy quantifiers, a one-character
    lookahead and backtracking. A matcher is the list of all ends in the order in
    which backtracking tries them; the first is the match. */
module Regex {
  import opened Unicode
  import opened Wrappers

  datatype Re =
    | Cls(p: Char -> bool)               // one character of a class
    | Opt(p: Char -> bool)               // greedy ?
    | Star(p: Char -> bool)              // greedy *
    | AtMost(p: Char -> bool, n: nat)    // greedy {0,n}
    | NotNext(p: Char -> bool)           // (?!p)
    | Cat(a: Re, b: Re)
    | Alt(a: Re, b: Re)

  /** Every end position at which the expression can match from `i`, in the order
      a backtracking matcher tries them. */
  function Ends(r: Re, s: Text, i: nat): (e: seq<nat>)
    requires i <= |s|
    ensures forall k | 0 <= k < |e| :: i <= e[k] <= |s|
    decreases r, 0, |s| - i
  {
    match r
    case Cls(p) => if i < |s| && p(s[i]) then [i + 1] else []
    case Opt(p) => if i < |s| && p(s[i]) then [i + 1, i] else [i]
    case Star(p) => if i < |s| && p(s[i]) then Ends(r, s, i + 1) + [i] else [i]
    case AtMost(p, n) => Tries(p, n, s, i)
    case NotNext(p) => if i < |s| && p(s[i]) then [] else [i]
    case Cat(a, b) => Continue(b, s, i, Ends(a, s, i))
    case Alt(a, b) => Ends(a, s, i) + Ends(b, s, i)
  }

  function Tries(p: Char -> bool, n: nat, s: Text, i: nat): (e: seq<nat>)
    requires i <= |s|
    ensures forall k | 0 <= k < |e| :: i <= e[k] <= |s|
    decreases n
  {
    if n > 0 && i < |s| && p(s[i]) then Tries(p, n - 1, s, i + 1) + [i] else [i]
  }

  /** Go on with `r` from each position in turn. */
  function Continue(r: Re, s: Text, i: nat, from: seq<nat>): (e: seq<nat>)
    requires i <= |s| && forall k | 0 <= k < |from| :: i <= from[k] <= |s|
    ensures forall k | 0 <= k < |e| :: i <= e[k] <= |s|
    decreases r, 1, |from|
  {
    if from == [] then [] else Ends(r, s, from[0]) + Continue(r, s, i, from[1..])
  }

  /** What the matcher returns: the first way to match. */
  function Match(r: Re, s: Text, i: nat): (m: Option<nat>)
    requires i <= |s|
    ensures m.Some? ==> i <= m.value <= |s|
  {
    var e := Ends(r, s, i);
    if e == [] then None else Some(e[0])
  }

  function Plus(p: Char -> bool): Re { Cat(Cls(p), Star(p)) }

  // ---- First matches ---------------------------------------------------------------------

  /** End of the run of `p` from `i`. */
  function RunEnd(p: Char -> bool, s: Text, i: nat): (k: nat)
    requires i <= |s|
    ensures i <= k <= |s| && (forall j | i <= j < k :: p(s[j])) && (k < |s| ==> !p(s[k]))
    decreases |s| - i
  {
    if i < |s| && p(s[i]) then RunEnd(p, s, i + 1) else i
  }

  lemma MatchAlt(a: Re, b: Re, s: Text, i: nat)
    requires i <= |s|
    ensures Match(Alt(a, b), s, i) == if Match(a, s, i).Some? then Match(a, s, i) else Match(b, s, i)
  {
  }

  lemma ContinueOne(r: Re, s: Text, i: nat, j: nat)
    requires i <= j <= |s|
    ensures Continue(r, s, i, [j]) == Ends(r, s, j)
  {
    hide Ends;
    assert [j][1..] == [];
    assert Continue(r, s, i, []) == [];
  }

  lemma {:induction false} ContinueAppend(r: Re, s: Text, i: nat, from: seq<nat>, more: seq<nat>)
    requires i <= |s| && (forall k | 0 <= k < |from| :: i <= from[k] <= |s|) && forall k | 0 <= k < |more| :: i <= more[k] <= |s|
    ensures Continue(r, s, i, from + more) == Continue(r, s, i, from) + Continue(r, s, i, more)
    decreases |from|
  {
    hide Ends;
    if from == [] {
      assert from + more == more;
    } else {
      assert (from + more)[1..] == from[1..] + more;
      ContinueAppend(r, s, i, from[1..], more);
    }
  }

  lemma {:induction false} ContinueFrom(r: Re, s: Text, i: nat, j: nat, from: seq<nat>)
    requires i <= j <= |s| && forall k | 0 <= k < |from| :: j <= from[k] <= |s|
    ensures Continue(r, s, i, from) == Continue(r, s, j, from)
    decreases |from|
  {
    hide Ends;
    if from != [] {
      ContinueFrom(r, s, i, j, from[1..]);
    }
  }

  lemma EndsCat(a: Re, b: Re, s: Text, i: nat)
    requires i <= |s|
    ensures Ends(Cat(a, b), s, i) == Continue(b, s, i, Ends(a, s, i))
  {
  }

  lemma MatchOne(p: Char -> bool, b: Re, s: Text, i: nat)
    requires i <= |s|
    ensures Match(Cat(Cls(p), b), s, i) == if i < |s| && p(s[i]) then Match(b, s, i + 1) else None
  {
    hide Continue;
    EndsCat(Cls(p), b, s, i);
    if i < |s| && p(s[i]) {
      ContinueOne(b, s, i, i + 1);
    } else {
      assert Continue(b, s, i, []) == [] by { ContinueNone(b, s, i); }
    }
  }

  lemma ContinueNone(r: Re, s: Text, i: nat)
    requires i <= |s|
    ensures Continue(r, s, i, []) == []
  {
  }

  lemma MatchOpt(p: Char -> bool, b: Re, s: Text, i: nat)
    requires i <= |s|
    ensures Match(Cat(Opt(p), b), s, i) ==
      if i < |s| && p(s[i]) && Match(b, s, i + 1).Some? then Match(b, s, i + 1) else Match(b, s, i)
  {
    hide Continue;
    EndsCat(Opt(p), b, s, i);
    ContinueOne(b, s, i, i);
    if i < |s| && p(s[i]) {
      ContinueOne(b, s, i, i + 1);
      ContinueAppend(b, s, i, [i + 1], [i]);
      assert [i + 1] + [i] == [i + 1, i];
    }
  }

  /** A greedy star gives back one character at a time until the rest matches. */
  lemma {:induction false} MatchStar(p: Char -> bool, b: Re, s: Text, i: nat)
    requires i <= |s|
    ensures Match(Cat(Star(p), b), s, i) ==
      if i < |s| && p(s[i]) && Match(Cat(Star(p), b), s, i + 1).Some? then Match(Cat(Star(p), b), s, i + 1) else Match(b, s, i)
  {
    hide Continue;
    EndsCat(Star(p), b, s, i);
    ContinueOne(b, s, i, i);
    if i < |s| && p(s[i]) {
      EndsCat(Star(p), b, s, i + 1);
      ContinueAppend(b, s, i, Ends(Star(p), s, i + 1), [i]);
      ContinueFrom(b, s, i, i + 1, Ends(Star(p), s, i + 1));
    }
  }

  lemma {:induction false} StarEnd(p: Char -> bool, s: Text, i: nat)
    requires i <= |s|
    ensures Match(Star(p), s, i) == Some(RunEnd(p, s, i))
    decreases |s| - i
  {
    if i < |s| && p(s[i]) {
      StarEnd(p, s, i + 1);
    }
  }

  lemma PlusEnd(p: Char -> bool, s: Text, i: nat)
    requires i <= |s|
    ensures Match(Plus(p), s, i) == if i < |s| && p(s[i]) then Some(RunEnd(p, s, i)) else None
  {
    MatchOne(p, Star(p), s, i);
    if i < |s| && p(s[i]) {
      StarEnd(p, s, i + 1);
    }
  }
}
