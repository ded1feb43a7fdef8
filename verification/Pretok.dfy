/** The hand-written pretokenizer against the split pattern it stands for. */
module Pretok {
  import opened Wire
  import opened Unicode
  import opened Regex
  import opened Wrappers

  datatype Style = Llama3 | Qwen2

  /** The character classes, which the source takes from Unicode tables. */
  datatype Classes = Classes(letter: Char -> bool, num: Char -> bool, ws: Char -> bool)
  {
    function Newline(): Char -> bool { (c: Char) => c == 13 || c == 10 }
    function Prefix(): Char -> bool { (c: Char) => !(c == 13 || c == 10) && !letter(c) && !num(c) }
    function Other(): Char -> bool { (c: Char) => !ws(c) && !letter(c) && !num(c) }
    function NonSpace(): Char -> bool { (c: Char) => !ws(c) }
    function Space(): Char -> bool { (c: Char) => c == 32 }
  }

  /** The few facts about the tables that the proof needs. */
  ghost predicate Facts(k: Classes) {
    && (forall c: Char | c == 32 || c == 13 || c == 10 :: k.ws(c) && !k.letter(c) && !k.num(c))
    && !k.ws(39) && !k.letter(39) && !k.num(39)
  }

  // ---- The pattern --------------------------------------------------------------------

  /** One ASCII letter, either case. */
  function Fold(c: Char): Char -> bool
    requires 97 <= c <= 122
  {
    x => x == c || x + 32 == c
  }

  function Quote(): Char -> bool { c => c == 39 }

  function Short(c: Char): Re
    requires 97 <= c <= 122
  {
    Cat(Cls(Quote()), Cls(Fold(c)))
  }

  function Long(c: Char, d: Char): Re
    requires 97 <= c <= 122 && 97 <= d <= 122
  {
    Cat(Cls(Quote()), Cat(Cls(Fold(c)), Cls(Fold(d))))
  }

  /** 's|'t|'re|'ve|'m|'ll|'d */
  function Contractions(): Re {
    Alt(Short(115), Alt(Short(116), Alt(Long(114, 101), Alt(Long(118, 101), Alt(Short(109), Alt(Long(108, 108), Short(100)))))))
  }

  function Words(k: Classes): Re { Cat(Opt(k.Prefix()), Plus(k.letter)) }

  function Digits(style: Style): nat { if style.Llama3? then 3 else 1 }

  function Numbers(k: Classes, style: Style): Re { Cat(Cls(k.num), AtMost(k.num, Digits(style) - 1)) }

  function Symbols(k: Classes): Re { Cat(Opt(k.Space()), Cat(Plus(k.Other()), Star(k.Newline()))) }

  function Lines(k: Classes): Re { Cat(Star(k.ws), Plus(k.Newline())) }

  function Gap(k: Classes): Re { Cat(Plus(k.ws), NotNext(k.NonSpace())) }

  function Blank(k: Classes): Re { Plus(k.ws) }

  function Pattern(k: Classes, style: Style): Re {
    Alt(Contractions(), Alt(Words(k), Alt(Numbers(k, style), Alt(Symbols(k), Alt(Lines(k), Alt(Gap(k), Blank(k)))))))
  }

  /** The result of one alternative: a byte length, or nothing. */
  ghost predicate Agrees(r: Option<nat>, re: Re, s: Text) {
    match Match(re, s, 0)
    case None => r == None
    case Some(n) => n > 0 && r == Some(Size(s[..n]))
  }

  // ---- 1. Contractions --------------------------------------------------------------------

  function Lower(b: Byte): Byte {
    if 65 <= b <= 90 then b + 32 else b
  }

  /** Bytes after an ASCII prefix are first bytes of characters. */
  lemma ByteAfterAscii(s: Text, k: nat)
    requires k <= |s| && forall j | 0 <= j < k :: s[j] < 0x80
    ensures k < |Encode(s)| <==> k < |s|
    ensures k < |s| ==> Encode(s)[k] == Utf8(s[k])[0]
  {
    if k > 0 {
      ByteAfterAscii(s[1..], k - 1);
    }
  }

  /** Folding the first byte decides the ASCII letter classes. */
  lemma FoldByte(c: Char, l: Char)
    requires 97 <= l <= 122
    ensures Lower(Utf8(c)[0]) == l <==> Fold(l)(c)
    ensures Fold(l)(c) ==> c < 0x80
  {
  }

  lemma ShortMatch(s: Text, c: Char)
    requires 97 <= c <= 122
    ensures Match(Short(c), s, 0) == if |s| >= 2 && s[0] == 39 && Fold(c)(s[1]) then Some(2) else None
  {
    MatchOne(Quote(), Cls(Fold(c)), s, 0);
  }

  lemma LongMatch(s: Text, c: Char, d: Char)
    requires 97 <= c <= 122 && 97 <= d <= 122
    ensures Match(Long(c, d), s, 0) == if |s| >= 3 && s[0] == 39 && Fold(c)(s[1]) && Fold(d)(s[2]) then Some(3) else None
  {
    MatchOne(Quote(), Cat(Cls(Fold(c)), Cls(Fold(d))), s, 0);
    if |s| >= 1 {
      MatchOne(Fold(c), Cls(Fold(d)), s, 1);
    }
  }

  /** Length in characters of the contraction at the start, or zero. */
  function ContractionLen(s: Text): (n: nat)
    ensures n <= |s|
  {
    if |s| < 2 || s[0] != 39 then 0
    else if Fold(115)(s[1]) || Fold(116)(s[1]) || Fold(109)(s[1]) || Fold(100)(s[1]) then 2
    else if |s| >= 3 && ((Fold(114)(s[1]) && Fold(101)(s[2])) || (Fold(118)(s[1]) && Fold(101)(s[2])) || (Fold(108)(s[1]) && Fold(108)(s[2])))
    then 3
    else 0
  }

  lemma ContractionMatch(s: Text)
    ensures Match(Contractions(), s, 0) == if ContractionLen(s) == 0 then None else Some(ContractionLen(s))
  {
    hide Match, Fold;
    var d := Short(100);
    var ll := Alt(Long(108, 108), d);
    var m := Alt(Short(109), ll);
    var ve := Alt(Long(118, 101), m);
    var re := Alt(Long(114, 101), ve);
    var t := Alt(Short(116), re);
    MatchAlt(Short(115), t, s, 0);
    MatchAlt(Short(116), re, s, 0);
    MatchAlt(Long(114, 101), ve, s, 0);
    MatchAlt(Long(118, 101), m, s, 0);
    MatchAlt(Short(109), ll, s, 0);
    MatchAlt(Long(108, 108), d, s, 0);
    ShortMatch(s, 115);
    ShortMatch(s, 116);
    ShortMatch(s, 109);
    ShortMatch(s, 100);
    LongMatch(s, 114, 101);
    LongMatch(s, 118, 101);
    LongMatch(s, 108, 108);
    FoldApart(s);
  }

  lemma FoldApart(s: Text)
    ensures |s| >= 2 ==> !((Fold(115)(s[1]) || Fold(116)(s[1]) || Fold(109)(s[1]) || Fold(100)(s[1]))
                           && (Fold(114)(s[1]) || Fold(118)(s[1]) || Fold(108)(s[1])))
  {
  }

  lemma AsciiSize(s: Text, n: nat)
    requires n <= |s| && forall j | 0 <= j < n :: s[j] < 0x80
    ensures Size(s[..n]) == n
  {
    if n > 0 {
      AsciiSize(s, n - 1);
      SizeNext(s, n - 1);
    }
  }

  method TryContraction(s: Text, b: Bytes) returns (r: Option<nat>)
    requires |s| > 0 && b == Encode(s)
    ensures Agrees(r, Contractions(), s)
  {
    hide Match, Encode, Size, Utf8, Fold;
    ContractionMatch(s);
    r := ContractionBytes(s, b);
  }

  /** The byte tests of the source. */
  method ContractionBytes(s: Text, b: Bytes) returns (r: Option<nat>)
    requires |s| > 0 && b == Encode(s)
    ensures r == if ContractionLen(s) == 0 then None else Some(Size(s[..ContractionLen(s)]))
  {
    hide Encode, Utf8, Fold, Size;
    r := None;
    ByteAfterAscii(s, 0);
    if s[0] == 39 {
      ByteAfterAscii(s, 1);
      if |b| >= 2 {
        FoldBytes(s[1]);
        var c1 := Lower(b[1]);
        if c1 == 115 || c1 == 116 || c1 == 109 || c1 == 100 {
          AsciiSize(s, 2);
          r := Some(2);
        } else if c1 == 114 || c1 == 118 || c1 == 108 {
          ByteAfterAscii(s, 2);
          if |b| >= 3 {
            FoldBytes(s[2]);
            var c2 := Lower(b[2]);
            if (c1 == 114 && c2 == 101) || (c1 == 118 && c2 == 101) || (c1 == 108 && c2 == 108) {
              AsciiSize(s, 3);
              r := Some(3);
            }
          }
        }
      }
    }
  }

  lemma FoldBytes(c: Char)
    ensures forall l: Char | 97 <= l <= 122 :: (Lower(Utf8(c)[0]) == l <==> Fold(l)(c)) && (Fold(l)(c) ==> c < 0x80)
  {
    forall l: Char | 97 <= l <= 122 ensures (Lower(Utf8(c)[0]) == l <==> Fold(l)(c)) && (Fold(l)(c) ==> c < 0x80) {
      FoldByte(c, l);
    }
  }

  // ---- Runs ------------------------------------------------------------------------------------

  /** Scan the run of `p` from character `i`, whose byte offset is `start`. */
  method Scan(p: Char -> bool, s: Text, i: nat, start: nat) returns (k: nat, end: nat)
    requires i <= |s| && start == Size(s[..i])
    ensures k == RunEnd(p, s, i) && end == Size(s[..k])
    ensures i < k ==> start < end
    ensures i == k ==> start == end
  {
    hide Size, Utf8;
    k, end := i, start;
    while k < |s| && p(s[k])
      invariant i <= k <= |s| && end == Size(s[..k]) && RunEnd(p, s, i) == RunEnd(p, s, k)
      invariant if i < k then start < end else start == end
    {
      SizeNext(s, k);
      end := end + |Utf8(s[k])|;
      k := k + 1;
    }
  }

  // ---- 2. Words -----------------------------------------------------------------------------------

  /** Where the letters start, if this alternative matches. */
  function WordStart(k: Classes, s: Text): Option<nat>
    requires |s| > 0
  {
    if k.letter(s[0]) then Some(0)
    else if k.Prefix()(s[0]) && |s| > 1 && k.letter(s[1]) then Some(1)
    else None
  }

  lemma WordMatch(k: Classes, s: Text)
    requires |s| > 0
    ensures Match(Words(k), s, 0) == match WordStart(k, s) case None => None case Some(i) => Some(RunEnd(k.letter, s, i))
  {
    hide Match;
    MatchOpt(k.Prefix(), Plus(k.letter), s, 0);
    PlusEnd(k.letter, s, 0);
    PlusEnd(k.letter, s, 1);
  }

  method TryWord(k: Classes, s: Text) returns (r: Option<nat>)
    requires |s| > 0
    ensures Agrees(r, Words(k), s)
  {
    hide Match, Size, Utf8, Words;
    WordMatch(k, s);
    var c0 := s[0];
    r := None;
    SizeNothing(s);
    SizeNext(s, 0);
    if k.letter(c0) {
      var e, end := Scan(k.letter, s, 0, 0);
      r := Some(end);
    } else if c0 != 13 && c0 != 10 && !k.num(c0) {
      if |s| > 1 && k.letter(s[1]) {
        var e, end := Scan(k.letter, s, 1, |Utf8(c0)|);
        r := Some(end);
      }
    }
  }

  lemma SizeNothing(s: Text)
    ensures Size(s[..0]) == 0
  {
  }

  // ---- 3. Numbers ------------------------------------------------------------------------------------

  /** End of at most `n` characters of `p` from `i`. */
  function Capped(p: Char -> bool, n: nat, s: Text, i: nat): (e: nat)
    requires i <= |s|
    ensures i <= e <= |s|
    decreases n
  {
    if n > 0 && i < |s| && p(s[i]) then Capped(p, n - 1, s, i + 1) else i
  }

  lemma {:induction false} CappedMatch(p: Char -> bool, n: nat, s: Text, i: nat)
    requires i <= |s|
    ensures Match(AtMost(p, n), s, i) == Some(Capped(p, n, s, i))
    decreases n
  {
    if n > 0 && i < |s| && p(s[i]) {
      CappedMatch(p, n - 1, s, i + 1);
      assert Ends(AtMost(p, n - 1), s, i + 1) == Tries(p, n - 1, s, i + 1);
    }
  }

  method TryNumber(k: Classes, style: Style, s: Text) returns (r: Option<nat>)
    requires |s| > 0
    ensures Agrees(r, Numbers(k, style), s)
  {
    hide Match, Size, Utf8;
    MatchOne(k.num, AtMost(k.num, Digits(style) - 1), s, 0);
    SizeNothing(s);
    r := None;
    if k.num(s[0]) {
      CappedMatch(k.num, Digits(style) - 1, s, 1);
      var max := Digits(style);
      var end, n := 0, 0;
      while n < |s| && n < max && k.num(s[n])
        invariant 0 <= n <= max && n <= |s| && end == Size(s[..n])
        invariant Capped(k.num, max, s, 0) == Capped(k.num, max - n, s, n)
      {
        SizeNext(s, n);
        end := end + |Utf8(s[n])|;
        n := n + 1;
      }
      r := Some(end);
    }
  }

  // ---- 4. Symbols ---------------------------------------------------------------------------------------

  function SymbolStart(s: Text): nat
    requires |s| > 0
  {
    if s[0] == 32 then 1 else 0
  }

  /** Continuing a greedy run with a star that always succeeds. */
  lemma {:induction false} RunThenStar(p: Char -> bool, q: Char -> bool, s: Text, i: nat)
    requires i <= |s|
    ensures Match(Cat(Star(p), Star(q)), s, i) == Some(RunEnd(q, s, RunEnd(p, s, i)))
    decreases |s| - i
  {
    hide Match;
    MatchStar(p, Star(q), s, i);
    StarEnd(q, s, i);
    if i < |s| && p(s[i]) {
      RunThenStar(p, q, s, i + 1);
    }
  }

  /** Concatenation associates. */
  lemma CatAssoc(p: Char -> bool, b: Re, c: Re, s: Text, i: nat)
    requires i <= |s|
    ensures Match(Cat(Cat(Cls(p), b), c), s, i) == if i < |s| && p(s[i]) then Match(Cat(b, c), s, i + 1) else None
  {
    hide Continue;
    EndsCat(Cat(Cls(p), b), c, s, i);
    EndsCat(Cls(p), b, s, i);
    if i < |s| && p(s[i]) {
      ContinueOne(b, s, i, i + 1);
      EndsCat(b, c, s, i + 1);
      ContinueFrom(c, s, i, i + 1, Ends(b, s, i + 1));
    } else {
      ContinueNone(b, s, i);
      ContinueNone(c, s, i);
    }
  }

  lemma SymbolMatchAt(k: Classes, s: Text, i: nat)
    requires i <= |s|
    ensures Match(Cat(Plus(k.Other()), Star(k.Newline())), s, i) ==
      if i < |s| && k.Other()(s[i]) then Some(RunEnd(k.Newline(), s, RunEnd(k.Other(), s, i))) else None
  {
    hide Match;
    CatAssoc(k.Other(), Star(k.Other()), Star(k.Newline()), s, i);
    if i < |s| && k.Other()(s[i]) {
      RunThenStar(k.Other(), k.Newline(), s, i + 1);
    }
  }

  lemma SymbolMatch(k: Classes, s: Text)
    requires Facts(k) && |s| > 0
    ensures var i := SymbolStart(s);
      Match(Symbols(k), s, 0) ==
        if i < |s| && k.Other()(s[i]) then Some(RunEnd(k.Newline(), s, RunEnd(k.Other(), s, i))) else None
  {
    hide Match;
    MatchOpt(k.Space(), Cat(Plus(k.Other()), Star(k.Newline())), s, 0);
    SymbolMatchAt(k, s, 0);
    SymbolMatchAt(k, s, 1);
  }

  method TrySymbols(k: Classes, s: Text) returns (r: Option<nat>)
    requires Facts(k) && |s| > 0
    ensures Agrees(r, Symbols(k), s)
  {
    hide Match, Size, Utf8;
    SymbolMatch(k, s);
    var i := SymbolStart(s);
    AsciiSpace(s);
    var e, end := Scan(k.Other(), s, i, i);
    r := None;
    if end > i {
      e, end := Scan(k.Newline(), s, e, end);
      r := Some(end);
    }
  }

  lemma AsciiSpace(s: Text)
    requires |s| > 0
    ensures Size(s[..SymbolStart(s)]) == SymbolStart(s)
  {
    AsciiSize(s, SymbolStart(s));
  }

  // ---- 5 to 7. Whitespace -----------------------------------------------------------------------------------

  /** One past the last newline in `s[i..e]`, or `i`. */
  function LastNewline(k: Classes, s: Text, i: nat, e: nat): (n: nat)
    requires i <= e <= |s|
    ensures i <= n <= e && (n > i ==> k.Newline()(s[n - 1])) && forall j | n <= j < e :: !k.Newline()(s[j])
    decreases e - i
  {
    if e == i then i else if k.Newline()(s[e - 1]) then e else LastNewline(k, s, i, e - 1)
  }

  /** The star gives characters back until a newline follows: the match ends after
      the last newline of the run. */
  lemma {:induction false} LinesMatchFrom(k: Classes, s: Text, i: nat)
    requires Facts(k) && i <= |s|
    ensures var n := LastNewline(k, s, i, RunEnd(k.ws, s, i));
      Match(Lines(k), s, i) == if n == i then None else Some(n)
    decreases |s| - i
  {
    hide Match;
    MatchStar(k.ws, Plus(k.Newline()), s, i);
    PlusEnd(k.Newline(), s, i);
    if i < |s| && k.ws(s[i]) {
      LinesMatchFrom(k, s, i + 1);
      var e := RunEnd(k.ws, s, i);
      LastNewlineStep(k, s, i, e);
      var n := LastNewline(k, s, i + 1, e);
      if n == i + 1 && k.Newline()(s[i]) {
        assert i + 1 < e ==> !k.Newline()(s[i + 1]);
        assert i + 1 == e && e < |s| ==> !k.Newline()(s[e]);
      }
    }
  }

  lemma {:induction false} LastNewlineStep(k: Classes, s: Text, i: nat, e: nat)
    requires i < e <= |s|
    ensures var n := LastNewline(k, s, i + 1, e);
      LastNewline(k, s, i, e) == if n > i + 1 then n else if k.Newline()(s[i]) then i + 1 else i
    decreases e
  {
    if e > i + 1 && !k.Newline()(s[e - 1]) {
      LastNewlineStep(k, s, i, e - 1);
    }
  }

  /** The run gives one character back when a word follows it. */
  lemma {:induction false} GapMatchFrom(k: Classes, s: Text, i: nat)
    requires i <= |s|
    ensures var e := RunEnd(k.ws, s, i);
      Match(Cat(Star(k.ws), NotNext(k.NonSpace())), s, i) ==
        if e == |s| then Some(e) else if e > i then Some(e - 1) else None
    decreases |s| - i
  {
    MatchStar(k.ws, NotNext(k.NonSpace()), s, i);
    if i < |s| && k.ws(s[i]) {
      GapMatchFrom(k, s, i + 1);
    }
  }

  lemma GapMatch(k: Classes, s: Text)
    requires |s| > 0
    ensures var e := RunEnd(k.ws, s, 0);
      Match(Gap(k), s, 0) == if e == 0 then None else if e == |s| then Some(e) else if e > 1 then Some(e - 1) else None
  {
    hide Match;
    CatAssoc(k.ws, Star(k.ws), NotNext(k.NonSpace()), s, 0);
    GapMatchFrom(k, s, 1);
  }

  function Spaces(k: Classes): Re { Alt(Lines(k), Alt(Gap(k), Blank(k))) }

  /** The three whitespace alternatives together. */
  lemma SpacesMatch(k: Classes, s: Text)
    requires Facts(k) && |s| > 0
    ensures var e := RunEnd(k.ws, s, 0); var n := LastNewline(k, s, 0, e);
      Match(Spaces(k), s, 0) ==
        if n > 0 then Some(n) else if 1 < e < |s| then Some(e - 1) else if e > 0 then Some(e) else None
  {
    hide Match;
    MatchAlt(Lines(k), Alt(Gap(k), Blank(k)), s, 0);
    MatchAlt(Gap(k), Blank(k), s, 0);
    LinesMatchFrom(k, s, 0);
    GapMatch(k, s);
    PlusEnd(k.ws, s, 0);
  }

  method TrySpaces(k: Classes, s: Text) returns (r: Option<nat>)
    requires Facts(k) && |s| > 0
    ensures Agrees(r, Spaces(k), s)
  {
    hide Match, Size, Utf8, Spaces;
    SpacesMatch(k, s);
    SizeNothing(s);
    r := None;
    if k.ws(s[0]) {
      var e, runEnd := Scan(k.ws, s, 0, 0);
      var n, at := e, runEnd;
      while n > 0 && !(s[n - 1] == 13 || s[n - 1] == 10)
        invariant 0 <= n <= e && at == Size(s[..n]) && LastNewline(k, s, 0, e) == LastNewline(k, s, 0, n)
        decreases n
      {
        SizeNext(s, n - 1);
        at := at - |Utf8(s[n - 1])|;
        n := n - 1;
      }
      if n > 0 {
        return Some(at);
      }
      Whole(s);
      SizeMono(s, e, |s|);
      if runEnd < Size(s) {
        SizeNext(s, e - 1);
        SizeMono(s, 0, e - 1);
        FirstSize(s, e);
        var lastLen := |Utf8(s[e - 1])|;
        if runEnd > lastLen {
          return Some(runEnd - lastLen);
        }
      }
      r := Some(runEnd);
    }
  }

  lemma Whole(s: Text)
    ensures Size(s[..|s|]) == Size(s)
  {
    assert s[..|s|] == s;
  }

  lemma FirstSize(s: Text, e: nat)
    requires 0 < e <= |s|
    ensures Size(s[..e]) > |Utf8(s[e - 1])| <==> e > 1
  {
    SizeNext(s, e - 1);
    SizeNothing(s);
    SizeMono(s, 0, e - 1);
  }

  // ---- The whole matcher --------------------------------------------------------------------------------------

  /** Some alternative matches, so the source's last line is never reached. */
  lemma SomethingMatches(k: Classes, s: Text)
    requires Facts(k) && |s| > 0
    ensures Match(Words(k), s, 0).Some? || k.num(s[0]) || Match(Symbols(k), s, 0).Some? || k.ws(s[0])
  {
    hide Match;
    WordMatch(k, s);
    SymbolMatch(k, s);
  }

  lemma PatternMatch(k: Classes, style: Style, s: Text)
    requires |s| > 0
    ensures Match(Pattern(k, style), s, 0) ==
      if Match(Contractions(), s, 0).Some? then Match(Contractions(), s, 0)
      else if Match(Words(k), s, 0).Some? then Match(Words(k), s, 0)
      else if Match(Numbers(k, style), s, 0).Some? then Match(Numbers(k, style), s, 0)
      else if Match(Symbols(k), s, 0).Some? then Match(Symbols(k), s, 0)
      else Match(Spaces(k), s, 0)
  {
    hide Match, Contractions, Words, Numbers, Symbols, Lines, Gap, Blank;
    var spaces := Spaces(k);
    var symbols := Alt(Symbols(k), spaces);
    var numbers := Alt(Numbers(k, style), symbols);
    var words := Alt(Words(k), numbers);
    MatchAlt(Contractions(), words, s, 0);
    MatchAlt(Words(k), numbers, s, 0);
    MatchAlt(Numbers(k, style), symbols, s, 0);
    MatchAlt(Symbols(k), spaces, s, 0);
  }

  /** Byte length of the chunk at the start of `s`: the first match of the pattern,
      which always exists and is never empty. */
  method MatchFirst(k: Classes, style: Style, s: Text) returns (len: nat)
    requires Facts(k) && |s| > 0
    ensures Match(Pattern(k, style), s, 0).Some?
    ensures 0 < Match(Pattern(k, style), s, 0).value
    ensures len == Size(s[..Match(Pattern(k, style), s, 0).value])
  {
    hide Match, Size, Pattern, Contractions, Words, Numbers, Symbols, Spaces, Encode;
    PatternMatch(k, style, s);
    var r := TryContraction(s, Encode(s));
    if r.Some? {
      return r.value;
    }
    r := TryWord(k, s);
    if r.Some? {
      return r.value;
    }
    r := TryNumber(k, style, s);
    if r.Some? {
      return r.value;
    }
    r := TrySymbols(k, s);
    if r.Some? {
      return r.value;
    }
    r := TrySpaces(k, s);
    if r.Some? {
      return r.value;
    }
    NothingLeft(k, style, s);
    assert false;
  }

  lemma NothingLeft(k: Classes, style: Style, s: Text)
    requires Facts(k) && |s| > 0
    ensures Match(Pattern(k, style), s, 0).Some?
  {
    hide Match, Pattern, Contractions, Words, Symbols, Spaces;
    PatternMatch(k, style, s);
    SomethingMatches(k, s);
    MatchOne(k.num, AtMost(k.num, Digits(style) - 1), s, 0);
    SpacesMatch(k, s);
    if k.num(s[0]) {
      CappedMatch(k.num, Digits(style) - 1, s, 1);
    }
  }

  // ---- Splitting a text ------------------------------------------------------------------------------------------

  /** Length in characters of the next chunk. */
  ghost function ChunkLen(k: Classes, style: Style, s: Text): (n: nat)
    requires Facts(k) && |s| > 0
    ensures 0 < n <= |s|
  {
    NonEmpty(k, style, s);
    Match(Pattern(k, style), s, 0).value
  }

  lemma NonEmpty(k: Classes, style: Style, s: Text)
    requires Facts(k) && |s| > 0
    ensures Match(Pattern(k, style), s, 0).Some? && 0 < Match(Pattern(k, style), s, 0).value
  {
    hide Match;
    PatternMatch(k, style, s);
    NothingLeft(k, style, s);
    ContractionMatch(s);
    WordMatch(k, s);
    SymbolMatch(k, s);
    SpacesMatch(k, s);
    MatchOne(k.num, AtMost(k.num, Digits(style) - 1), s, 0);
    if k.num(s[0]) {
      CappedMatch(k.num, Digits(style) - 1, s, 1);
    }
  }

  ghost function Split(k: Classes, style: Style, s: Text): seq<Text>
    requires Facts(k)
    decreases |s|
  {
    if s == [] then []
    else var n := ChunkLen(k, style, s); [s[..n]] + Split(k, style, s[n..])
  }

  function Join(cs: seq<Text>): Text {
    if cs == [] then [] else cs[0] + Join(cs[1..])
  }

  /** The chunks are non-empty and concatenate to the text. */
  lemma {:induction false} SplitJoins(k: Classes, style: Style, s: Text)
    requires Facts(k)
    ensures Join(Split(k, style, s)) == s && forall i | 0 <= i < |Split(k, style, s)| :: Split(k, style, s)[i] != []
    decreases |s|
  {
    if s != [] {
      var n := ChunkLen(k, style, s);
      SplitJoins(k, style, s[n..]);
      assert s[..n] + s[n..] == s;
    }
  }

  // ---- Texts of digits ----------------------------------------------------------------------------------------------

  ghost predicate NumberChars(k: Classes, s: Text) {
    forall i | 0 <= i < |s| :: k.num(s[i]) && !k.letter(s[i])
  }

  /** Groups of `n` characters, the last one perhaps shorter. */
  function Groups(s: Text, n: nat): seq<Text>
    requires n > 0
    decreases |s|
  {
    if s == [] then [] else if |s| <= n then [s] else [s[..n]] + Groups(s[n..], n)
  }

  lemma {:induction false} CappedRun(p: Char -> bool, n: nat, s: Text, i: nat)
    requires i <= |s| && forall j | i <= j < |s| :: p(s[j])
    ensures Capped(p, n, s, i) == if |s| - i <= n then |s| else i + n
    decreases n
  {
    if n > 0 && i < |s| {
      CappedRun(p, n - 1, s, i + 1);
    }
  }

  lemma NumberMatch(k: Classes, style: Style, s: Text)
    requires Facts(k) && |s| > 0 && NumberChars(k, s)
    ensures ChunkLen(k, style, s) == if |s| <= Digits(style) then |s| else Digits(style)
  {
    hide Match, Pattern, Contractions, Words, Symbols, Spaces;
    PatternMatch(k, style, s);
    NotQuoted(k, s);
    ContractionMatch(s);
    WordMatch(k, s);
    MatchOne(k.num, AtMost(k.num, Digits(style) - 1), s, 0);
    CappedMatch(k.num, Digits(style) - 1, s, 1);
    CappedRun(k.num, Digits(style) - 1, s, 1);
  }

  lemma NotQuoted(k: Classes, s: Text)
    requires Facts(k) && |s| > 0 && NumberChars(k, s)
    ensures s[0] != 39
  {
  }

  lemma {:induction false} NumbersSplit(k: Classes, style: Style, s: Text)
    requires Facts(k) && NumberChars(k, s)
    ensures Split(k, style, s) == Groups(s, Digits(style))
    decreases |s|
  {
    hide ChunkLen;
    if s != [] {
      NumberMatch(k, style, s);
      var n := ChunkLen(k, style, s);
      NumbersSplit(k, style, s[n..]);
      assert n == |s| ==> s[..n] == s && s[n..] == [];
    }
  }

  // ---- Words and symbols in context ------------------------------------------------------------------------------------

  ghost predicate All(p: Char -> bool, s: Text) {
    forall i | 0 <= i < |s| :: p(s[i])
  }

  lemma {:induction false} RunOver(p: Char -> bool, a: Text, b: Text, i: nat)
    requires i <= |a| && All(p, a) && (b != [] ==> !p(b[0]))
    ensures RunEnd(p, a + b, i) == |a|
    decreases |a| - i
  {
    if i < |a| {
      RunOver(p, a, b, i + 1);
    }
  }

  /** A word takes one character before it that is no letter, digit or newline, such as
      a space, and ends before the first character that is no letter. */
  lemma WordInContext(k: Classes, style: Style, lead: Text, word: Text, rest: Text)
    requires Facts(k) && word != [] && All(k.letter, word) && (rest != [] ==> !k.letter(rest[0]))
    requires |lead| <= 1 && (lead != [] ==> lead[0] != 39 && lead[0] != 13 && lead[0] != 10 && !k.letter(lead[0]) && !k.num(lead[0]))
    ensures ChunkLen(k, style, lead + word + rest) == |lead| + |word|
  {
    hide Match, Pattern, Contractions, Words, Numbers, Symbols, Spaces;
    var s := lead + word + rest;
    assert s[0] != 39;
    PatternMatch(k, style, s);
    ContractionMatch(s);
    WordMatch(k, s);
    if lead == [] {
      assert s == word + rest;
      RunOver(k.letter, word, rest, 0);
    } else {
      assert s[1..] == word + rest;
      RunAfter(k.letter, lead, word, rest);
    }
  }

  lemma RunAfter(p: Char -> bool, lead: Text, a: Text, b: Text)
    requires |lead| == 1 && All(p, a) && (b != [] ==> !p(b[0]))
    ensures RunEnd(p, lead + a + b, 1) == 1 + |a|
  {
    RunAfterFrom(p, lead, a, b, 1);
  }

  lemma {:induction false} RunAfterFrom(p: Char -> bool, lead: Text, a: Text, b: Text, i: nat)
    requires |lead| == 1 && 1 <= i <= 1 + |a| && All(p, a) && (b != [] ==> !p(b[0]))
    ensures RunEnd(p, lead + a + b, i) == 1 + |a|
    decreases |a| + 1 - i
  {
    var s := lead + a + b;
    if i < 1 + |a| {
      assert s[i] == a[i - 1];
      RunAfterFrom(p, lead, a, b, i + 1);
    } else if b != [] {
      assert s[i] == b[0];
    }
  }

  lemma {:induction false} CappedOver(p: Char -> bool, n: nat, a: Text, b: Text, i: nat)
    requires i <= |a| && All(p, a) && (b != [] ==> !p(b[0]))
    ensures Capped(p, n, a + b, i) == if |a| - i <= n then |a| else i + n
    decreases n
  {
    if n > 0 && i < |a| {
      CappedOver(p, n - 1, a, b, i + 1);
    }
  }

  /** Number characters are never part of a word, not even before one: what is cut off
      is the whole run, or as much of it as the style allows. */
  lemma NumberInContext(k: Classes, style: Style, digits: Text, rest: Text)
    requires Facts(k) && digits != [] && NumberChars(k, digits) && (rest != [] ==> !k.num(rest[0]))
    ensures ChunkLen(k, style, digits + rest) == if |digits| <= Digits(style) then |digits| else Digits(style)
  {
    hide Match, Pattern, Contractions, Words, Symbols, Spaces;
    var s := digits + rest;
    PatternMatch(k, style, s);
    NotQuoted(k, digits);
    ContractionMatch(s);
    WordMatch(k, s);
    MatchOne(k.num, AtMost(k.num, Digits(style) - 1), s, 0);
    CappedMatch(k.num, Digits(style) - 1, s, 1);
    CappedOver(k.num, Digits(style) - 1, digits, rest, 1);
  }

  /** A newline is never part of the word behind it. */
  lemma NewlineInContext(k: Classes, style: Style, c: Char, rest: Text)
    requires Facts(k) && (c == 13 || c == 10) && (rest != [] ==> !k.ws(rest[0]))
    ensures ChunkLen(k, style, [c] + rest) == 1
  {
    hide Match, Pattern, Contractions, Words, Numbers, Symbols, Spaces;
    var s := [c] + rest;
    PatternMatch(k, style, s);
    ContractionMatch(s);
    WordMatch(k, s);
    MatchOne(k.num, AtMost(k.num, Digits(style) - 1), s, 0);
    NumbersIs(k, style);
    SymbolMatch(k, s);
    SpacesMatch(k, s);
    assert RunEnd(k.ws, s, 1) == 1;
    assert RunEnd(k.ws, s, 0) == 1;
  }

  /** Symbols: neither space, letter nor number. */
  ghost predicate SymbolChars(k: Classes, s: Text) {
    forall i | 0 <= i < |s| :: !k.ws(s[i]) && !k.letter(s[i]) && !k.num(s[i])
  }

  ghost predicate NewlineChars(s: Text) {
    forall i | 0 <= i < |s| :: s[i] == 13 || s[i] == 10
  }

  /** Two symbols or more take the newlines right behind them along, and nothing else. */
  lemma SymbolsInContext(k: Classes, style: Style, marks: Text, lines: Text, rest: Text)
    requires Facts(k) && |marks| >= 2 && SymbolChars(k, marks) && marks[0] != 39 && NewlineChars(lines)
    requires rest != [] ==> rest[0] != 13 && rest[0] != 10 && (lines != [] || k.ws(rest[0]) || k.letter(rest[0]) || k.num(rest[0]))
    ensures ChunkLen(k, style, marks + lines + rest) == |marks| + |lines|
  {
    hide Match, Pattern, Contractions, Words, Numbers, Symbols, Spaces, RunEnd;
    var s := marks + lines + rest;
    SymbolFirst(k, marks, s);
    PatternMatch(k, style, s);
    ContractionMatch(s);
    WordMatch(k, s);
    MatchOne(k.num, AtMost(k.num, Digits(style) - 1), s, 0);
    NumbersIs(k, style);
    SymbolMatch(k, s);
    assert s == marks + (lines + rest);
    NotOther(k, lines + rest);
    RunOver(k.Other(), marks, lines + rest, 0);
    LinesRun(k, marks, lines, rest, |marks|);
  }

  lemma SymbolFirst(k: Classes, marks: Text, s: Text)
    requires Facts(k) && |marks| >= 2 && SymbolChars(k, marks) && marks[0] != 39 && |s| >= 2 && s[0] == marks[0] && s[1] == marks[1]
    ensures s[0] != 39 && SymbolStart(s) == 0 && k.Other()(s[0]) && !k.num(s[0]) && WordStart(k, s) == None
  {
  }

  lemma NumbersIs(k: Classes, style: Style)
    ensures Numbers(k, style) == Cat(Cls(k.num), AtMost(k.num, Digits(style) - 1))
  {
  }

  lemma NotOther(k: Classes, s: Text)
    requires Facts(k) && (s != [] ==> s[0] == 13 || s[0] == 10 || k.ws(s[0]) || k.letter(s[0]) || k.num(s[0]))
    ensures s != [] ==> !k.Other()(s[0])
  {
  }

  lemma {:induction false} LinesRun(k: Classes, marks: Text, lines: Text, rest: Text, i: nat)
    requires NewlineChars(lines) && |marks| <= i <= |marks| + |lines| && (rest != [] ==> rest[0] != 13 && rest[0] != 10)
    ensures RunEnd(k.Newline(), marks + lines + rest, i) == |marks| + |lines|
    decreases |marks| + |lines| - i
  {
    var s := marks + lines + rest;
    if i < |marks| + |lines| {
      assert s[i] == lines[i - |marks|];
      LinesRun(k, marks, lines, rest, i + 1);
    } else if rest != [] {
      assert s[i] == rest[0];
    }
  }

  /** The character at which byte offset `len` falls. */
  function SplitAt(s: Text, len: nat): (n: nat)
    requires exists n: nat :: n <= |s| && Size(s[..n]) == len
    ensures n <= |s| && Size(s[..n]) == len
  {
    if len == 0 then 0
    else
      SplitStep(s, len);
      var m := 1 + SplitAt(s[1..], len - |Utf8(s[0])|);
      SplitBack(s, m);
      m
  }

  lemma SplitStep(s: Text, len: nat)
    requires len > 0 && exists n: nat :: n <= |s| && Size(s[..n]) == len
    ensures |s| > 0 && len >= |Utf8(s[0])| && exists n: nat :: n <= |s[1..]| && Size(s[1..][..n]) == len - |Utf8(s[0])|
  {
    var n: nat :| n <= |s| && Size(s[..n]) == len;
    assert s[..n][1..] == s[1..][..n - 1];
  }

  lemma SplitBack(s: Text, m: nat)
    requires 0 < m <= |s|
    ensures Size(s[..m]) == |Utf8(s[0])| + Size(s[1..][..m - 1])
  {
    assert s[..m][1..] == s[1..][..m - 1];
  }

  lemma SplitUnique(s: Text, n: nat)
    requires n <= |s|
    ensures SplitAt(s, Size(s[..n])) == n
  {
    var m := SplitAt(s, Size(s[..n]));
    if m < n {
      SizeMono(s, m, n);
    } else if n < m {
      SizeMono(s, n, m);
    }
  }

  class Chunks {
    var rest: Text
    const style: Style

    constructor (text: Text, style: Style)
      ensures rest == text && this.style == style
    {
      rest, this.style := text, style;
    }

    /** The next chunk, cut off at a byte offset that is a character boundary. */
    method Next(k: Classes) returns (chunk: Option<Text>)
      requires Facts(k)
      modifies this`rest
      ensures old(rest) == [] ==> chunk == None && rest == []
      ensures old(rest) != [] ==> chunk == Some(old(rest)[..ChunkLen(k, style, old(rest))]) && rest == old(rest)[ChunkLen(k, style, old(rest))..]
    {
      hide Match, Size, Pattern, SplitAt;
      if rest == [] {
        return None;
      }
      var len := MatchFirst(k, style, rest);
      ghost var n := ChunkLen(k, style, rest);
      SplitUnique(rest, n);
      var m := SplitAt(rest, len);
      chunk := Some(rest[..m]);
      rest := rest[m..];
    }
  }

  lemma SplitNothing(k: Classes, style: Style)
    requires Facts(k)
    ensures Split(k, style, []) == []
  {
  }

  lemma SplitNext(k: Classes, style: Style, s: Text)
    requires Facts(k) && s != []
    ensures var n := ChunkLen(k, style, s); Split(k, style, s) == [s[..n]] + Split(k, style, s[n..])
  {
    hide ChunkLen;
  }

  /** Running the iterator to its end yields the split of the text. */
  method Collect(k: Classes, text: Text, style: Style) returns (cs: seq<Text>)
    requires Facts(k)
    ensures cs == Split(k, style, text) && Join(cs) == text
  {
    hide ChunkLen, Split, Facts;
    var it := new Chunks(text, style);
    SplitNothing(k, style);
    cs := [];
    var chunk := it.Next(k);
    ghost var before := text;
    while chunk.Some?
      invariant it.style == style
      invariant chunk.None? <==> before == []
      invariant before != [] ==> chunk.value == before[..ChunkLen(k, style, before)] && it.rest == before[ChunkLen(k, style, before)..]
      invariant cs + Split(k, style, before) == Split(k, style, text)
      decreases |before|
    {
      SplitNext(k, style, before);
      assert cs + ([chunk.value] + Split(k, style, it.rest)) == (cs + [chunk.value]) + Split(k, style, it.rest);
      cs := cs + [chunk.value];
      before := it.rest;
      chunk := it.Next(k);
    }
    SplitJoins(k, style, text);
  }
}
