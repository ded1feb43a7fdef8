/** Chat templates: wrapping roles and contents in control tokens, and the proof
    that a conversation can be read back from its tokens in only one way. The
    argument cuts a token list at its first control token, again and again. */
module Template {
  import opened Unicode
  import opened Blob
  import opened Wire
  import opened Wrappers
  import Flush
  import Pretok

  datatype Message = Message(role: Text, content: Text)

  const NEWLINE: Text := [10]
  const BLANK_LINE: Text := [10, 10]
  const SYSTEM: Text := [115, 121, 115, 116, 101, 109]

  // ---- Token lists --------------------------------------------------------------------

  ghost function Header(t: Tokenizer, k: Pretok.Classes, role: Text): seq<nat>
    requires Loaded(t) && Pretok.Facts(k)
  {
    match t.template
    case Llama3 => [t.specials.startHeader] + EncodedText(t, k, role) + [t.specials.endHeader] + EncodedText(t, k, BLANK_LINE)
    case ChatMl => [t.specials.startHeader] + EncodedText(t, k, role) + EncodedText(t, k, NEWLINE)
    case Granite => [t.specials.startHeader] + EncodedText(t, k, role) + [t.specials.endHeader]
  }

  ghost function Closing(t: Tokenizer, k: Pretok.Classes): seq<nat>
    requires Loaded(t) && Pretok.Facts(k)
  {
    if t.template.Llama3? then [] else EncodedText(t, k, NEWLINE)
  }

  ghost function MessageIds(t: Tokenizer, k: Pretok.Classes, m: Message): seq<nat>
    requires Loaded(t) && Pretok.Facts(k)
  {
    Header(t, k, m.role) + EncodedText(t, k, m.content) + [t.specials.eot] + Closing(t, k)
  }

  ghost function AllIds(t: Tokenizer, k: Pretok.Classes, ms: seq<Message>): seq<nat>
    requires Loaded(t) && Pretok.Facts(k)
  {
    if ms == [] then [] else MessageIds(t, k, ms[0]) + AllIds(t, k, ms[1..])
  }

  ghost function Opening(t: Tokenizer): seq<nat> {
    if t.template.Llama3? then [t.specials.bos] else []
  }

  /** A whole conversation, system message included. */
  ghost function Conversation(t: Tokenizer, k: Pretok.Classes, ms: seq<Message>): seq<nat>
    requires Loaded(t) && Pretok.Facts(k)
  {
    Opening(t) + AllIds(t, k, ms)
  }

  // ---- The encoder's pushes ---------------------------------------------------------------

  method EncodeHeader(t: Tokenizer, k: Pretok.Classes, role: Text, out: Output)
    requires Loaded(t) && Pretok.Facts(k)
    modifies out
    ensures out.ids == old(out.ids) + Header(t, k, role)
  {
    hide Loaded, EncodedText, Pretok.Facts;
    match t.template {
      case Llama3 =>
        out.Push(t.specials.startHeader);
        EncodeText(t, k, role, out);
        out.Push(t.specials.endHeader);
        EncodeText(t, k, BLANK_LINE, out);
      case ChatMl =>
        out.Push(t.specials.startHeader);
        EncodeText(t, k, role, out);
        EncodeText(t, k, NEWLINE, out);
      case Granite =>
        out.Push(t.specials.startHeader);
        EncodeText(t, k, role, out);
        out.Push(t.specials.endHeader);
    }
  }

  method EncodeMessage(t: Tokenizer, k: Pretok.Classes, m: Message, out: Output)
    requires Loaded(t) && Pretok.Facts(k)
    modifies out
    ensures out.ids == old(out.ids) + MessageIds(t, k, m)
  {
    hide Loaded, EncodedText, Pretok.Facts, Header;
    EncodeHeader(t, k, m.role, out);
    EncodeText(t, k, m.content, out);
    out.Push(t.specials.eot);
    if t.template.ChatMl? || t.template.Granite? {
      EncodeText(t, k, NEWLINE, out);
    }
  }

  method EncodeConversationStart(t: Tokenizer, k: Pretok.Classes, system: Option<Text>, out: Output)
    requires Loaded(t) && Pretok.Facts(k)
    modifies out
    ensures out.ids == old(out.ids) + Conversation(t, k, if system.Some? then [Message(SYSTEM, system.value)] else [])
  {
    hide Loaded, MessageIds, Pretok.Facts;
    if t.template.Llama3? {
      out.Push(t.specials.bos);
    }
    if system.Some? {
      var m := Message(SYSTEM, system.value);
      EncodeMessage(t, k, m, out);
      assert [m][1..] == [];
      assert AllIds(t, k, [m]) == MessageIds(t, k, m) + AllIds(t, k, []);
    }
  }

  // ---- Reading back ---------------------------------------------------------------------------

  /** The specials a message is built from are control tokens. */
  ghost predicate Marked(t: Tokenizer)
    requires Loaded(t)
  {
    && IsControl(t, t.specials.startHeader) && IsControl(t, t.specials.eot)
    && (!t.template.ChatMl? ==> IsControl(t, t.specials.endHeader))
  }

  /** A list is cut at its first control token in only one way. */
  lemma {:induction false} FirstControl(t: Tokenizer, x: seq<nat>, c: nat, y: seq<nat>, x': seq<nat>, c': nat, y': seq<nat>)
    requires Loaded(t) && Plain(t, x) && Plain(t, x') && IsControl(t, c) && IsControl(t, c')
    requires x + [c] + y == x' + [c'] + y'
    ensures x == x' && c == c' && y == y'
  {
    hide Loaded, IsControl;
    var whole := x + [c] + y;
    assert whole[|x|] == c && whole[|x'|] == c';
    assert |x| == |x'|;
    assert x == whole[..|x|] == x';
    assert whole[|x|] == c == (x' + [c'] + y')[|x'|];
    assert y == whole[|x| + 1..] == y';
  }

  lemma EncodeInjective(a: Text, b: Text)
    requires Encode(a) == Encode(b)
    ensures a == b
  {
    Flush.ValidUnchanged(a, []);
    Flush.ValidUnchanged(b, []);
    assert Encode(a) + [] == Encode(a) && Encode(b) + [] == Encode(b);
  }

  /** Different texts have different tokens. */
  lemma TextInjective(t: Tokenizer, k: Pretok.Classes, a: Text, b: Text)
    requires Faithful(t) && Pretok.Facts(k) && EncodedText(t, k, a) == EncodedText(t, k, b)
    ensures a == b
  {
    hide EncodedText, Faithful, BytesOf, Pretok.Facts;
    FaithfulLoaded(t);
    TextRoundTrip(t, k, a);
    TextRoundTrip(t, k, b);
    EncodeInjective(a, b);
  }

  lemma NewlineFirst(a: Text, b: Text, a': Text, b': Text)
    requires 10 !in a && 10 !in a' && a + [10] + b == a' + [10] + b'
    ensures a == a' && b == b'
  {
    var whole := a + [10] + b;
    assert whole[|a|] == 10 && whole[|a'|] == 10;
    assert |a| == |a'|;
    assert a == whole[..|a|] == a';
    assert b == whole[|a| + 1..] == b';
  }

  lemma Cancel(p: seq<nat>, a: seq<nat>, b: seq<nat>)
    requires p + a == p + b
    ensures a == b
  {
    assert a == (p + a)[|p|..] && b == (p + b)[|p|..];
  }

  lemma PlainAppend(t: Tokenizer, a: seq<nat>, b: seq<nat>)
    requires Loaded(t) && Plain(t, a) && Plain(t, b)
    ensures Plain(t, a + b)
  {
    hide Loaded, IsControl;
  }

  /** What follows the first marker of a message. */
  ghost function Body(t: Tokenizer, k: Pretok.Classes, m: Message): seq<nat>
    requires Loaded(t) && Pretok.Facts(k)
  {
    var r, c := EncodedText(t, k, m.role), EncodedText(t, k, m.content);
    match t.template
    case Llama3 => r + [t.specials.endHeader] + (EncodedText(t, k, BLANK_LINE) + c)
    case ChatMl => r + EncodedText(t, k, NEWLINE) + c
    case Granite => r + [t.specials.endHeader] + c
  }

  lemma MessageShape(t: Tokenizer, k: Pretok.Classes, m: Message, rest: seq<nat>)
    requires Loaded(t) && Pretok.Facts(k)
    ensures MessageIds(t, k, m) + rest == [t.specials.startHeader] + (Body(t, k, m) + [t.specials.eot] + (Closing(t, k) + rest))
  {
    hide Loaded, EncodedText, Pretok.Facts;
  }

  /** Two messages followed by anything agree only if they are the same message
      followed by the same thing: templates that mark the end of the role. */
  lemma MarkedRole(t: Tokenizer, k: Pretok.Classes, a: Message, b: Message, x: seq<nat>, y: seq<nat>)
    requires Faithful(t) && Marked(t) && Pretok.Facts(k) && !t.template.ChatMl?
    requires Body(t, k, a) + [t.specials.eot] + x == Body(t, k, b) + [t.specials.eot] + y
    ensures a == b && x == y
  {
    hide EncodedText, Pretok.Facts, Loaded, IsControl, FaithfulMerge, ByteToken, TokenBytes;
    var lead := if t.template.Llama3? then EncodedText(t, k, BLANK_LINE) else [];
    var ra, ca := EncodedText(t, k, a.role), EncodedText(t, k, a.content);
    var rb, cb := EncodedText(t, k, b.role), EncodedText(t, k, b.content);
    AllPlain(t, k, a);
    AllPlain(t, k, b);
    var eh, eot := t.specials.endHeader, t.specials.eot;
    assert Body(t, k, a) + [eot] + x == ra + [eh] + ((lead + ca) + [eot] + x);
    assert Body(t, k, b) + [eot] + y == rb + [eh] + ((lead + cb) + [eot] + y);
    FirstControl(t, ra, eh, (lead + ca) + [eot] + x, rb, eh, (lead + cb) + [eot] + y);
    PlainAppend(t, lead, ca);
    PlainAppend(t, lead, cb);
    FirstControl(t, lead + ca, eot, x, lead + cb, eot, y);
    Cancel(lead, ca, cb);
    TextInjective(t, k, a.role, b.role);
    TextInjective(t, k, a.content, b.content);
  }

  lemma AllPlain(t: Tokenizer, k: Pretok.Classes, m: Message)
    requires Faithful(t) && Pretok.Facts(k)
    ensures Plain(t, EncodedText(t, k, m.role)) && Plain(t, EncodedText(t, k, m.content))
    ensures Plain(t, EncodedText(t, k, BLANK_LINE)) && Plain(t, EncodedText(t, k, NEWLINE))
  {
    hide EncodedText, Faithful, BytesOf, Pretok.Facts, Plain;
    FaithfulLoaded(t);
    TextRoundTrip(t, k, m.role);
    TextRoundTrip(t, k, m.content);
    TextRoundTrip(t, k, BLANK_LINE);
    TextRoundTrip(t, k, NEWLINE);
  }

  /** The same where only a newline ends the role. */
  lemma NewlineRole(t: Tokenizer, k: Pretok.Classes, a: Message, b: Message, x: seq<nat>, y: seq<nat>)
    requires Faithful(t) && Marked(t) && Pretok.Facts(k) && t.template.ChatMl? && 10 !in a.role && 10 !in b.role
    requires Body(t, k, a) + [t.specials.eot] + x == Body(t, k, b) + [t.specials.eot] + y
    ensures a == b && x == y
  {
    hide EncodedText, Pretok.Facts, Loaded, IsControl, FaithfulMerge, ByteToken, TokenBytes, BytesOf;
    AllPlain(t, k, a);
    AllPlain(t, k, b);
    var nl := EncodedText(t, k, NEWLINE);
    PlainAppend(t, EncodedText(t, k, a.role), nl);
    PlainAppend(t, EncodedText(t, k, a.role) + nl, EncodedText(t, k, a.content));
    PlainAppend(t, EncodedText(t, k, b.role), nl);
    PlainAppend(t, EncodedText(t, k, b.role) + nl, EncodedText(t, k, b.content));
    FirstControl(t, Body(t, k, a), t.specials.eot, x, Body(t, k, b), t.specials.eot, y);
    BodyBytes(t, k, a);
    BodyBytes(t, k, b);
    EncodeInjective(a.role + NEWLINE + a.content, b.role + NEWLINE + b.content);
    NewlineFirst(a.role, a.content, b.role, b.content);
  }

  lemma BodyBytes(t: Tokenizer, k: Pretok.Classes, m: Message)
    requires Faithful(t) && Pretok.Facts(k) && t.template.ChatMl?
    ensures BytesOf(t, Body(t, k, m)) == Encode(m.role + NEWLINE + m.content)
  {
    hide EncodedText, Pretok.Facts, Faithful, BytesOf, Encode;
    FaithfulLoaded(t);
    var r, nl, c := EncodedText(t, k, m.role), EncodedText(t, k, NEWLINE), EncodedText(t, k, m.content);
    BytesAppend(t, r, nl);
    BytesAppend(t, r + nl, c);
    TextRoundTrip(t, k, m.role);
    TextRoundTrip(t, k, NEWLINE);
    TextRoundTrip(t, k, m.content);
    EncodeAppend(m.role, NEWLINE);
    EncodeAppend(m.role + NEWLINE, m.content);
  }

  ghost predicate RolesOk(t: Tokenizer, ms: seq<Message>) {
    t.template.ChatMl? ==> forall i | 0 <= i < |ms| :: 10 !in ms[i].role
  }

  lemma {:induction false} UniqueMessages(t: Tokenizer, k: Pretok.Classes, a: seq<Message>, b: seq<Message>)
    requires Faithful(t) && Marked(t) && Pretok.Facts(k) && RolesOk(t, a) && RolesOk(t, b)
    requires AllIds(t, k, a) == AllIds(t, k, b)
    ensures a == b
    decreases |a|
  {
    hide MessageIds, Pretok.Facts, Body, Closing, IsControl, FaithfulMerge, ByteToken, TokenBytes;
    if a != [] {
      MessageShape(t, k, a[0], AllIds(t, k, a[1..]));
    }
    if b != [] {
      MessageShape(t, k, b[0], AllIds(t, k, b[1..]));
    }
    if a != [] && b != [] {
      var x, y := Closing(t, k) + AllIds(t, k, a[1..]), Closing(t, k) + AllIds(t, k, b[1..]);
      Cancel([t.specials.startHeader], Body(t, k, a[0]) + [t.specials.eot] + x, Body(t, k, b[0]) + [t.specials.eot] + y);
      if t.template.ChatMl? {
        NewlineRole(t, k, a[0], b[0], x, y);
      } else {
        MarkedRole(t, k, a[0], b[0], x, y);
      }
      Cancel(Closing(t, k), AllIds(t, k, a[1..]), AllIds(t, k, b[1..]));
      UniqueMessages(t, k, a[1..], b[1..]);
      assert a == [a[0]] + a[1..] && b == [b[0]] + b[1..];
    }
  }

  /** An encoded conversation determines its list of roles and contents, for all
      three templates, whatever control-token text the contents contain. */
  lemma UniqueConversation(t: Tokenizer, k: Pretok.Classes, a: seq<Message>, b: seq<Message>)
    requires Faithful(t) && Marked(t) && Pretok.Facts(k) && RolesOk(t, a) && RolesOk(t, b)
    requires Conversation(t, k, a) == Conversation(t, k, b)
    ensures a == b
  {
    hide AllIds, Pretok.Facts, IsControl, FaithfulMerge, ByteToken, TokenBytes;
    Cancel(Opening(t), AllIds(t, k, a), AllIds(t, k, b));
    UniqueMessages(t, k, a, b);
  }
}
