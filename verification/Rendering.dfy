/** The tokens of a conversation spell out the chat template's text: with a built blob,
    the bytes of all tokens, markers included, are those of the documented form. */
module Rendering {
  import opened Wire
  import opened Unicode
  import opened Blob
  import opened Build
  import opened Template
  import opened Wrappers
  import Pretok

  // ---- The documented text ------------------------------------------------------------------------

  function RoleStart(f: Family): Text {
    match f
    case FamilyLlama3 => AsText("<|start_header_id|>")
    case FamilyQwen3 => AsText("<|im_start|>")
    case FamilyGranite => AsText("<|start_of_role|>")
  }

  function RoleEnd(f: Family): Text {
    match f
    case FamilyLlama3 => AsText("<|end_header_id|>\n\n")
    case FamilyQwen3 => AsText("\n")
    case FamilyGranite => AsText("<|end_of_role|>")
  }

  function TurnEnd(f: Family): Text {
    match f
    case FamilyLlama3 => AsText("<|eot_id|>")
    case FamilyQwen3 => AsText("<|im_end|>\n")
    case FamilyGranite => AsText("<|end_of_text|>\n")
  }

  /** What asks the model for the next message. */
  function HeaderText(f: Family, role: Text): Text {
    RoleStart(f) + role + RoleEnd(f)
  }

  function MessageText(f: Family, m: Message): Text {
    HeaderText(f, m.role) + m.content + TurnEnd(f)
  }

  function MessagesText(f: Family, ms: seq<Message>): Text {
    if ms == [] then [] else MessageText(f, ms[0]) + MessagesText(f, ms[1..])
  }

  // ---- Markers ----------------------------------------------------------------------------------

  /** Printable characters spell themselves. */
  lemma PrintableLetter(c: Char)
    requires 33 <= c <= 126
    ensures Letter(c) == [c] && Utf8(c) == [c]
  {
    var b: Byte := c;
    assert Spelled(b) == c;
    assert ByteOf(c).Some?;
    SpelledInjective(ByteOf(c).value, b);
  }

  ghost predicate AllPrintable(s: Text) {
    forall i | 0 <= i < |s| :: 33 <= s[i] <= 126
  }

  lemma {:induction false} MarkerRaw(s: Text, control: bool)
    requires AllPrintable(s)
    ensures Decode(s, control) == Encode(s)
    decreases |s|
  {
    if !control && s != [] {
      var n := |s| - 1;
      MarkerRaw(s[..n], false);
      PrintableLetter(s[n]);
      assert s == s[..n] + [s[n]];
      EncodeAppend(s[..n], [s[n]]);
      EncodeOne(s[n]);
    }
  }

  lemma EncodeOne(c: Char)
    ensures Encode([c]) == Utf8(c)
  {
    hide Utf8;
    assert [c][1..] == [];
  }

  lemma LlamaPrintable()
    ensures var n := SlotNames(FamilyLlama3); AllPrintable(n[0]) && AllPrintable(n[1]) && AllPrintable(n[2])
  {
  }

  lemma QwenPrintable()
    ensures var n := SlotNames(FamilyQwen3); AllPrintable(n[0]) && AllPrintable(n[1]) && AllPrintable(n[2])
  {
  }

  lemma GranitePrintable()
    ensures var n := SlotNames(FamilyGranite); AllPrintable(n[0]) && AllPrintable(n[1]) && AllPrintable(n[2])
  {
  }

  lemma NamesPrintable(f: Family)
    ensures var n := SlotNames(f); AllPrintable(n[0]) && AllPrintable(n[1]) && AllPrintable(n[2])
  {
    hide SlotNames, AllPrintable;
    LlamaPrintable();
    QwenPrintable();
    GranitePrintable();
  }

  lemma LlamaTexts()
    ensures var n := SlotNames(FamilyLlama3);
      RoleStart(FamilyLlama3) == n[1] && RoleEnd(FamilyLlama3) == n[2] + BLANK_LINE && TurnEnd(FamilyLlama3) == n[0]
  {
  }

  lemma QwenTexts()
    ensures var n := SlotNames(FamilyQwen3);
      RoleStart(FamilyQwen3) == n[1] && RoleEnd(FamilyQwen3) == NEWLINE && TurnEnd(FamilyQwen3) == n[0] + NEWLINE
  {
  }

  lemma GraniteTexts()
    ensures var n := SlotNames(FamilyGranite);
      RoleStart(FamilyGranite) == n[1] && RoleEnd(FamilyGranite) == n[2] && TurnEnd(FamilyGranite) == n[0] + NEWLINE
  {
  }

  /** The role of the message that opens a conversation. */
  lemma SystemRole()
    ensures SYSTEM == AsText("system")
  {
  }

  /** The three markers of a message stand for their names. */
  lemma MarkersSpelled(s: Source)
    requires Buildable(s) && Fits32(s) && GivenIds(s)
    ensures var t := TokenizerOf(s); var n := SlotNames(s.family);
      && Loaded(t) && TokenBytes(t, t.specials.startHeader) == Encode(n[1])
      && TokenBytes(t, t.specials.endHeader) == Encode(n[2]) && TokenBytes(t, t.specials.eot) == Encode(n[0])
  {
    hide PoolOf, TableBytes, MergeBytes, Words, Resolved, SortByKey, Loaded, TokenBytes, SlotNames, Decode, Encode, FirstId, ByteIdWords;
    BuiltParses(s);
    NamesPrintable(s.family);
    var n := SlotNames(s.family);
    var x := Slots(s).value;
    TokenBack(s, x.startHeader);
    TokenBack(s, x.endHeader);
    TokenBack(s, x.eot);
    MarkerRaw(n[0], Control(s, x.eot));
    MarkerRaw(n[1], Control(s, x.startHeader));
    MarkerRaw(n[2], Control(s, x.endHeader));
  }

  // ---- Whole conversations --------------------------------------------------------------------------

  lemma Encode3(a: Text, b: Text, c: Text)
    ensures Encode(a + b + c) == Encode(a) + Encode(b) + Encode(c)
  {
    EncodeAppend(a + b, c);
    EncodeAppend(a, b);
  }

  lemma Bytes3(t: Tokenizer, a: seq<nat>, b: seq<nat>, c: seq<nat>)
    requires Loaded(t)
    ensures BytesOf(t, a + b + c) == BytesOf(t, a) + BytesOf(t, b) + BytesOf(t, c)
  {
    BytesAppend(t, a + b, c);
    BytesAppend(t, a, b);
  }

  /** What follows the role in a header, and the content in a message. */
  ghost function RoleEndIds(t: Tokenizer, k: Pretok.Classes): seq<nat>
    requires Loaded(t) && Pretok.Facts(k)
  {
    match t.template
    case Llama3 => [t.specials.endHeader] + EncodedText(t, k, BLANK_LINE)
    case ChatMl => EncodedText(t, k, NEWLINE)
    case Granite => [t.specials.endHeader]
  }

  lemma HeaderIs(t: Tokenizer, k: Pretok.Classes, role: Text)
    requires Loaded(t) && Pretok.Facts(k)
    ensures Header(t, k, role) == [t.specials.startHeader] + EncodedText(t, k, role) + RoleEndIds(t, k)
  {
    hide Loaded, Pretok.Facts, EncodedText;
  }

  /** A marker followed by a text. */
  lemma MarkerThen(t: Tokenizer, k: Pretok.Classes, id: nat, name: Text, text: Text)
    requires Faithful(t) && Pretok.Facts(k) && Loaded(t) && TokenBytes(t, id) == Encode(name)
    ensures BytesOf(t, [id]) == Encode(name)
    ensures BytesOf(t, [id] + EncodedText(t, k, text)) == Encode(name + text)
  {
    hide Faithful, Loaded, BytesOf, EncodedText, Encode, TokenBytes, Pretok.Facts;
    TextRoundTrip(t, k, text);
    BytesSingle(t, id);
    BytesAppend(t, [id], EncodedText(t, k, text));
    EncodeAppend(name, text);
  }

  /** What the two lemmas below need of a built blob. */
  ghost predicate Spells(t: Tokenizer, f: Family) {
    && Faithful(t) && TokenBytes(t, t.specials.startHeader) == Encode(SlotNames(f)[1])
    && TokenBytes(t, t.specials.endHeader) == Encode(SlotNames(f)[2]) && TokenBytes(t, t.specials.eot) == Encode(SlotNames(f)[0])
    && t.template == match f case FamilyLlama3 => Blob.Llama3 case FamilyQwen3 => Blob.ChatMl case FamilyGranite => Blob.Granite
  }

  lemma BuiltSpells(s: Source)
    requires Buildable(s) && Fits32(s) && GivenIds(s)
    ensures Loaded(TokenizerOf(s)) && Spells(TokenizerOf(s), s.family)
  {
    hide Buildable, TokenizerOf, Loaded, Faithful, TokenBytes, SlotNames, Encode;
    BuiltIsFaithful(s);
    FaithfulLoaded(TokenizerOf(s));
    MarkersSpelled(s);
    TemplateIs(s);
  }

  lemma StartBytes(t: Tokenizer, f: Family)
    requires Loaded(t) && Spells(t, f)
    ensures BytesOf(t, [t.specials.startHeader]) == Encode(RoleStart(f))
  {
    hide Loaded, Faithful, BytesOf, Encode, TokenBytes, SlotNames, RoleStart;
    BytesSingle(t, t.specials.startHeader);
    LlamaTexts();
    QwenTexts();
    GraniteTexts();
  }

  lemma RoleEndBytes(t: Tokenizer, k: Pretok.Classes, f: Family)
    requires Loaded(t) && Spells(t, f) && Pretok.Facts(k)
    ensures BytesOf(t, RoleEndIds(t, k)) == Encode(RoleEnd(f))
  {
    hide Loaded, Faithful, BytesOf, EncodedText, Encode, TokenBytes, Pretok.Facts, SlotNames, RoleStart, RoleEnd, TurnEnd;
    var n := SlotNames(f)[2];
    match f
    case FamilyLlama3 =>
      LlamaTexts();
      MarkerThen(t, k, t.specials.endHeader, n, BLANK_LINE);
    case FamilyQwen3 =>
      QwenTexts();
      TextRoundTrip(t, k, NEWLINE);
    case FamilyGranite =>
      GraniteTexts();
      MarkerThen(t, k, t.specials.endHeader, n, NEWLINE);
  }

  lemma TurnEndBytes(t: Tokenizer, k: Pretok.Classes, f: Family)
    requires Loaded(t) && Spells(t, f) && Pretok.Facts(k)
    ensures BytesOf(t, [t.specials.eot] + Closing(t, k)) == Encode(TurnEnd(f))
  {
    hide Loaded, Faithful, BytesOf, EncodedText, Encode, TokenBytes, Pretok.Facts, SlotNames, RoleStart, RoleEnd, TurnEnd;
    var n := SlotNames(f)[0];
    MarkerThen(t, k, t.specials.eot, n, NEWLINE);
    match f
    case FamilyLlama3 =>
      LlamaTexts();
      NothingAfter(t, k);
    case FamilyQwen3 =>
      QwenTexts();
    case FamilyGranite =>
      GraniteTexts();
  }

  lemma NothingAfter(t: Tokenizer, k: Pretok.Classes)
    requires Loaded(t) && Pretok.Facts(k) && t.template == Blob.Llama3
    ensures [t.specials.eot] + Closing(t, k) == [t.specials.eot]
  {
  }

  lemma HeaderBytes(s: Source, k: Pretok.Classes, role: Text)
    requires Buildable(s) && Fits32(s) && GivenIds(s) && Pretok.Facts(k)
    ensures Loaded(TokenizerOf(s)) && BytesOf(TokenizerOf(s), Header(TokenizerOf(s), k, role)) == Encode(HeaderText(s.family, role))
  {
    hide Buildable, TokenizerOf, Loaded, Spells, Faithful, BytesOf, EncodedText, Encode, RoleEndIds, Closing, Pretok.Facts, RoleStart, RoleEnd, TurnEnd, Header;
    var t := TokenizerOf(s);
    BuiltIsFaithful(s);
    FaithfulLoaded(t);
    BuiltSpells(s);
    StartBytes(t, s.family);
    RoleEndBytes(t, k, s.family);
    HeaderIs(t, k, role);
    TextRoundTrip(t, k, role);
    Bytes3(t, [t.specials.startHeader], EncodedText(t, k, role), RoleEndIds(t, k));
    Encode3(RoleStart(s.family), role, RoleEnd(s.family));
  }

  lemma TemplateIs(s: Source)
    requires Buildable(s)
    ensures TokenizerOf(s).template ==
      match s.family case FamilyLlama3 => Blob.Llama3 case FamilyQwen3 => Blob.ChatMl case FamilyGranite => Blob.Granite
  {
  }

  /** One message. */
  lemma MessageBytes(s: Source, k: Pretok.Classes, m: Message)
    requires Buildable(s) && Fits32(s) && GivenIds(s) && Pretok.Facts(k)
    ensures Loaded(TokenizerOf(s)) && BytesOf(TokenizerOf(s), MessageIds(TokenizerOf(s), k, m)) == Encode(MessageText(s.family, m))
  {
    hide Buildable, TokenizerOf, Loaded, Spells, Faithful, BytesOf, EncodedText, Encode, Pretok.Facts, Header, Closing, HeaderText, TurnEnd, RoleEndIds;
    var t := TokenizerOf(s);
    BuiltIsFaithful(s);
    FaithfulLoaded(t);
    HeaderBytes(s, k, m.role);
    BuiltSpells(s);
    TurnEndBytes(t, k, s.family);
    TextRoundTrip(t, k, m.content);
    var h, c, e := Header(t, k, m.role), EncodedText(t, k, m.content), [t.specials.eot] + Closing(t, k);
    assert MessageIds(t, k, m) == h + c + e;
    Bytes3(t, h, c, e);
    Encode3(HeaderText(s.family, m.role), m.content, TurnEnd(s.family));
  }

  lemma {:induction false} MessagesBytes(s: Source, k: Pretok.Classes, ms: seq<Message>)
    requires Buildable(s) && Fits32(s) && GivenIds(s) && Pretok.Facts(k)
    ensures Loaded(TokenizerOf(s)) && BytesOf(TokenizerOf(s), AllIds(TokenizerOf(s), k, ms)) == Encode(MessagesText(s.family, ms))
    decreases |ms|
  {
    hide Buildable, TokenizerOf, Loaded, Faithful, MessageIds, MessageText, TokenBytes, Pretok.Facts, Utf8;
    BuiltIsFaithful(s);
    FaithfulLoaded(TokenizerOf(s));
    if ms != [] {
      MessageBytes(s, k, ms[0]);
      MessagesBytes(s, k, ms[1..]);
      BytesAppend(TokenizerOf(s), MessageIds(TokenizerOf(s), k, ms[0]), AllIds(TokenizerOf(s), k, ms[1..]));
      EncodeAppend(MessageText(s.family, ms[0]), MessagesText(s.family, ms[1..]));
    }
  }

  /** A whole prompt, from the opening token to the header of the answer. Only Llama 3
      conversations open with a token of their own, the one given by number. */
  lemma PromptBytes(s: Source, k: Pretok.Classes, ms: seq<Message>, role: Text)
    requires Buildable(s) && Fits32(s) && GivenIds(s) && Pretok.Facts(k)
    ensures var t := TokenizerOf(s);
      && ParseSpec(BlobOf(s)).Ok? && ParseSpec(BlobOf(s)).value == t && Loaded(t)
      && BytesOf(t, Conversation(t, k, ms) + Header(t, k, role)) ==
           (if s.family.FamilyLlama3? then TokenBytes(t, s.bos) else []) + Encode(MessagesText(s.family, ms) + HeaderText(s.family, role))
  {
    hide Buildable, Loaded, Faithful, AllIds, MessagesText, HeaderText, Header, TokenBytes, Pretok.Facts, Encode, BytesOf, ParseSpec, BlobOf;
    hide PoolOf, TableBytes, MergeBytes, Words, Resolved, SortByKey, SlotNames, Literal, ByteIdWords, MergesOf;
    var t := TokenizerOf(s);
    BuiltIsFaithful(s);
    FaithfulLoaded(t);
    TemplateIs(s);
    GivenBos(s);
    MessagesBytes(s, k, ms);
    HeaderBytes(s, k, role);
    Bytes3(t, Opening(t), AllIds(t, k, ms), Header(t, k, role));
    EncodeAppend(MessagesText(s.family, ms), HeaderText(s.family, role));
    BytesSingle(t, s.bos);
    NoBytes(t);
  }

  lemma GivenBos(s: Source)
    requires Buildable(s)
    ensures TokenizerOf(s).specials.bos == s.bos
  {
  }

  lemma NoBytes(t: Tokenizer)
    requires Loaded(t)
    ensures BytesOf(t, []) == []
  {
  }

  /** No text, whatever it spells, is encoded with a token of type control (3) or
      user-defined (4). */
  lemma NeverFromText(s: Source, k: Pretok.Classes, text: Text, id: nat)
    requires Buildable(s) && Fits32(s) && GivenIds(s) && Pretok.Facts(k)
    requires id < |s.tokens| && id < |s.types| && (s.types[id] == 3 || s.types[id] == 4)
    ensures ParseSpec(BlobOf(s)) == Ok(TokenizerOf(s)) && Loaded(TokenizerOf(s)) && id !in EncodedText(TokenizerOf(s), k, text)
  {
    hide Buildable, TokenizerOf, Loaded, Faithful, EncodedText, IsControl, ParseSpec, BlobOf, BytesOf, Pretok.Facts;
    BuiltIsFaithful(s);
    FaithfulLoaded(TokenizerOf(s));
    TextRoundTrip(TokenizerOf(s), k, text);
    TokenBack(s, id);
  }
}
