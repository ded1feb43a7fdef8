/** What a receiver refuses: the exact conditions on the bytes of a frame under which
    it answers with a datagram or an echo reply, and what damage does to a datagram. */
module Refusals {
  import opened Wire
  import opened Checksum
  import opened Wrappers
  import opened Net

  /** A verified sum: a multiple of 65535, and not zero. */
  predicate Verified(sum: nat) {
    sum > 0 && sum % 65535 == 0
  }

  lemma FinalizeIff(sum: nat)
    ensures Finalize(sum) == 0 <==> Verified(sum)
  {
    hide Fold;
    FoldIsResidue(sum);
    if sum > 0 {
      FullResidue(sum / 65535, sum % 65535);
    }
  }

  /** The representative is the full 65535 exactly for multiples. */
  lemma FullResidue(q: nat, m: nat)
    requires m < 65535 && 65535 * q + m > 0
    ensures Residue(65535 * q + m) == 65535 <==> m == 0
  {
    if m == 0 {
      LastPlace(q - 1, 65534);
    } else {
      LastPlace(q, m - 1);
    }
  }

  lemma LastPlace(q: nat, r: nat)
    requires r < 65535
    ensures (65535 * q + r) % 65535 == r
  {
  }

  function WordAt(b: Bytes, i: nat): nat
    requires i + 2 <= |b|
  {
    var hi: nat, lo: nat := b[i], b[i + 1];
    256 * hi + lo
  }

  lemma TwoBytes(b: Bytes, i: nat)
    requires i + 2 <= |b|
    ensures BeNum(b[i..i + 2]) == WordAt(b, i)
  {
    var s := b[i..i + 2];
    Pow256Values();
    assert s[..1] == [b[i]] && [b[i]][..0] == [];
    assert BeNum([]) == 0;
    assert BeNum([b[i]]) == b[i];
  }

  // ---- Conditions on the bytes ---------------------------------------------------------------

  /** Addressed to this interface and of the type of IPv4. */
  predicate ToInterface(c: Config, f: Bytes) {
    |f| >= 14 && (f[..6] == c.mac || f[..6] == [255, 255, 255, 255, 255, 255]) && WordAt(f, 12) == 0x0800
  }

  function HeaderBytes(f: Bytes): nat
    requires |f| >= 34
  {
    f[14] % 16 * 4
  }

  /** A whole IPv4 packet that is no fragment, with a header whose sum verifies. */
  predicate SoundHeader(f: Bytes) {
    && |f| >= 34 && f[14] / 16 == 4
    && 20 <= HeaderBytes(f) <= WordAt(f, 16) <= |f| - 14
    && Verified(Sum16(f[14..14 + HeaderBytes(f)]))
    && WordAt(f, 20) % 0x4000 == 0
  }

  predicate ToAddress(c: Config, f: Bytes)
    requires |f| >= 34
  {
    f[30..34] == c.address || f[30..34] == [255, 255, 255, 255]
  }

  /** What the header carries. */
  function Carried(f: Bytes): Bytes
    requires SoundHeader(f)
  {
    f[14 + HeaderBytes(f)..14 + WordAt(f, 16)]
  }

  /** A UDP packet that is long enough and, if it stores a checksum, verifies together
      with both addresses, the protocol number and its length. */
  predicate SoundUdp(source: Bytes, destination: Bytes, p: Bytes) {
    && |p| >= 8 && 8 <= WordAt(p, 4) <= |p|
    && (WordAt(p, 6) == 0 || Verified(Sum16(source) + Sum16(destination) + 17 + WordAt(p, 4) + Sum16(p[..WordAt(p, 4)])))
  }

  predicate SoundEcho(p: Bytes) {
    |p| >= 8 && Verified(Sum16(p)) && p[0] == 8 && p[1] == 0
  }

  // ---- When a frame is accepted -----------------------------------------------------------------

  lemma UdpIff(source: Ip, destination: Ip, p: Bytes)
    ensures ParseUdp(source, destination, p).Ok? <==> SoundUdp(source, destination, p)
    ensures SoundUdp(source, destination, p) ==>
      ParseUdp(source, destination, p).value == Datagram(source, destination, WordAt(p, 0), WordAt(p, 2), p[8..WordAt(p, 4)])
  {
    hide BeNum, Sum16, Finalize;
    if |p| >= 8 {
      TwoBytes(p, 4);
      var len := WordAt(p, 4);
      if 8 <= len <= |p| {
        var q := p[..len];
        TwoBytes(q, 0);
        TwoBytes(q, 2);
        TwoBytes(q, 6);
        FinalizeIff(TransportSum(source, destination, 17, q));
        assert q[UDP..] == p[8..len];
      }
    }
  }

  lemma HeaderFields(f: Bytes)
    requires |f| >= 34
    ensures var p := f[14..];
      && p[0] == f[14] && p[9] == f[23] && BeNum(p[2..4]) == WordAt(f, 16) && BeNum(p[6..8]) == WordAt(f, 20)
      && p[12..16] == f[26..30] && p[16..20] == f[30..34]
  {
    hide BeNum;
    TwoBytes(f, 16);
    TwoBytes(f, 20);
    assert f[14..][2..4] == f[16..18] && f[14..][6..8] == f[20..22];
  }

  /** Once the header is sound and addressed here, the packet it carries decides. */
  lemma SoundDecides(c: Config, f: Bytes, room: nat)
    requires |f| >= 34 && SoundHeader(f) && ToAddress(c, f)
    ensures var learn := Some(Binding(f[26..30], f[6..12]));
      ReceiveIpv4(c, f[6..12], f, room) ==
        if f[23] == 1 then ReceiveIcmp(c, f, HeaderBytes(f), WordAt(f, 16), room, learn)
        else if f[23] == 17 then
          match ParseUdp(f[26..30], f[30..34], Carried(f))
          case Ok(d) => Effect(Ok(Udp(d)), learn, [])
          case Err(e) => Effect(Err(e), learn, [])
        else Effect(Ok(Nothing), learn, [])
  {
    hide BeNum, Sum16, Finalize, ParseUdp, ReceiveIcmp;
    HeaderFields(f);
    var p, h := f[14..], HeaderBytes(f);
    assert p[..h] == f[14..14 + h];
    FinalizeIff(Sum16(p[..h]));
    assert p[h..WordAt(f, 16)] == Carried(f);
  }

  /** Otherwise it is refused or has no effect. */
  lemma UnsoundRefused(c: Config, f: Bytes, room: nat)
    requires |f| >= 14 && !(SoundHeader(f) && ToAddress(c, f))
    ensures var e := ReceiveIpv4(c, f[6..12], f, room);
      e.learn == None && e.reply == [] && (SoundHeader(f) <==> e.answer.Ok?) && (e.answer.Ok? ==> e.answer.value == Nothing)
  {
    hide BeNum, Sum16, Finalize, ParseUdp, ReceiveIcmp;
    if |f| >= 34 {
      HeaderFields(f);
      var p, h := f[14..], HeaderBytes(f);
      if h <= |p| {
        assert p[..h] == f[14..14 + h];
        FinalizeIff(Sum16(p[..h]));
      }
    }
  }

  lemma TypeIs(f: Bytes)
    requires |f| >= 14
    ensures BeNum(f[12..14]) == WordAt(f, 12) && f[0..6] == f[..6]
  {
    TwoBytes(f, 12);
  }

  /** The receiver answers with a datagram exactly for a frame of this form, and then
      with these addresses, ports and payload. */
  lemma DatagramIff(c: Config, f: Bytes, room: nat)
    ensures var e := Receive(c, f, room);
      e.answer.Ok? && e.answer.value.Udp? <==>
        && ToInterface(c, f) && SoundHeader(f) && ToAddress(c, f) && f[23] == 17
        && SoundUdp(f[26..30], f[30..34], Carried(f))
    ensures var e := Receive(c, f, room);
      ToInterface(c, f) && SoundHeader(f) && ToAddress(c, f) && f[23] == 17 && SoundUdp(f[26..30], f[30..34], Carried(f)) ==>
        var p := Carried(f);
        e == Effect(Ok(Udp(Datagram(f[26..30], f[30..34], WordAt(p, 0), WordAt(p, 2), p[8..WordAt(p, 4)]))), Some(Binding(f[26..30], f[6..12])), [])
  {
    hide BeNum, SoundHeader, SoundUdp, ParseUdp, ReceiveIpv4, ReceiveIcmp, Carried, ReceiveArp;
    if |f| >= 14 {
      TypeIs(f);
      if SoundHeader(f) {
        SoundIsLong(f);
        if ToAddress(c, f) {
          SoundDecides(c, f, room);
          UdpIff(f[26..30], f[30..34], Carried(f));
          EchoAnswer(c, f, room);
        } else {
          UnsoundRefused(c, f, room);
        }
      } else {
        UnsoundRefused(c, f, room);
      }
      ArpAnswer(c, f[6..12], f[14..], room);
    }
  }

  lemma SoundIsLong(f: Bytes)
    requires SoundHeader(f)
    ensures |f| >= 34
  {
  }

  lemma ArpAnswer(c: Config, from: Mac, p: Bytes, room: nat)
    ensures var e := ReceiveArp(c, from, p, room);
      (e.answer.Ok? ==> !e.answer.value.Udp?) && (e.answer.Ok? && e.answer.value.Reply? ==> e.answer.value.len == 42)
  {
    hide BeNum, ArpFrame;
  }

  /** What an ICMP message is answered with. */
  lemma EchoAnswer(c: Config, f: Bytes, room: nat)
    requires |f| >= 34 && SoundHeader(f)
    ensures var e := ReceiveIcmp(c, f, HeaderBytes(f), WordAt(f, 16), room, Some(Binding(f[26..30], f[6..12])));
      && (e.answer.Ok? ==> !e.answer.value.Udp?)
      && (e.answer.Ok? && e.answer.value.Reply? <==> SoundEcho(Carried(f)) && 14 + WordAt(f, 16) <= room)
  {
    hide Sum16, Finalize, Ethernet, ReplyHeader, ReplyIcmp;
    var p := Carried(f);
    FinalizeIff(Sum16(p));
    assert |p| > 1 ==> f[14 + HeaderBytes(f)] == p[0] && f[14 + HeaderBytes(f) + 1] == p[1];
  }

  /** A frame of the type of IPv4 gets a reply exactly if it is a sound echo request
      addressed here and the reply fits. */
  lemma EchoIff(c: Config, f: Bytes, room: nat)
    requires |f| >= 14 && WordAt(f, 12) == 0x0800
    ensures var e := Receive(c, f, room);
      e.answer.Ok? && e.answer.value.Reply? <==>
        && ToInterface(c, f) && SoundHeader(f) && ToAddress(c, f) && f[23] == 1
        && SoundEcho(Carried(f)) && 14 + WordAt(f, 16) <= room
  {
    hide BeNum, SoundHeader, SoundEcho, ParseUdp, ReceiveIpv4, ReceiveIcmp, Carried;
    TypeIs(f);
    if SoundHeader(f) {
      SoundIsLong(f);
      if ToAddress(c, f) {
        SoundDecides(c, f, room);
        EchoAnswer(c, f, room);
      } else {
        UnsoundRefused(c, f, room);
      }
    } else {
      UnsoundRefused(c, f, room);
    }
  }

  /** A whole frame for another interface, or a sound packet for another address, has
      no effect at all. */
  lemma ElsewhereIgnored(c: Config, f: Bytes, room: nat)
    requires |f| >= 14
    requires (f[..6] != c.mac && f[..6] != [255, 255, 255, 255, 255, 255]) || (ToInterface(c, f) && SoundHeader(f) && !ToAddress(c, f))
    ensures Receive(c, f, room) == Effect(Ok(Nothing), None, [])
  {
    hide BeNum, SoundHeader, ReceiveIpv4, ReceiveArp;
    TypeIs(f);
    if f[..6] == c.mac || f[..6] == [255, 255, 255, 255, 255, 255] {
      UnsoundRefused(c, f, room);
    }
  }

  /** A header whose sum does not verify is refused and teaches nothing. */
  lemma BadHeaderRefused(c: Config, f: Bytes, room: nat)
    requires ToInterface(c, f) && !SoundHeader(f)
    ensures Receive(c, f, room).answer.Err? && Receive(c, f, room).learn == None && Receive(c, f, room).reply == []
  {
    hide BeNum, SoundHeader, ReceiveIpv4;
    TypeIs(f);
    UnsoundRefused(c, f, room);
  }

  // ---- Address resolution -------------------------------------------------------------------------

  /** A well-formed message whose sender is the frame's. */
  predicate SoundArp(f: Bytes) {
    && |f| >= 42 && WordAt(f, 14) == 1 && WordAt(f, 16) == 0x0800 && f[18] == 6 && f[19] == 4
    && f[22..28] == f[6..12]
  }

  lemma ArpFields(f: Bytes)
    requires |f| >= 42
    ensures var p := f[14..];
      && BeNum(p[0..2]) == WordAt(f, 14) && BeNum(p[2..4]) == WordAt(f, 16) && p[4] == f[18] && p[5] == f[19]
      && BeNum(p[6..8]) == WordAt(f, 20) && p[8..14] == f[22..28] && p[14..18] == f[28..32] && p[24..28] == f[38..42]
  {
    hide BeNum;
    TwoBytes(f, 14);
    TwoBytes(f, 16);
    TwoBytes(f, 20);
    assert f[14..][0..2] == f[14..16] && f[14..][2..4] == f[16..18] && f[14..][6..8] == f[20..22];
  }

  /** Which messages teach an address, which are answered, and which are reported. */
  lemma ArpIff(c: Config, f: Bytes, room: nat)
    requires |f| >= 14 && WordAt(f, 12) == 0x0806 && (f[..6] == c.mac || f[..6] == [255, 255, 255, 255, 255, 255])
    ensures var e := Receive(c, f, room);
      && (e.learn.Some? <==> SoundArp(f))
      && (SoundArp(f) ==> e.learn == Some(Binding(f[28..32], f[22..28])))
      && (e.answer == Ok(Reply(42)) <==> SoundArp(f) && WordAt(f, 20) == 1 && f[38..42] == c.address && room >= 42)
      && (e.answer == Ok(Reply(42)) ==> e.reply == ArpFrame(c, f[6..12], f[28..32], f[6..12], 2))
      && (SoundArp(f) && WordAt(f, 20) == 2 <==> e.answer.Ok? && e.answer.value.NeighborLearned?)
  {
    hide BeNum, ArpFrame, ReceiveIpv4;
    TypeIs(f);
    if |f| >= 42 {
      ArpFields(f);
    }
  }

  // ---- Damaged datagrams -----------------------------------------------------------------------------

  /** The frame `UdpFrame` builds, with another UDP packet in it. */
  function FrameWith(a: Config, mac: Mac, id: nat, dst: Ip, packet: Bytes): Bytes {
    Ethernet(mac, a.mac, TYPE_IPV4) + IpHeader(|packet|, id, UDP_PROTOCOL, a.address, dst) + packet
  }

  lemma UndamagedFrame(a: Config, mac: Mac, id: nat, dst: Ip, sourcePort: nat, destinationPort: nat, payload: Bytes)
    ensures FrameWith(a, mac, id, dst, UdpPacket(a.address, dst, sourcePort, destinationPort, payload)) ==
      UdpFrame(a, mac, id, dst, sourcePort, destinationPort, payload)
  {
    hide Ethernet, IpHeader, UdpPacket;
  }

  /** A packet as sent, changed outside its length field, with a stored checksum. */
  ghost predicate Damaged(p: Bytes, p': Bytes) {
    |p'| == |p| >= 8 && WordAt(p', 4) == WordAt(p, 4) && WordAt(p', 6) != 0
  }

  lemma PacketLength(src: Ip, dst: Ip, sourcePort: nat, destinationPort: nat, payload: Bytes)
    requires UDP + |payload| < 0x1_0000
    ensures WordAt(UdpPacket(src, dst, sourcePort, destinationPort, payload), 4) == 8 + |payload|
  {
    hide Be, BeNum, TransportChecksum;
    var p := UdpPacket(src, dst, sourcePort, destinationPort, payload);
    assert p[4..6] == Be(UDP + |payload|, 2);
    BeBack(UDP + |payload|);
    TwoBytes(p, 4);
  }

  /** Whatever happens to the ports, the payload and a stored checksum on the way: the
      receiver accepts the datagram if and only if the sum of its words has changed by
      a multiple of 65535, and otherwise answers that its checksum is invalid. */
  lemma DamagedIff(a: Config, b: Config, mac: Mac, id: nat, dst: Ip, sourcePort: nat, destinationPort: nat, payload: Bytes, p': Bytes, room: nat)
    requires |payload| <= 65507 && sourcePort < 0x1_0000 && destinationPort < 0x1_0000
    requires (mac == b.mac || mac == MAC_BROADCAST) && (dst == b.address || dst == IP_BROADCAST)
    requires Damaged(UdpPacket(a.address, dst, sourcePort, destinationPort, payload), p')
    ensures Receive(b, FrameWith(a, mac, id, dst, p'), room) ==
      Effect(if Balanced(UdpPacket(a.address, dst, sourcePort, destinationPort, payload), p')
             then Ok(Udp(Datagram(a.address, dst, WordAt(p', 0), WordAt(p', 2), p'[8..])))
             else Err(InvalidChecksum),
             Some(Binding(a.address, a.mac)), [])
  {
    hide Be, BeNum, Finalize, Sum16, Ethernet, IpHeader, UdpPacket, ParseUdp;
    var p := UdpPacket(a.address, dst, sourcePort, destinationPort, payload);
    var header := IpHeader(|p'|, id, UDP_PROTOCOL, a.address, dst);
    var frame := FrameWith(a, mac, id, dst, p');
    assert frame == Ethernet(mac, a.mac, TYPE_IPV4) + (header + p');
    EthernetParts(mac, a.mac, TYPE_IPV4, header + p');
    BeBack(TYPE_IPV4);
    IpParts(|p'|, id, UDP_PROTOCOL, a.address, dst, p');
    HeaderVerifies(|p'|, id, UDP_PROTOCOL, a.address, dst);
    assert frame[ETH..][IPV4..IPV4 + |p'|] == p';
    DamagedParse(a.address, dst, sourcePort, destinationPort, payload, p');
  }

  predicate Balanced(p: Bytes, p': Bytes) {
    (Sum16(p') - Sum16(p)) % 65535 == 0
  }

  lemma DamagedParse(src: Ip, dst: Ip, sourcePort: nat, destinationPort: nat, payload: Bytes, p': Bytes)
    requires |payload| <= 65507 && Damaged(UdpPacket(src, dst, sourcePort, destinationPort, payload), p')
    ensures ParseUdp(src, dst, p') ==
      if Balanced(UdpPacket(src, dst, sourcePort, destinationPort, payload), p')
      then Ok(Datagram(src, dst, WordAt(p', 0), WordAt(p', 2), p'[8..])) else Err(InvalidChecksum)
  {
    hide BeNum, Finalize, Sum16, UdpPacket;
    var p := UdpPacket(src, dst, sourcePort, destinationPort, payload);
    PacketLength(src, dst, sourcePort, destinationPort, payload);
    UdpVerifies(src, dst, sourcePort, destinationPort, payload);
    var s, s' := TransportSum(src, dst, 17, p), TransportSum(src, dst, 17, p');
    FinalizeIff(s);
    FinalizeIff(s');
    SumsApart(s, s', Sum16(p') - Sum16(p));
    TwoBytes(p', 0);
    TwoBytes(p', 2);
    TwoBytes(p', 4);
    TwoBytes(p', 6);
    assert p'[..|p'|] == p';
  }

  lemma SumsApart(s: nat, s': nat, d: int)
    requires s' == s + d && Verified(s) && s' > 0
    ensures Verified(s') <==> d % 65535 == 0
  {
    assert s == 65535 * (s / 65535);
    MultipleKept(s / 65535, d);
  }

  lemma MultipleKept(q: nat, d: int)
    ensures (65535 * q + d) % 65535 == d % 65535
  {
  }

  /** Two lists that differ in one aligned word. */
  ghost predicate OneWord(p: Bytes, p': Bytes, j: nat) {
    |p'| == |p| && j % 2 == 0 && j < |p| && p'[..j] == p[..j] && (j + 2 <= |p| ==> p'[j + 2..] == p[j + 2..])
  }

  /** A last odd byte counts as the upper half of a word. */
  function PaddedWord(b: Bytes, j: nat): nat
    requires j < |b|
  {
    if j + 2 <= |b| then WordAt(b, j) else var hi: nat := b[j]; 256 * hi
  }

  lemma OneWordSum(p: Bytes, p': Bytes, j: nat)
    requires OneWord(p, p', j)
    ensures Sum16(p') - Sum16(p) == PaddedWord(p', j) - PaddedWord(p, j)
  {
    hide Sum16;
    assert p == p[..j] + p[j..] && p' == p'[..j] + p'[j..];
    SumAppend(p[..j], p[j..]);
    SumAppend(p'[..j], p'[j..]);
    FirstWord(p, j);
    FirstWord(p', j);
  }

  lemma FirstWord(p: Bytes, j: nat)
    requires j < |p|
    ensures Sum16(p[j..]) == PaddedWord(p, j) + if j + 2 <= |p| then Sum16(p[j + 2..]) else 0
  {
    if j + 2 <= |p| {
      assert p[j..][2..] == p[j + 2..];
    }
  }

  lemma WordApart(v: nat, w: nat)
    requires v < 0x1_0000 && w < 0x1_0000
    ensures (w - v) % 65535 == 0 <==> w == v || w == v + 65535 || v == w + 65535
  {
  }

  lemma PaddedBound(b: Bytes, j: nat)
    requires j < |b|
    ensures PaddedWord(b, j) < 0x1_0000
  {
  }

  /** One changed word of the ports, the payload or a checksum that stays stored is
      always noticed, unless all its bits were zero and are one now, or the reverse. */
  lemma WordDamage(a: Config, b: Config, mac: Mac, id: nat, dst: Ip, sourcePort: nat, destinationPort: nat, payload: Bytes, p': Bytes, j: nat, room: nat)
    requires |payload| <= 65507 && sourcePort < 0x1_0000 && destinationPort < 0x1_0000
    requires (mac == b.mac || mac == MAC_BROADCAST) && (dst == b.address || dst == IP_BROADCAST)
    requires var p := UdpPacket(a.address, dst, sourcePort, destinationPort, payload);
      Damaged(p, p') && OneWord(p, p', j) && PaddedWord(p', j) != PaddedWord(p, j)
      && !(PaddedWord(p', j) == 0 && PaddedWord(p, j) == 65535) && !(PaddedWord(p', j) == 65535 && PaddedWord(p, j) == 0)
    ensures Receive(b, FrameWith(a, mac, id, dst, p'), room).answer == Err(InvalidChecksum)
  {
    hide UdpPacket, Receive, FrameWith, Sum16, PaddedWord;
    var p := UdpPacket(a.address, dst, sourcePort, destinationPort, payload);
    DamagedIff(a, b, mac, id, dst, sourcePort, destinationPort, payload, p', room);
    OneWordSum(p, p', j);
    PaddedBound(p, j);
    PaddedBound(p', j);
    WordApart(PaddedWord(p, j), PaddedWord(p', j));
  }
}
