/** The packet stack as functions of configuration, cache and bytes. */
module Net {
  // Ethernet, ARP, IPv4, UDP and ICMP echo. The object of module `Stack` is proved
  // against these functions.

  import opened Wire
  import opened Checksum
  import opened Wrappers

  const ETH: nat := 14
  const IPV4: nat := 20
  const UDP: nat := 8
  const ARP: nat := 28
  const TYPE_IPV4: nat := 0x0800
  const TYPE_ARP: nat := 0x0806
  const ICMP_PROTOCOL: nat := 1
  const UDP_PROTOCOL: nat := 17

  type Mac = s: Bytes | |s| == 6 witness [0, 0, 0, 0, 0, 0]
  type Ip = s: Bytes | |s| == 4 witness [0, 0, 0, 0]

  const MAC_BROADCAST: Mac := [255, 255, 255, 255, 255, 255]
  const MAC_ZERO: Mac := [0, 0, 0, 0, 0, 0]
  const IP_BROADCAST: Ip := [255, 255, 255, 255]
  const IP_UNSPECIFIED: Ip := [0, 0, 0, 0]

  datatype Config = Config(mac: Mac, address: Ip, mask: Ip, gateway: Ip)
  datatype Binding = Binding(ip: Ip, mac: Mac)
  datatype Error = BufferTooSmall | Truncated | Unsupported | InvalidHeader | InvalidChecksum
  datatype Datagram = Datagram(source: Ip, destination: Ip, sourcePort: nat, destinationPort: nat, payload: Bytes)
  datatype Event = Nothing | Reply(len: nat) | NeighborLearned(ip: Ip, mac: Mac) | Udp(datagram: Datagram)
  datatype SendOutcome = Sent(len: nat) | NeighborDiscovery(len: nat)

  // ---- Wire forms ---------------------------------------------------------------------

  function Ethernet(dst: Mac, src: Mac, kind: nat): (h: Bytes)
    ensures |h| == ETH
  {
    dst + src + Be(kind, 2)
  }

  /** The IPv4 header before (and after) its checksum field. */
  function IpHead(payloadLen: nat, id: nat, protocol: Byte): (h: Bytes)
    ensures |h| == 10
  {
    [0x45, 0] + Be(IPV4 + payloadLen, 2) + Be(id, 2) + Be(0x4000, 2) + [64, protocol]
  }

  function IpHeader(payloadLen: nat, id: nat, protocol: Byte, src: Ip, dst: Ip): (h: Bytes)
    ensures |h| == IPV4
  {
    var a, b := IpHead(payloadLen, id, protocol), src + dst;
    a + Be(ChecksumOf(a + [0, 0] + b), 2) + b
  }

  /** The pseudo-header, protocol and length that a transport checksum covers. */
  function TransportSum(src: Ip, dst: Ip, protocol: nat, packet: Bytes): nat {
    Sum16(src) + Sum16(dst) + protocol + |packet| + Sum16(packet)
  }

  function TransportChecksum(src: Ip, dst: Ip, protocol: nat, packet: Bytes): (r: nat)
    ensures r < 0x1_0000
  {
    Finalize(TransportSum(src, dst, protocol, packet))
  }

  function UdpHead(sourcePort: nat, destinationPort: nat, len: nat): (h: Bytes)
    ensures |h| == 6
  {
    Be(sourcePort, 2) + Be(destinationPort, 2) + Be(UDP + len, 2)
  }

  /** A zero checksum is sent as all ones. */
  function UdpPacket(src: Ip, dst: Ip, sourcePort: nat, destinationPort: nat, payload: Bytes): (p: Bytes)
    ensures |p| == UDP + |payload|
  {
    var head := UdpHead(sourcePort, destinationPort, |payload|);
    var sum := TransportChecksum(src, dst, UDP_PROTOCOL, head + [0, 0] + payload);
    head + Be(if sum == 0 then 0xffff else sum, 2) + payload
  }

  function UdpFrame(c: Config, mac: Mac, id: nat, dst: Ip, sourcePort: nat, destinationPort: nat, payload: Bytes): (f: Bytes)
    ensures |f| == ETH + IPV4 + UDP + |payload|
  {
    Ethernet(mac, c.mac, TYPE_IPV4) + IpHeader(UDP + |payload|, id, UDP_PROTOCOL, c.address, dst)
    + UdpPacket(c.address, dst, sourcePort, destinationPort, payload)
  }

  function ArpFrame(c: Config, ethernetDst: Mac, targetIp: Ip, targetMac: Mac, operation: nat): (f: Bytes)
    ensures |f| == ETH + ARP
  {
    Ethernet(ethernetDst, c.mac, TYPE_ARP)
    + (Be(1, 2) + Be(TYPE_IPV4, 2) + [6, 4] + Be(operation, 2) + c.mac + c.address + targetMac + targetIp)
  }

  // ---- Receiving ------------------------------------------------------------------------

  /** What one frame does: the answer, the pair it teaches (if any) and the bytes
      written into the response buffer. */
  datatype Effect = Effect(answer: Result<Event, Error>, learn: Option<Binding>, reply: Bytes)

  function Quiet(answer: Result<Event, Error>): Effect { Effect(answer, None, []) }

  function Receive(c: Config, frame: Bytes, room: nat): Effect {
    if |frame| < ETH then Quiet(Err(Truncated))
    else if frame[0..6] != c.mac && frame[0..6] != MAC_BROADCAST then Quiet(Ok(Nothing))
    else if BeNum(frame[12..14]) == TYPE_ARP then ReceiveArp(c, frame[6..12], frame[ETH..], room)
    else if BeNum(frame[12..14]) == TYPE_IPV4 then ReceiveIpv4(c, frame[6..12], frame, room)
    else Quiet(Ok(Nothing))
  }

  function ReceiveArp(c: Config, from: Mac, p: Bytes, room: nat): Effect {
    if |p| < ARP then Quiet(Err(Truncated))
    else if BeNum(p[0..2]) != 1 || BeNum(p[2..4]) != TYPE_IPV4 || p[4] != 6 || p[5] != 4 then Quiet(Err(Unsupported))
    else
      var operation, senderMac, senderIp, targetIp := BeNum(p[6..8]), p[8..14], p[14..18], p[24..28];
      if senderMac != from then Quiet(Err(InvalidHeader))
      else
        var learn := Some(Binding(senderIp, senderMac));
        if operation == 1 && targetIp == c.address then
          if room < ETH + ARP then Effect(Err(BufferTooSmall), learn, [])
          else Effect(Ok(Reply(ETH + ARP)), learn, ArpFrame(c, senderMac, senderIp, senderMac, 2))
        else if operation == 2 then Effect(Ok(NeighborLearned(senderIp, senderMac)), learn, [])
        else Effect(Ok(Nothing), learn, [])
  }

  function ReceiveIpv4(c: Config, from: Mac, frame: Bytes, room: nat): Effect
    requires |frame| >= ETH
  {
    var p := frame[ETH..];
    if |p| < IPV4 || p[0] / 16 != 4 then Quiet(Err(InvalidHeader))
    else
      var headerLen, totalLen := Times4(p[0] % 16), BeNum(p[2..4]);
      if headerLen < IPV4 || |p| < headerLen then Quiet(Err(InvalidHeader))
      else if totalLen < headerLen || |p| < totalLen then Quiet(Err(Truncated))
      else if ChecksumOf(p[..headerLen]) != 0 then Quiet(Err(InvalidChecksum))
      else if BeNum(p[6..8]) % 0x4000 != 0 then Quiet(Err(Unsupported))
      else
        var source, destination := p[12..16], p[16..20];
        if destination != c.address && destination != IP_BROADCAST then Quiet(Ok(Nothing))
        else
          var learn := Some(Binding(source, from));
          if p[9] == ICMP_PROTOCOL then ReceiveIcmp(c, frame, headerLen, totalLen, room, learn)
          else if p[9] == UDP_PROTOCOL then
            match ParseUdp(source, destination, p[headerLen..totalLen])
            case Ok(d) => Effect(Ok(Udp(d)), learn, [])
            case Err(e) => Effect(Err(e), learn, [])
          else Effect(Ok(Nothing), learn, [])
  }

  function Times4(n: nat): nat { n * 4 }

  function ParseUdp(source: Ip, destination: Ip, p: Bytes): Result<Datagram, Error> {
    if |p| < UDP then Err(Truncated)
    else
      var len := BeNum(p[4..6]);
      if len < UDP || len > |p| then Err(Truncated)
      else
        var q := p[..len];
        if BeNum(q[6..8]) != 0 && TransportChecksum(source, destination, UDP_PROTOCOL, q) != 0 then Err(InvalidChecksum)
        else Ok(Datagram(source, destination, BeNum(q[0..2]), BeNum(q[2..4]), q[UDP..]))
  }

  /** The header of an echo reply: addresses exchanged, checksum recomputed. */
  function ReplyHeader(c: Config, h: Bytes): (r: Bytes)
    requires |h| >= IPV4
    ensures |r| == |h|
  {
    var a, b := h[..10], c.address + h[12..16] + h[20..];
    a + Be(ChecksumOf(a + [0, 0] + b), 2) + b
  }

  /** The echo reply: type zero, checksum recomputed, the rest as received. */
  function ReplyIcmp(m: Bytes): (r: Bytes)
    requires |m| >= 8
    ensures |r| == |m|
  {
    var a, b := [0, m[1]], m[4..];
    a + Be(ChecksumOf(a + [0, 0] + b), 2) + b
  }

  function ReceiveIcmp(c: Config, frame: Bytes, headerLen: nat, totalLen: nat, room: nat, learn: Option<Binding>): Effect
    requires IPV4 <= headerLen <= totalLen && ETH + totalLen <= |frame|
  {
    var end, start := ETH + totalLen, ETH + headerLen;
    if totalLen < headerLen + 8 then Effect(Err(Truncated), learn, [])
    else if ChecksumOf(frame[start..end]) != 0 then Effect(Err(InvalidChecksum), learn, [])
    else if frame[start] != 8 || frame[start + 1] != 0 then Effect(Ok(Nothing), learn, [])
    else if room < end then Effect(Err(BufferTooSmall), learn, [])
    else
      Effect(Ok(Reply(end)), learn,
             Ethernet(frame[6..12], c.mac, TYPE_IPV4) + ReplyHeader(c, frame[ETH..start]) + ReplyIcmp(frame[start..end]))
  }

  // ---- Sending and receiving agree ---------------------------------------------------------

  lemma BeBack(v: nat)
    requires v < 0x1_0000
    ensures BeNum(Be(v, 2)) == v
  {
    Pow256Values();
    BeRoundTrip(v, 2);
  }

  lemma EthernetParts(dst: Mac, src: Mac, kind: nat, rest: Bytes)
    ensures var f := Ethernet(dst, src, kind) + rest;
      f[0..6] == dst && f[6..12] == src && f[12..14] == Be(kind, 2) && f[ETH..] == rest
  {
    hide Be;
  }

  lemma IpParts(payloadLen: nat, id: nat, protocol: Byte, src: Ip, dst: Ip, rest: Bytes)
    requires IPV4 + payloadLen < 0x1_0000
    ensures var p := IpHeader(payloadLen, id, protocol, src, dst) + rest;
      && p[0] == 0x45 && p[9] == protocol && BeNum(p[2..4]) == IPV4 + payloadLen && BeNum(p[6..8]) == 0x4000
      && p[12..16] == src && p[16..20] == dst && p[..IPV4] == IpHeader(payloadLen, id, protocol, src, dst) && p[IPV4..] == rest
  {
    hide Be, BeNum, ChecksumOf;
    BeBack(IPV4 + payloadLen);
    BeBack(0x4000);
    var p := IpHeader(payloadLen, id, protocol, src, dst) + rest;
    assert p[2..4] == Be(IPV4 + payloadLen, 2);
    assert p[6..8] == Be(0x4000, 2);
    assert p[12..16] == src && p[16..20] == dst;
  }

  lemma HeaderVerifies(payloadLen: nat, id: nat, protocol: Byte, src: Ip, dst: Ip)
    ensures ChecksumOf(IpHeader(payloadLen, id, protocol, src, dst)) == 0
  {
    hide ChecksumOf, IpHead;
    FieldVerifies(IpHead(payloadLen, id, protocol), src + dst);
  }

  /** A UDP packet verifies under its own addresses, the all-ones case included. */
  lemma UdpVerifies(src: Ip, dst: Ip, sourcePort: nat, destinationPort: nat, payload: Bytes)
    ensures TransportChecksum(src, dst, UDP_PROTOCOL, UdpPacket(src, dst, sourcePort, destinationPort, payload)) == 0
  {
    hide Sum16, UdpHead, Fold, Be;
    var head := UdpHead(sourcePort, destinationPort, |payload|);
    var blank := head + [0, 0] + payload;
    var base := TransportSum(src, dst, UDP_PROTOCOL, blank);
    var sum := Finalize(base);
    StoreField(head, if sum == 0 then 0xffff else sum, payload);
    SelfChecks(base);
    if sum == 0 {
      ZeroSent(base);
    }
  }

  lemma UdpParses(src: Ip, dst: Ip, sourcePort: nat, destinationPort: nat, payload: Bytes)
    requires sourcePort < 0x1_0000 && destinationPort < 0x1_0000 && UDP + |payload| < 0x1_0000
    ensures ParseUdp(src, dst, UdpPacket(src, dst, sourcePort, destinationPort, payload)) ==
      Ok(Datagram(src, dst, sourcePort, destinationPort, payload))
  {
    hide Be, BeNum, TransportChecksum;
    UdpVerifies(src, dst, sourcePort, destinationPort, payload);
    BeBack(sourcePort);
    BeBack(destinationPort);
    BeBack(UDP + |payload|);
    var p := UdpPacket(src, dst, sourcePort, destinationPort, payload);
    assert p[0..2] == Be(sourcePort, 2);
    assert p[2..4] == Be(destinationPort, 2);
    assert p[4..6] == Be(UDP + |payload|, 2);
    assert p[..|p|] == p;
    assert p[UDP..] == payload;
  }

  /** Whatever is sent toward a resolved peer (or broadcast) is accepted there with
      the same addresses, ports and payload, up to the 65507 bytes a datagram can
      carry. */
  lemma Delivered(a: Config, b: Config, mac: Mac, id: nat, dst: Ip, sourcePort: nat, destinationPort: nat, payload: Bytes, room: nat)
    requires |payload| <= 65507 && sourcePort < 0x1_0000 && destinationPort < 0x1_0000
    requires (mac == b.mac || mac == MAC_BROADCAST) && (dst == b.address || dst == IP_BROADCAST)
    ensures Receive(b, UdpFrame(a, mac, id, dst, sourcePort, destinationPort, payload), room) ==
      Effect(Ok(Udp(Datagram(a.address, dst, sourcePort, destinationPort, payload))), Some(Binding(a.address, a.mac)), [])
  {
    hide Be, BeNum, ChecksumOf, Ethernet, IpHeader, UdpPacket, ParseUdp;
    var header := IpHeader(UDP + |payload|, id, UDP_PROTOCOL, a.address, dst);
    var packet := UdpPacket(a.address, dst, sourcePort, destinationPort, payload);
    var frame := UdpFrame(a, mac, id, dst, sourcePort, destinationPort, payload);
    assert frame == Ethernet(mac, a.mac, TYPE_IPV4) + (header + packet);
    EthernetParts(mac, a.mac, TYPE_IPV4, header + packet);
    BeBack(TYPE_IPV4);
    IpParts(UDP + |payload|, id, UDP_PROTOCOL, a.address, dst, packet);
    HeaderVerifies(UDP + |payload|, id, UDP_PROTOCOL, a.address, dst);
    UdpParses(a.address, dst, sourcePort, destinationPort, payload);
    var p := frame[ETH..];
    assert p[IPV4..IPV4 + |packet|] == packet;
  }

  /** An ARP request reaches its target, which learns the sender and answers with
      a reply that teaches the sender the target's address. */
  lemma Resolved(a: Config, b: Config, room: nat, room': nat)
    requires room >= ETH + ARP
    ensures var e := Receive(b, ArpFrame(a, MAC_BROADCAST, b.address, MAC_ZERO, 1), room);
      && e.answer == Ok(Reply(ETH + ARP)) && e.learn == Some(Binding(a.address, a.mac))
      && Receive(a, e.reply, room') == Effect(Ok(NeighborLearned(b.address, b.mac)), Some(Binding(b.address, b.mac)), [])
  {
    hide Be, BeNum, ArpFrame;
    ArpReads(a, MAC_BROADCAST, b.address, MAC_ZERO, 1);
    ArpReads(b, a.mac, a.address, a.mac, 2);
    BeBack(TYPE_ARP);
    BeBack(TYPE_IPV4);
    BeBack(1);
    BeBack(2);
  }

  lemma ArpReads(c: Config, ethernetDst: Mac, targetIp: Ip, targetMac: Mac, operation: nat)
    ensures var f := ArpFrame(c, ethernetDst, targetIp, targetMac, operation);
      && f[0..6] == ethernetDst && f[6..12] == c.mac && f[12..14] == Be(TYPE_ARP, 2)
      && var p := f[ETH..];
        && p[0..2] == Be(1, 2) && p[2..4] == Be(TYPE_IPV4, 2) && p[4] == 6 && p[5] == 4 && p[6..8] == Be(operation, 2)
        && p[8..14] == c.mac && p[14..18] == c.address && p[24..28] == targetIp
  {
    hide Be, Ethernet;
    var body := Be(1, 2) + Be(TYPE_IPV4, 2) + [6, 4] + Be(operation, 2) + c.mac + c.address + targetMac + targetIp;
    EthernetParts(ethernetDst, c.mac, TYPE_ARP, body);
    assert body[0..2] == Be(1, 2);
    assert body[2..4] == Be(TYPE_IPV4, 2);
    assert body[6..8] == Be(operation, 2);
    assert body[8..14] == c.mac;
    assert body[14..18] == c.address;
    assert body[24..28] == targetIp;
  }

  /** Every accepted echo request gets a reply whose IP and ICMP checksums verify,
      addressed back to the sender, with identifier, sequence and data kept. */
  lemma EchoReplyVerifies(c: Config, frame: Bytes, room: nat)
    requires Receive(c, frame, room).answer.Ok? && Receive(c, frame, room).answer.value.Reply?
    requires |frame| >= ETH && BeNum(frame[12..14]) == TYPE_IPV4
    ensures var r := Receive(c, frame, room).reply; var h := Times4(frame[ETH] % 16);
      && IPV4 <= h && |r| == Receive(c, frame, room).answer.value.len && ETH + h + 8 <= |r| <= |frame|
      && ChecksumOf(r[ETH..ETH + h]) == 0 && ChecksumOf(r[ETH + h..]) == 0
      && r[0..6] == frame[6..12] && r[6..12] == c.mac
      && r[ETH + 12..ETH + 16] == c.address && r[ETH + 16..ETH + 20] == frame[ETH + 12..ETH + 16]
      && r[ETH + h] == 0 && r[ETH + h + 4..] == frame[ETH + h + 4..|r|]
  {
    hide Be, BeNum, ChecksumOf, Ethernet, ReplyHeader, ReplyIcmp, Receive;
    EchoShape(c, frame, room);
    var h, total := Times4(frame[ETH] % 16), BeNum(frame[ETH + 2..ETH + 4]);
    var header, icmp := frame[ETH..ETH + h], frame[ETH + h..ETH + total];
    var body := ReplyHeader(c, header) + ReplyIcmp(icmp);
    var r := Receive(c, frame, room).reply;
    EthernetParts(frame[6..12], c.mac, TYPE_IPV4, body);
    BeBack(TYPE_IPV4);
    ReplyParts(c, header, icmp);
    BodySlices(r, body, h);
    assert icmp[4..] == frame[ETH + h + 4..ETH + total];
    Inside(frame, ETH, header, 12, 16);
  }

  /** Unfolding an accepted echo request. */
  lemma EchoShape(c: Config, frame: Bytes, room: nat)
    requires Receive(c, frame, room).answer.Ok? && Receive(c, frame, room).answer.value.Reply?
    requires |frame| >= ETH && BeNum(frame[12..14]) == TYPE_IPV4
    ensures |frame| >= ETH + IPV4
    ensures var h, total := Times4(frame[ETH] % 16), BeNum(frame[ETH + 2..ETH + 4]);
      && IPV4 <= h && h + 8 <= total && ETH + total <= |frame|
      && Receive(c, frame, room).answer.value.len == ETH + total
      && Receive(c, frame, room).reply ==
           Ethernet(frame[6..12], c.mac, TYPE_IPV4) + (ReplyHeader(c, frame[ETH..ETH + h]) + ReplyIcmp(frame[ETH + h..ETH + total]))
  {
    hide Be, BeNum, ChecksumOf, Ethernet, ReplyHeader, ReplyIcmp, ParseUdp;
    var p := frame[ETH..];
    assert p[2..4] == frame[ETH + 2..ETH + 4];
  }

  lemma BodySlices(r: Bytes, body: Bytes, h: nat)
    requires |r| >= ETH && r[ETH..] == body && 20 <= h && h + 4 <= |body|
    ensures r[ETH..ETH + h] == body[..h] && r[ETH + h..] == body[h..] && r[ETH + h] == body[h]
    ensures r[ETH + 12..ETH + 16] == body[12..16] && r[ETH + 16..ETH + 20] == body[16..20] && r[ETH + h + 4..] == body[h..][4..]
  {
  }

  lemma ReplyParts(c: Config, header: Bytes, icmp: Bytes)
    requires |header| >= IPV4 && |icmp| >= 8
    ensures var r := ReplyHeader(c, header) + ReplyIcmp(icmp); var h := |header|;
      && r[..h] == ReplyHeader(c, header) && r[h..] == ReplyIcmp(icmp)
      && ChecksumOf(r[..h]) == 0 && ChecksumOf(r[h..]) == 0
      && r[12..16] == c.address && r[16..20] == header[12..16] && r[h] == 0 && r[h..][4..] == icmp[4..]
  {
    hide ChecksumOf, Be;
    FieldVerifies(header[..10], c.address + header[12..16] + header[20..]);
    FieldVerifies([0, icmp[1]], icmp[4..]);
    var a, b := ReplyHeader(c, header), ReplyIcmp(icmp);
    assert a[12..16] == c.address && a[16..20] == header[12..16];
    assert (a + b)[12..16] == a[12..16] && (a + b)[16..20] == a[16..20];
    assert b[4..] == icmp[4..];
  }
}
