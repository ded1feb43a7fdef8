/** The stack object. It writes frames into caller buffers, in place and field by
    field, and keeps the neighbor table; what it answers and writes is what `Net`
    and `Neighbors` say, and bytes outside the frame stay as they were. */
module Stack {
  import opened Wire
  import opened Checksum
  import opened Wrappers
  import opened Net
  import opened Neighbors

  /** `a & m` on bytes. */
  function And(a: Byte, m: Byte): bv8 {
    Both(Octet(a), Octet(m))
  }

  function Both(a: bv8, b: bv8): bv8 { a & b }
  function Both32(a: bv32, b: bv32): bv32 { a & b }

  /** The masked comparison of two addresses, byte by byte. */
  predicate SameSubnet(a: Ip, b: Ip, mask: Ip) {
    forall i | 0 <= i < 4 :: And(a[i], mask[i]) == And(b[i], mask[i])
  }

  function NextHop(c: Config, dst: Ip): Ip {
    if SameSubnet(c.address, dst, c.mask) then dst else c.gateway
  }

  /** An address as one 32-bit word, first byte on top. */
  function Address(a: Ip): bv32 {
    Word32(Octet(a[0]), Octet(a[1]), Octet(a[2]), Octet(a[3]))
  }

  function Word32(a: bv8, b: bv8, c: bv8, d: bv8): bv32 {
    ((a as bv32) << 24) | ((b as bv32) << 16) | ((c as bv32) << 8) | (d as bv32)
  }

  lemma MaskedWord(a: bv8, b: bv8, c: bv8, d: bv8, m: bv8, n: bv8, o: bv8, p: bv8)
    ensures Both32(Word32(a, b, c, d), Word32(m, n, o, p)) == Word32(Both(a, m), Both(b, n), Both(c, o), Both(d, p))
  {
  }

  lemma WordInjective(a: bv8, b: bv8, c: bv8, d: bv8, a': bv8, b': bv8, c': bv8, d': bv8)
    ensures Word32(a, b, c, d) == Word32(a', b', c', d') <==> a == a' && b == b' && c == c' && d == d'
  {
  }

  /** Inside the subnet: the masked words are equal. */
  predicate InSubnet(c: Config, dst: Ip) {
    Both32(Address(c.address), Address(c.mask)) == Both32(Address(dst), Address(c.mask))
  }

  lemma MaskedAddress(a: Ip, m: Ip)
    ensures Both32(Address(a), Address(m)) == Word32(And(a[0], m[0]), And(a[1], m[1]), And(a[2], m[2]), And(a[3], m[3]))
  {
    hide Octet, Word32, Both, Both32;
    MaskedWord(Octet(a[0]), Octet(a[1]), Octet(a[2]), Octet(a[3]), Octet(m[0]), Octet(m[1]), Octet(m[2]), Octet(m[3]));
  }

  /** Comparing byte by byte is comparing the masked words. */
  lemma SubnetIsMasked(c: Config, dst: Ip)
    ensures SameSubnet(c.address, dst, c.mask) <==> InSubnet(c, dst)
    ensures NextHop(c, dst) == if InSubnet(c, dst) then dst else c.gateway
  {
    hide Octet, Word32, Address, And, SameSubnet, Both32;
    var a, m := c.address, c.mask;
    MaskedAddress(a, m);
    MaskedAddress(dst, m);
    WordInjective(And(a[0], m[0]), And(a[1], m[1]), And(a[2], m[2]), And(a[3], m[3]),
                  And(dst[0], m[0]), And(dst[1], m[1]), And(dst[2], m[2]), And(dst[3], m[3]));
    FourBytes(a, dst, m);
  }

  lemma FourBytes(a: Ip, b: Ip, m: Ip)
    ensures SameSubnet(a, b, m) <==>
      And(a[0], m[0]) == And(b[0], m[0]) && And(a[1], m[1]) == And(b[1], m[1])
      && And(a[2], m[2]) == And(b[2], m[2]) && And(a[3], m[3]) == And(b[3], m[3])
  {
    hide And;
  }

  // ---- Writing frames ------------------------------------------------------------------

  lemma SpliceMiddle(a: Bytes, b: Bytes, c: Bytes, v: Bytes)
    requires |v| == |b|
    ensures Splice(a + b + c, |a|, v) == a + v + c
  {
    assert (a + b + c)[..|a|] == a && (a + b + c)[|a| + |v|..] == c;
  }

  lemma SpliceInside(front: Bytes, m: Bytes, rest: Bytes, at: nat, v: Bytes)
    requires at + |v| <= |m|
    ensures Splice(front + m + rest, |front| + at, v) == front + Splice(m, at, v) + rest
  {
    assert front + m + rest == (front + m[..at]) + m[at..at + |v|] + (m[at + |v|..] + rest);
    SpliceMiddle(front + m[..at], m[at..at + |v|], m[at + |v|..] + rest, v);
  }

  lemma Middle(front: Bytes, m: Bytes, rest: Bytes)
    ensures (front + m + rest)[|front|..|front| + |m|] == m
  {
  }

  /** Overwrite part of the middle section of a buffer. */
  method Patch(out: array<Byte>, ghost front: Bytes, ghost m: Bytes, ghost rest: Bytes, start: nat, at: nat, v: Bytes)
    requires out[..] == front + m + rest && |front| == start && at + |v| <= |m|
    modifies out
    ensures out[..] == front + Splice(m, at, v) + rest
  {
    Put(out, start + at, v);
    SpliceInside(front, m, rest, at, v);
  }

  /** Read the middle section. */
  method Section(out: array<Byte>, ghost front: Bytes, ghost m: Bytes, ghost rest: Bytes, start: nat, end: nat) returns (r: Bytes)
    requires out[..] == front + m + rest && |front| == start && start + |m| == end
    ensures r == m
  {
    r := out[..][start..end];
    Middle(front, m, rest);
  }

  method WriteEthernet(out: array<Byte>, dst: Mac, src: Mac, kind: nat, len: nat)
    requires ETH <= len <= out.Length
    modifies out
    ensures out[..ETH] == Ethernet(dst, src, kind) && out[len..] == old(out[len..])
  {
    hide Be;
    assert out[..0] == [];
    var at := PutNext(out, 0, dst, len, []);
    at := PutNext(out, at, src, len, out[..at]);
    at := PutNext(out, at, Be(kind, 2), len, out[..at]);
  }

  /** Append the IPv4 header at `at`; the checksum is computed over the header with
      a zero field and then stored. */
  method WriteIpv4Header(out: array<Byte>, at0: nat, payloadLen: nat, id: nat, protocol: Byte, src: Ip, dst: Ip, len: nat)
    requires at0 + IPV4 <= len <= out.Length && IPV4 + payloadLen < 0x1_0000
    modifies out
    ensures out[..at0 + IPV4] == old(out[..at0]) + IpHeader(payloadLen, id, protocol, src, dst)
    ensures out[len..] == old(out[len..])
  {
    hide Be, ChecksumOf;
    ghost var front := out[..at0];
    var head := IpHead(payloadLen, id, protocol);
    var at := PutNext(out, at0, [0x45, 0], len, front);
    at := PutNext(out, at, Be(IPV4 + payloadLen, 2), len, out[..at]);
    at := PutNext(out, at, Be(id, 2), len, out[..at]);
    at := PutNext(out, at, Be(0x4000, 2), len, out[..at]);
    at := PutNext(out, at, [64, protocol], len, out[..at]);
    assert out[..at] == front + head;
    FinishHeader(out, at0, head, src + dst, len, front);
  }

  /** Zero field, the rest, then the checksum over all of it stored in the field. */
  method FinishHeader(out: array<Byte>, at0: nat, head: Bytes, rest: Bytes, len: nat, ghost front: Bytes)
    requires |head| == 10 && |rest| == 8 && at0 + IPV4 <= len <= out.Length && out[..at0 + 10] == front + head && |front| == at0
    modifies out
    ensures out[..at0 + IPV4] == front + (head + Be(ChecksumOf(head + [0, 0] + rest), 2) + rest)
    ensures out[len..] == old(out[len..])
  {
    hide Be, ChecksumOf, Splice;
    var at := PutNext(out, at0 + 10, [0, 0], len, front + head);
    at := PutNext(out, at, rest, len, front + head + [0, 0]);
    ghost var tail := out[at..];
    Written(out[..], front, head, [0, 0], rest, tail);
    ghost var m := head + [0, 0] + rest;
    var header := Section(out, front, m, tail, at0, at);
    var sum := ComputeChecksum(header);
    Patch(out, front, m, tail, at0, 10, Be(sum, 2));
    SpliceMiddle(head, [0, 0], rest, Be(sum, 2));
    Ends(out[..], front, head + Be(sum, 2) + rest, tail, len);
  }

  lemma Written(s: Bytes, front: Bytes, a: Bytes, b: Bytes, c: Bytes, tail: Bytes)
    requires |front| + |a| + |b| + |c| <= |s| && s[..|front| + |a| + |b| + |c|] == front + a + b + c
    requires s[|front| + |a| + |b| + |c|..] == tail
    ensures s == front + (a + b + c) + tail
  {
    assert s == s[..|front| + |a| + |b| + |c|] + tail;
  }

  lemma Ends(s: Bytes, front: Bytes, m: Bytes, tail: Bytes, len: nat)
    requires s == front + m + tail && |front| + |m| <= len <= |s|
    ensures s[..|front| + |m|] == front + m && s[len..] == tail[len - |front| - |m|..]
  {
  }

  method ComputeTransport(src: Ip, dst: Ip, protocol: nat, packet: Bytes) returns (r: nat)
    requires |packet| <= 65535 && protocol < 256
    ensures r == TransportChecksum(src, dst, protocol, packet)
  {
    hide Wrapped, Sum16;
    SumBound(src);
    SumBound(dst);
    SumBound(packet);
    var sum := PartialSum(0, src);
    sum := PartialSum(sum, dst);
    sum := sum + protocol;
    sum := sum + |packet|;
    sum := PartialSum(sum, packet);
    r := FinalizeSum(sum);
  }

  /** Append a UDP packet that fills the frame up to `len`. */
  method WriteUdp(out: array<Byte>, at0: nat, src: Ip, dst: Ip, sourcePort: nat, destinationPort: nat, payload: Bytes, len: nat)
    requires at0 + UDP + |payload| == len <= out.Length && UDP + |payload| < 0x1_0000
    modifies out
    ensures out[..len] == old(out[..at0]) + UdpPacket(src, dst, sourcePort, destinationPort, payload)
    ensures out[len..] == old(out[len..])
  {
    hide Be, TransportChecksum;
    ghost var front := out[..at0];
    var at := PutNext(out, at0, Be(sourcePort, 2), len, front);
    at := PutNext(out, at, Be(destinationPort, 2), len, out[..at]);
    at := PutNext(out, at, Be(UDP + |payload|, 2), len, out[..at]);
    var head := UdpHead(sourcePort, destinationPort, |payload|);
    assert out[..at] == front + head;
    FinishUdp(out, at0, head, payload, src, dst, len, front);
  }

  method FinishUdp(out: array<Byte>, at0: nat, head: Bytes, payload: Bytes, src: Ip, dst: Ip, len: nat, ghost front: Bytes)
    requires |head| == 6 && at0 + UDP + |payload| == len <= out.Length && UDP + |payload| < 0x1_0000
    requires out[..at0 + 6] == front + head && |front| == at0
    modifies out
    ensures out[..len] == front + (head + Be(Nonzero(TransportChecksum(src, dst, UDP_PROTOCOL, head + [0, 0] + payload)), 2) + payload)
    ensures out[len..] == old(out[len..])
  {
    hide Be, TransportChecksum, Splice, Nonzero;
    var at := PutNext(out, at0 + 6, [0, 0], len, front + head);
    at := PutNext(out, at, payload, len, front + head + [0, 0]);
    ghost var tail := out[at..];
    Written(out[..], front, head, [0, 0], payload, tail);
    ghost var m := head + [0, 0] + payload;
    var packet := Section(out, front, m, tail, at0, at);
    var sum := ComputeTransport(src, dst, UDP_PROTOCOL, packet);
    Patch(out, front, m, tail, at0, 6, Be(Nonzero(sum), 2));
    SpliceMiddle(head, [0, 0], payload, Be(Nonzero(sum), 2));
    Ends(out[..], front, head + Be(Nonzero(sum), 2) + payload, tail, len);
  }

  function Nonzero(sum: nat): nat { if sum == 0 then 0xffff else sum }

  method WriteArp(c: Config, ethernetDst: Mac, targetIp: Ip, targetMac: Mac, operation: nat, out: array<Byte>) returns (r: Result<nat, Error>)
    modifies out
    ensures r == if out.Length < ETH + ARP then Err(BufferTooSmall) else Ok(ETH + ARP)
    ensures r.Err? ==> out[..] == old(out[..])
    ensures r.Ok? ==> out[..] == ArpFrame(c, ethernetDst, targetIp, targetMac, operation) + old(out[ETH + ARP..])
  {
    hide Be;
    var len := ETH + ARP;
    if out.Length < len {
      return Err(BufferTooSmall);
    }
    WriteEthernet(out, ethernetDst, c.mac, TYPE_ARP, len);
    var at := WriteArpStart(out, operation, out[..ETH]);
    at := PutNext(out, at, c.mac, len, out[..at]);
    at := PutNext(out, at, c.address, len, out[..at]);
    at := PutNext(out, at, targetMac, len, out[..at]);
    at := PutNext(out, at, targetIp, len, out[..at]);
    assert out[..] == out[..len] + out[len..];
    r := Ok(len);
  }

  /** Hardware and protocol types with their sizes, and the operation. */
  method WriteArpStart(out: array<Byte>, operation: nat, ghost head: Bytes) returns (at: nat)
    requires ETH + ARP <= out.Length && head == out[..ETH]
    modifies out
    ensures at == ETH + 8 && out[..at] == head + Be(1, 2) + Be(TYPE_IPV4, 2) + [6, 4] + Be(operation, 2)
    ensures out[ETH + ARP..] == old(out[ETH + ARP..])
  {
    hide Be;
    var len := ETH + ARP;
    at := PutNext(out, ETH, Be(1, 2), len, out[..ETH]);
    at := PutNext(out, at, Be(TYPE_IPV4, 2), len, out[..at]);
    at := PutNext(out, at, [6, 4], len, out[..at]);
    at := PutNext(out, at, Be(operation, 2), len, out[..at]);
  }

  /** Turn a copied echo request into its reply, in place. */
  method WriteEchoReply(c: Config, frame: Bytes, start: nat, end: nat, out: array<Byte>)
    requires ETH + IPV4 <= start && start + 8 <= end <= |frame| && end <= out.Length && end <= ETH + 65535
    modifies out
    ensures out[..] == Ethernet(frame[6..12], c.mac, TYPE_IPV4) + ReplyHeader(c, frame[ETH..start]) + ReplyIcmp(frame[start..end]) + old(out[end..])
  {
    hide Be, ChecksumOf, Ethernet, ReplyHeader, ReplyIcmp;
    ghost var rest := out[end..];
    ghost var eth := Ethernet(frame[6..12], c.mac, TYPE_IPV4);
    ghost var header, icmp := frame[ETH..start], frame[start..end];
    Put(out, 0, frame[..end]);
    WriteEthernet(out, frame[6..12], c.mac, TYPE_IPV4, ETH);
    Copied(out[..], frame, eth, start, end, rest);
    PatchHeader(out, c, frame, start, eth, header, icmp + rest);
    Regroup(eth, ReplyHeader(c, header), icmp, rest);
    PatchIcmp(out, start, end, eth + ReplyHeader(c, header), icmp, rest);
  }

  lemma Copied(s: Bytes, frame: Bytes, eth: Bytes, start: nat, end: nat, rest: Bytes)
    requires ETH <= start <= end <= |frame| && |eth| == ETH <= |s| && s[..ETH] == eth
    requires s[ETH..] == ([] + frame[..end] + rest)[ETH..]
    ensures s == eth + frame[ETH..start] + (frame[start..end] + rest)
  {
    assert s == s[..ETH] + s[ETH..];
    assert ([] + frame[..end] + rest)[ETH..] == frame[ETH..start] + (frame[start..end] + rest);
  }

  lemma Regroup(a: Bytes, b: Bytes, c: Bytes, d: Bytes)
    ensures a + b + (c + d) == (a + b) + c + d
  {
  }

  method PatchHeader(out: array<Byte>, c: Config, frame: Bytes, start: nat, ghost eth: Bytes, ghost h: Bytes, ghost rest: Bytes)
    requires ETH + IPV4 <= start <= |frame| && start <= ETH + 65535 && |eth| == ETH && h == frame[ETH..start] && out[..] == eth + h + rest
    modifies out
    ensures out[..] == eth + ReplyHeader(c, h) + rest
  {
    hide Be, ChecksumOf, Splice;
    Inside(frame, ETH, h, 12, 16);
    ghost var m1 := Splice(h, 12, c.address);
    ghost var m2 := Splice(m1, 16, h[12..16]);
    ghost var m3 := Splice(m2, 10, [0, 0]);
    Patch(out, eth, h, rest, ETH, 12, c.address);
    Patch(out, eth, m1, rest, ETH, 16, frame[ETH + 12..ETH + 16]);
    Patch(out, eth, m2, rest, ETH, 10, [0, 0]);
    ghost var a, b := h[..10], c.address + h[12..16] + h[20..];
    HeaderSpliced(h, c.address, h[12..16]);
    var header := Section(out, eth, m3, rest, ETH, start);
    var sum := ComputeChecksum(header);
    Patch(out, eth, m3, rest, ETH, 10, Be(sum, 2));
    SpliceMiddle(a, [0, 0], b, Be(sum, 2));
  }

  lemma HeaderSpliced(h: Bytes, src: Ip, dst: Bytes)
    requires |h| >= IPV4 && |dst| == 4
    ensures Splice(Splice(Splice(h, 12, src), 16, dst), 10, [0, 0]) == h[..10] + [0, 0] + (src + dst + h[20..])
  {
  }

  method PatchIcmp(out: array<Byte>, start: nat, end: nat, ghost front: Bytes, ghost m: Bytes, ghost rest: Bytes)
    requires start + 8 <= end <= ETH + 65535 && |front| == start && |m| == end - start && ETH <= start && out[..] == front + m + rest
    modifies out
    ensures out[..] == front + ReplyIcmp(m) + rest
  {
    hide Be, ChecksumOf, Splice;
    ghost var m1 := Splice(m, 0, [0]);
    ghost var m2 := Splice(m1, 2, [0, 0]);
    Patch(out, front, m, rest, start, 0, [0]);
    Patch(out, front, m1, rest, start, 2, [0, 0]);
    ghost var a, b := [0, m[1]], m[4..];
    IcmpSpliced(m);
    var packet := Section(out, front, m2, rest, start, end);
    var sum := ComputeChecksum(packet);
    Patch(out, front, m2, rest, start, 2, Be(sum, 2));
    SpliceMiddle(a, [0, 0], b, Be(sum, 2));
  }

  lemma IcmpSpliced(m: Bytes)
    requires |m| >= 8
    ensures Splice(Splice(m, 0, [0]), 2, [0, 0]) == [0, m[1]] + [0, 0] + m[4..]
  {
  }

  // ---- The object ---------------------------------------------------------------------------

  class Stack {
    var config: Config
    const table: Table
    var identification: nat

    ghost predicate Valid()
      reads this, table, table.slots
    {
      table.Valid() && identification < 0x1_0000
    }

    constructor (n: nat, config: Config)
      ensures Valid() && this.config == config && identification == 1
      ensures table.View() == [] && table.slots.Length == n && fresh(table) && fresh(table.slots)
    {
      var t := new Table(n);
      this.config, table, identification := config, t, 1;
    }

    method SetConfig(config: Config)
      requires Valid()
      modifies this, table, table.slots
      ensures Valid() && this.config == config && identification == old(identification) && table.View() == []
    {
      this.config := config;
      table.Clear();
    }

    method LearnFrom(learn: Option<Binding>)
      requires Valid()
      modifies table, table.slots
      ensures Valid() && |old(table.View())| <= table.slots.Length
      ensures table.View() == After(old(table.View()), table.slots.Length, learn)
    {
      MapUnique(table.slots[..], table.next);
      if learn.Some? {
        table.Learn(learn.value);
      }
    }

    /** Handle one frame: the answer, the bytes written and the new cache are those
        of `Net.Receive`. */
    method ReceiveFrame(frame: Bytes, response: array<Byte>) returns (r: Result<Event, Error>)
      requires Valid()
      modifies table, table.slots, response
      ensures Valid()
      ensures var e := Receive(config, frame, response.Length);
        && r == e.answer && |e.reply| <= response.Length && response[..] == e.reply + old(response[|e.reply|..])
        && |old(table.View())| <= table.slots.Length
        && table.View() == After(old(table.View()), table.slots.Length, e.learn)
    {
      hide BeNum, ReceiveArp, ReceiveIpv4, Learned, MapOf, Ring;
      Bounded();
      if |frame| < ETH {
        return Err(Truncated);
      }
      var destination: Mac := frame[0..6];
      if destination != config.mac && destination != MAC_BROADCAST {
        return Ok(Nothing);
      }
      var kind := BeNum(frame[12..14]);
      if kind == TYPE_ARP {
        r := HandleArp(frame[6..12], frame[ETH..], response);
      } else if kind == TYPE_IPV4 {
        r := HandleIpv4(frame[6..12], frame, response);
      } else {
        r := Ok(Nothing);
      }
    }

    lemma Bounded()
      requires Valid()
      ensures table.next <= table.slots.Length && |table.View()| <= table.slots.Length
    {
      MapUnique(table.slots[..], table.next);
    }

    method HandleArp(from: Mac, p: Bytes, response: array<Byte>) returns (r: Result<Event, Error>)
      requires Valid()
      modifies table, table.slots, response
      ensures Valid()
      ensures var e := ReceiveArp(config, from, p, response.Length);
        && r == e.answer && |e.reply| <= response.Length && response[..] == e.reply + old(response[|e.reply|..])
        && |old(table.View())| <= table.slots.Length
        && table.View() == After(old(table.View()), table.slots.Length, e.learn)
    {
      hide BeNum, Learned, MapOf, Ring, ArpFrame;
      Bounded();
      if |p| < ARP {
        return Err(Truncated);
      }
      if BeNum(p[0..2]) != 1 || BeNum(p[2..4]) != TYPE_IPV4 || p[4] != 6 || p[5] != 4 {
        return Err(Unsupported);
      }
      var operation := BeNum(p[6..8]);
      var senderMac: Mac, senderIp: Ip, targetIp: Ip := p[8..14], p[14..18], p[24..28];
      if senderMac != from {
        return Err(InvalidHeader);
      }
      LearnFrom(Some(Binding(senderIp, senderMac)));
      if operation == 1 && targetIp == config.address {
        var len := WriteArp(config, senderMac, senderIp, senderMac, 2, response);
        if len.Err? {
          return Err(len.error);
        }
        r := Ok(Reply(len.value));
      } else if operation == 2 {
        r := Ok(NeighborLearned(senderIp, senderMac));
      } else {
        r := Ok(Nothing);
      }
    }

    method HandleIpv4(from: Mac, frame: Bytes, response: array<Byte>) returns (r: Result<Event, Error>)
      requires Valid() && |frame| >= ETH
      modifies table, table.slots, response
      ensures Valid()
      ensures var e := ReceiveIpv4(config, from, frame, response.Length);
        && r == e.answer && |e.reply| <= response.Length && response[..] == e.reply + old(response[|e.reply|..])
        && |old(table.View())| <= table.slots.Length
        && table.View() == After(old(table.View()), table.slots.Length, e.learn)
    {
      hide BeNum, Learned, MapOf, Ring, ChecksumOf, ParseUdp, ReceiveIcmp;
      Bounded();
      var p := frame[ETH..];
      if |p| < IPV4 || p[0] / 16 != 4 {
        return Err(InvalidHeader);
      }
      var headerLen := Times4(p[0] % 16);
      if headerLen < IPV4 || |p| < headerLen {
        return Err(InvalidHeader);
      }
      var totalLen := BeNum(p[2..4]);
      if totalLen < headerLen || |p| < totalLen {
        return Err(Truncated);
      }
      var sum := ComputeChecksum(p[..headerLen]);
      if sum != 0 {
        return Err(InvalidChecksum);
      }
      if BeNum(p[6..8]) % 0x4000 != 0 {
        return Err(Unsupported);
      }
      var source: Ip, destination: Ip := p[12..16], p[16..20];
      if destination != config.address && destination != IP_BROADCAST {
        return Ok(Nothing);
      }
      LearnFrom(Some(Binding(source, from)));
      if p[9] == ICMP_PROTOCOL {
        ShortLength(p[2..4]);
        r := HandleIcmp(frame, headerLen, totalLen, response, Some(Binding(source, from)));
      } else if p[9] == UDP_PROTOCOL {
        var d := ParseUdp(source, destination, p[headerLen..totalLen]);
        r := match d case Ok(v) => Ok(Udp(v)) case Err(e) => Err(e);
      } else {
        r := Ok(Nothing);
      }
    }

    method HandleIcmp(frame: Bytes, headerLen: nat, totalLen: nat, response: array<Byte>, ghost learn: Option<Binding>) returns (r: Result<Event, Error>)
      requires IPV4 <= headerLen <= totalLen <= 65535 && ETH + totalLen <= |frame|
      modifies response
      ensures var e := ReceiveIcmp(config, frame, headerLen, totalLen, response.Length, learn);
        && r == e.answer && |e.reply| <= response.Length && response[..] == e.reply + old(response[|e.reply|..]) && e.learn == learn
    {
      hide ChecksumOf, Ethernet, ReplyHeader, ReplyIcmp;
      var end, start := ETH + totalLen, ETH + headerLen;
      if totalLen < headerLen + 8 {
        return Err(Truncated);
      }
      var sum := ComputeChecksum(frame[start..end]);
      if sum != 0 {
        return Err(InvalidChecksum);
      }
      if frame[start] != 8 || frame[start + 1] != 0 {
        return Ok(Nothing);
      }
      if response.Length < end {
        return Err(BufferTooSmall);
      }
      WriteEchoReply(config, frame, start, end, response);
      r := Ok(Reply(end));
    }

    /** Send a datagram, or the ARP request that must come first. */
    method SendUdp(dst: Ip, sourcePort: nat, destinationPort: nat, payload: Bytes, out: array<Byte>) returns (r: Result<SendOutcome, Error>)
      requires Valid()
      modifies this`identification, out
      ensures Valid() && config == old(config) && table.View() == old(table.View())
      ensures |payload| > 65507 ==> r == Err(Unsupported)
      ensures |payload| <= 65507 && Hop(config, table.View(), dst).None? ==>
        r == (if out.Length < ETH + ARP then Err(BufferTooSmall) else Ok(NeighborDiscovery(ETH + ARP)))
        && (r.Ok? ==> out[..] == ArpFrame(config, MAC_BROADCAST, NextHop(config, dst), MAC_ZERO, 1) + old(out[ETH + ARP..]))
      ensures |payload| <= 65507 && Hop(config, table.View(), dst).Some? ==>
        var total := ETH + IPV4 + UDP + |payload|;
        r == (if out.Length < total then Err(BufferTooSmall) else Ok(Sent(total)))
        && (r.Ok? ==>
              (&& identification == (old(identification) + 1) % 0x1_0000
               && out[..] == UdpFrame(config, Hop(config, table.View(), dst).value, identification, dst, sourcePort, destinationPort, payload) + old(out[total..])))
      ensures r.Err? ==> out[..] == old(out[..])
      ensures !(r.Ok? && r.value.Sent?) ==> identification == old(identification)
      ensures r.Ok? && r.value.NeighborDiscovery? ==>
        out.Length >= 42 && out[..6] == MAC_BROADCAST && out[38..42] == (if InSubnet(config, dst) then dst else config.gateway)
      ensures r.Ok? && r.value.Sent? && dst != IP_BROADCAST ==>
        && out.Length >= 42
        && var known := Lookup(table.View(), if InSubnet(config, dst) then dst else config.gateway); known.Some? && out[..6] == known.value
    {
      hide SameSubnet, InSubnet, MapOf, Ring, Ethernet, IpHeader, UdpPacket, UdpFrame, ArpFrame, Lookup;
      SubnetIsMasked(config, dst);
      if |payload| > 65535 - IPV4 - UDP {
        return Err(Unsupported);
      }
      var mac := MAC_BROADCAST;
      if dst != IP_BROADCAST {
        var hop := NextHop(config, dst);
        var found := table.Neighbor(hop);
        if found.None? {
          var len := WriteArp(config, MAC_BROADCAST, hop, MAC_ZERO, 1, out);
          r := match len case Ok(n) => Ok(NeighborDiscovery(n)) case Err(e) => Err(e);
          RequestBytes(config, hop, out[..]);
          return;
        }
        mac := found.value;
      }
      var total := ETH + IPV4 + UDP + |payload|;
      if out.Length < total {
        return Err(BufferTooSmall);
      }
      identification := (identification + 1) % 0x1_0000;
      WriteDatagram(config, mac, identification, dst, sourcePort, destinationPort, payload, out);
      DatagramBytes(config, mac, identification, dst, sourcePort, destinationPort, payload, out[..]);
      r := Ok(Sent(total));
    }
  }

  /** Where an address request asks, and for whom. */
  lemma RequestBytes(c: Config, target: Ip, s: Bytes)
    ensures |s| >= ETH + ARP && s == ArpFrame(c, MAC_BROADCAST, target, MAC_ZERO, 1) + s[ETH + ARP..] ==> s[..6] == MAC_BROADCAST && s[38..42] == target
  {
    hide Be, Ethernet;
    var f := ArpFrame(c, MAC_BROADCAST, target, MAC_ZERO, 1);
    ArpReads(c, MAC_BROADCAST, target, MAC_ZERO, 1);
    assert f[38..42] == f[ETH..][24..28];
    if |s| >= ETH + ARP && s == f + s[ETH + ARP..] {
      assert s[..6] == f[0..6] && s[38..42] == f[38..42];
    }
  }

  lemma DatagramBytes(c: Config, mac: Mac, id: nat, dst: Ip, sourcePort: nat, destinationPort: nat, payload: Bytes, s: Bytes)
    requires |s| >= ETH + IPV4 + UDP + |payload|
    ensures s == UdpFrame(c, mac, id, dst, sourcePort, destinationPort, payload) + s[ETH + IPV4 + UDP + |payload|..] ==> s[..6] == mac
  {
    hide IpHeader, UdpPacket, Be;
  }

  method WriteDatagram(c: Config, mac: Mac, id: nat, dst: Ip, sourcePort: nat, destinationPort: nat, payload: Bytes, out: array<Byte>)
    requires |payload| <= 65507 && ETH + IPV4 + UDP + |payload| <= out.Length
    modifies out
    ensures out[..] == UdpFrame(c, mac, id, dst, sourcePort, destinationPort, payload) + old(out[ETH + IPV4 + UDP + |payload|..])
  {
    hide Ethernet, IpHeader, UdpPacket;
    var total := ETH + IPV4 + UDP + |payload|;
    WriteEthernet(out, mac, c.mac, TYPE_IPV4, total);
    WriteIpv4Header(out, ETH, UDP + |payload|, id, UDP_PROTOCOL, c.address, dst, total);
    WriteUdp(out, ETH + IPV4, c.address, dst, sourcePort, destinationPort, payload, total);
    assert out[..] == out[..total] + out[total..];
  }

  /** The address a datagram goes to on the link, if it is known. */
  function Hop(c: Config, f: seq<Binding>, dst: Ip): Option<Mac> {
    if dst == IP_BROADCAST then Some(MAC_BROADCAST) else Lookup(f, NextHop(c, dst))
  }

  function After(f: seq<Binding>, n: nat, learn: Option<Binding>): seq<Binding>
    requires |f| <= n
  {
    if learn.Some? then Learned(f, n, learn.value) else f
  }

  lemma ShortLength(b: Bytes)
    requires |b| == 2
    ensures BeNum(b) <= 65535
  {
    Pow256Values();
    BeBound(b);
  }
}
