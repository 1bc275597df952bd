/** Frames written out link type by link type, and what ParseUDP finds in them.  */
module Links {
  import opened Prelude
  import opened Wire
  import opened Pcap

  // What stands in front of an IPv4 packet.  An Ethernet frame may carry any number of VLAN tags; the contents of
  // the other fields do not matter.
  datatype Head =
    | Ethernet(macs: Bytes, tags: seq<Tag>)
    | Cooked(lead: Bytes)
    | Cooked2(trail: Bytes)
    | Loopback(family: Bytes)
    | Bare

  datatype Tag = Tag(outer: bool, control: Bytes)

  predicate HeadOk(h: Head) {
    match h
    case Ethernet(macs, tags) => |macs| == 12 && forall i | 0 <= i < |tags| :: |tags[i].control| == 2
    case Cooked(lead) => |lead| == 14
    case Cooked2(trail) => |trail| == 18
    case Loopback(family) => |family| == 4
    case Bare => true
  }

  // The link type that a capture file names for it.
  predicate Names(link: nat, h: Head) {
    match h
    case Ethernet(_, _) => link == 1
    case Cooked(_) => link == 113
    case Cooked2(_) => link == 276
    case Loopback(_) => link == 0 || link == 108
    case Bare => link == 101 || link == 12
  }

  // Each tag is announced by its own type, and IPv4 by 0x0800.
  function TagBytes(tags: seq<Tag>): Bytes {
    if tags == [] then [0x08, 0x00]
    else (if tags[0].outer then [0x88, 0xa8] else [0x81, 0x00]) + tags[0].control + TagBytes(tags[1..])
  }

  function HeadBytes(h: Head): Bytes {
    match h
    case Ethernet(macs, tags) => macs + TagBytes(tags)
    case Cooked(lead) => lead + [0x08, 0x00]
    case Cooked2(trail) => [0x08, 0x00] + trail
    case Loopback(family) => family
    case Bare => []
  }

  // ---- from the link to the packet ----

  lemma {:induction false} TagsRead(tags: seq<Tag>, frame: Bytes, off: nat, rest: Bytes)
    requires forall i | 0 <= i < |tags| :: |tags[i].control| == 2
    requires 2 <= off <= |frame| && frame[off - 2..] == TagBytes(tags) + rest
    ensures Untag(frame, U16(frame, off - 2), off) == Some(off - 2 + |TagBytes(tags)|)
    decreases |tags|
  {
    var tail := frame[off - 2..];
    assert tail[0] == frame[off - 2] && tail[1] == frame[off - 1];
    if tags != [] {
      var more := TagBytes(tags[1..]) + rest;
      assert tail == (if tags[0].outer then [0x88, 0xa8] else [0x81, 0x00]) + tags[0].control + more;
      assert tail[4..] == more && |TagBytes(tags[1..])| >= 2;
      assert frame[off + 2..] == tail[4..];
      TagsRead(tags[1..], frame, off + 4, rest);
    }
  }

  lemma L3Found(link: nat, h: Head, rest: Bytes)
    requires HeadOk(h) && Names(link, h)
    ensures L3Offset(link, HeadBytes(h) + rest) == Some(|HeadBytes(h)|)
  {
    var frame := HeadBytes(h) + rest;
    match h
    case Ethernet(macs, tags) =>
      assert |TagBytes(tags)| >= 2 && frame[12..] == TagBytes(tags) + rest;
      TagsRead(tags, frame, 14, rest);
    case Cooked(lead) => assert frame[14] == 0x08 && frame[15] == 0x00;
    case Cooked2(trail) => assert frame[0] == 0x08 && frame[1] == 0x00;
    case Loopback(family) =>
    case Bare =>
  }

  // ---- the packet ----

  // An IPv4 packet that carries UDP: the header's length in words in its first byte, the protocol in its tenth, and
  // behind it ports, length and checksum of the datagram, and the rest of the frame.
  datatype Packet = Packet(header: Bytes, srcPort: nat, dstPort: nat, length: nat, sum: Bytes, rest: Bytes)

  predicate PacketOk(p: Packet) {
    && 20 <= |p.header| <= 60 && |p.header| % 4 == 0 && p.header[0] == 0x40 + |p.header| / 4 && p.header[9] == 17
    && p.srcPort < 0x1_0000 && p.dstPort < 0x1_0000 && p.length < 0x1_0000 && |p.sum| == 2
  }

  function PacketBytes(p: Packet): Bytes
    requires PacketOk(p)
  {
    p.header + (Put16(p.srcPort) + Put16(p.dstPort) + Put16(p.length) + p.sum + p.rest)
  }

  // The length the datagram claims, unless the frame is too short for it or it leaves no room for its own header.
  function PayloadLen(p: Packet): nat {
    if 8 <= p.length <= 8 + |p.rest| then p.length - 8 else |p.rest|
  }

  lemma UdpFound(p: Packet, head: Bytes, frame: Bytes)
    requires PacketOk(p) && frame == head + PacketBytes(p)
    ensures var udp := |head| + |p.header|;
      && |frame| == udp + 8 + |p.rest| && frame[|head|] == p.header[0] && frame[|head| + 9] == 17
      && U16(frame, udp) == p.srcPort && U16(frame, udp + 2) == p.dstPort && U16(frame, udp + 4) == p.length
      && frame[udp + 8..] == p.rest
  {
    var udp := |head| + |p.header|;
    var tail := Put16(p.srcPort) + Put16(p.dstPort) + Put16(p.length) + p.sum + p.rest;
    assert frame == (head + p.header) + tail;
    assert frame[udp..] == tail;
    assert frame[udp] == tail[0] && frame[udp + 1] == tail[1] && frame[udp + 2] == tail[2] && frame[udp + 3] == tail[3];
    assert frame[udp + 4] == tail[4] && frame[udp + 5] == tail[5];
    assert frame[udp + 8..] == tail[8..] == p.rest;
  }

  // Main result: whatever the link type and its header, a UDP packet is found where it was written.
  lemma WrittenFound(link: nat, h: Head, p: Packet, frame: Bytes)
    requires HeadOk(h) && Names(link, h) && PacketOk(p) && frame == HeadBytes(h) + PacketBytes(p)
    ensures var l3 := |HeadBytes(h)|;
      ParseUdp(link, frame)
      == Some(Udp(Ipv4(l3, |p.header|), l3 + |p.header|, l3 + |p.header| + 8, PayloadLen(p), p.srcPort, p.dstPort))
    ensures var u := ParseUdp(link, frame).value; frame[u.off..u.off + u.len] == p.rest[..PayloadLen(p)]
  {
    Ipv4Found(link, h, p.header, Put16(p.srcPort) + Put16(p.dstPort) + Put16(p.length) + p.sum + p.rest, frame);
    PacketFound(link, HeadBytes(h), p, frame);
  }

  lemma PacketFound(link: nat, head: Bytes, p: Packet, frame: Bytes)
    requires PacketOk(p) && frame == head + PacketBytes(p)
    requires ParseIpv4(link, frame) == Some(Ipv4(|head|, |p.header|))
    ensures var udp := |head| + |p.header|;
      && ParseUdp(link, frame)
         == Some(Udp(Ipv4(|head|, |p.header|), udp, udp + 8, PayloadLen(p), p.srcPort, p.dstPort))
      && frame[udp + 8..udp + 8 + PayloadLen(p)] == p.rest[..PayloadLen(p)]
  {
    UdpFound(p, head, frame);
    UdpParsed(link, frame, |head|, |p.header|, p.srcPort, p.dstPort, p.length);
    var off := |head| + |p.header| + 8;
    assert frame[off..][..PayloadLen(p)] == frame[off..off + PayloadLen(p)];
  }

  lemma UdpParsed(link: nat, frame: Bytes, l3: nat, ihl: nat, srcPort: nat, dstPort: nat, length: nat)
    requires ParseIpv4(link, frame) == Some(Ipv4(l3, ihl)) && |frame| >= l3 + ihl + 8 && frame[l3 + 9] == 17
    requires U16(frame, l3 + ihl) == srcPort && U16(frame, l3 + ihl + 2) == dstPort
      && U16(frame, l3 + ihl + 4) == length
    ensures var left := |frame| - l3 - ihl - 8;
      ParseUdp(link, frame)
      == Some(Udp(Ipv4(l3, ihl), l3 + ihl, l3 + ihl + 8, if 8 <= length <= 8 + left then length - 8 else left, srcPort,
                  dstPort))
  {
  }

  // The same of any IPv4 packet.
  lemma Ipv4Found(link: nat, h: Head, header: Bytes, rest: Bytes, frame: Bytes)
    requires HeadOk(h) && Names(link, h) && frame == HeadBytes(h) + (header + rest)
    requires 20 <= |header| <= 60 && |header| % 4 == 0 && header[0] == 0x40 + |header| / 4
    ensures ParseIpv4(link, frame) == Some(Ipv4(|HeadBytes(h)|, |header|))
  {
    L3Found(link, h, header + rest);
    assert frame[|HeadBytes(h)|] == header[0];
    Words(|header|);
  }

  lemma Words(n: nat)
    requires 20 <= n <= 60 && n % 4 == 0
    ensures (0x40 + n / 4) / 16 == 4 && (0x40 + n / 4) % 16 * 4 == n
  {
  }

  // ---- and back ----

  lemma {:induction false} TagsWritten(frame: Bytes, off: nat, l3: nat) returns (tags: seq<Tag>)
    requires 2 <= off <= |frame| && Untag(frame, U16(frame, off - 2), off) == Some(l3)
    ensures off <= l3 <= |frame| && (forall i | 0 <= i < |tags| :: |tags[i].control| == 2)
    ensures frame[off - 2..l3] == TagBytes(tags)
    decreases |frame| - off
  {
    var et := U16(frame, off - 2);
    if Vlan(et) {
      var more := TagsWritten(frame, off + 4, l3);
      tags := [Tag(et == 0x88a8, frame[off..off + 2])] + more;
      assert tags[1..] == more;
      TwoAndTwo(frame, off, l3);
    } else {
      tags := [];
      assert frame[off - 2..l3] == [frame[off - 2], frame[off - 1]];
    }
  }

  lemma TwoAndTwo(b: Bytes, off: nat, end: nat)
    requires 2 <= off && off + 2 <= end <= |b|
    ensures b[off - 2..end] == [b[off - 2], b[off - 1]] + b[off..off + 2] + b[off + 2..end]
  {
  }

  // An IPv4 packet is found only where one was written.
  lemma FoundIpv4(link: nat, frame: Bytes) returns (h: Head, header: Bytes, rest: Bytes)
    requires ParseIpv4(link, frame).Some?
    ensures HeadOk(h) && Names(link, h) && frame == HeadBytes(h) + (header + rest)
    ensures 20 <= |header| <= 60 && |header| % 4 == 0 && header[0] == 0x40 + |header| / 4
  {
    var ip := ParseIpv4(link, frame).value;
    h := HeadWritten(link, frame, ip.l3);
    header, rest := frame[ip.l3..ip.l3 + ip.ihl], frame[ip.l3 + ip.ihl..];
    assert frame == frame[..ip.l3] + (header + rest);
  }

  // And every frame in which a UDP packet is found was written like this.
  lemma FoundWritten(link: nat, frame: Bytes) returns (h: Head, p: Packet)
    requires ParseUdp(link, frame).Some?
    ensures HeadOk(h) && Names(link, h) && PacketOk(p) && frame == HeadBytes(h) + PacketBytes(p)
  {
    var u := ParseUdp(link, frame).value;
    h := HeadWritten(link, frame, u.ip.l3);
    p := PacketWritten(frame, u.ip.l3, u.ip.ihl);
    assert frame == frame[..u.ip.l3] + frame[u.ip.l3..];
  }

  lemma HeadWritten(link: nat, frame: Bytes, l3: nat) returns (h: Head)
    requires L3Offset(link, frame) == Some(l3)
    ensures HeadOk(h) && Names(link, h) && l3 <= |frame| && HeadBytes(h) == frame[..l3]
  {
    if link == ETHERNET {
      var tags := TagsWritten(frame, 14, l3);
      h := Ethernet(frame[..12], tags);
      assert frame[..l3] == frame[..12] + frame[12..l3];
    } else if link == SLL {
      h := Cooked(frame[..14]);
      assert frame[..16] == frame[..14] + [frame[14], frame[15]];
    } else if link == SLL2 {
      h := Cooked2(frame[2..20]);
      assert frame[..20] == [frame[0], frame[1]] + frame[2..20];
    } else if link == NULL || link == LOOP {
      h := Loopback(frame[..4]);
    } else {
      h := Bare;
    }
  }

  lemma PacketWritten(frame: Bytes, l3: nat, ihl: nat) returns (p: Packet)
    requires 20 <= ihl <= 60 && ihl % 4 == 0 && l3 + ihl + 8 <= |frame| && frame[l3] / 16 == 4
      && frame[l3] % 16 * 4 == ihl && frame[l3 + 9] == 17
    ensures PacketOk(p) && PacketBytes(p) == frame[l3..]
  {
    var udp := l3 + ihl;
    p := Packet(frame[l3..udp], U16(frame, udp), U16(frame, udp + 2), U16(frame, udp + 4), frame[udp + 6..udp + 8],
                frame[udp + 8..]);
    assert Put16(p.srcPort) == frame[udp..udp + 2] && Put16(p.dstPort) == frame[udp + 2..udp + 4];
    assert Put16(p.length) == frame[udp + 4..udp + 6];
    assert frame[l3..] == frame[l3..udp] + frame[udp..];
    assert frame[udp..] == frame[udp..udp + 2] + frame[udp + 2..udp + 4] + frame[udp + 4..udp + 6]
                           + frame[udp + 6..udp + 8] + frame[udp + 8..];
  }
}
