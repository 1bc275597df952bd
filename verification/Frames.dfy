/** What the sanitizer makes of a captured frame, and what a kept frame then is.  */
module Frames {
  import opened Prelude
  import opened Wire
  import opened Decode
  import opened Buffers
  import opened Sanitize
  import opened Pcap
  import opened Parsing
  import SanitizeTheorems

  // The payload's replacement, or None if the frame must be dropped.
  function CleanPayload(r: Renaming, v9: Templates, ipfix: Templates, exporter: Bytes,
                        payload: Bytes): (o: Option<Bytes>)
    ensures o.Some? ==> |o.value| == |payload|
  {
    if |payload| < 4 then None
    else
      var version := U16(payload, 0);
      if version == 5 then (if V5Ok(payload) then Some(ScrubV5(r, payload)) else None)
      else if version == 9 then Kept(V9, r, v9, exporter, payload)
      else if version == 10 then Kept(Ipfix, r, ipfix, exporter, payload)
      else None
  }

  function Kept(d: Dialect, r: Renaming, known: Templates, exporter: Bytes, payload: Bytes): (o: Option<Bytes>)
    ensures o.Some? ==> |o.value| == |payload|
  {
    var s := SanitizePacket(d, r, known, exporter, payload);
    if s.ok then SanitizedLength(d, r, known, exporter, payload); Some(s.bytes) else None
  }

  // ---- what is remembered ----

  datatype Memory = Memory(v9: Templates, ipfix: Templates)

  // The templates known after a payload, whether it is kept or not.
  function Noted(r: Renaming, m: Memory, exporter: Bytes, payload: Bytes): Memory {
    if |payload| < 4 then m
    else if U16(payload, 0) == 9 then m.(v9 := SanitizePacket(V9, r, m.v9, exporter, payload).known)
    else if U16(payload, 0) == 10 then m.(ipfix := SanitizePacket(Ipfix, r, m.ipfix, exporter, payload).known)
    else m
  }

  function NotedBy(r: Renaming, m: Memory, f: Bytes, ip: Ipv4, udp: Option<Udp>): Memory
    requires Placed(f, Some(ip), udp)
  {
    match udp
    case None => m
    case Some(u) => Noted(r, m, f[ip.l3 + 12..ip.l3 + 16], f[u.off..u.off + u.len])
  }

  function NotedFrame(r: Renaming, m: Memory, link: nat, f: Bytes): Memory {
    match ParseIpv4(link, f)
    case None => m
    case Some(ip) => NotedBy(r, m, f, ip, ParseUdp(link, f))
  }

  lemma SanitizedLength(d: Dialect, r: Renaming, known: Templates, exporter: Bytes, payload: Bytes)
    requires SanitizePacket(d, r, known, exporter, payload).ok
    ensures |SanitizePacket(d, r, known, exporter, payload).bytes| == |payload|
  {
    if |payload| >= HeaderLen(d) {
      var cl := CleanerOf(d, r, exporter, DomainOf(d, payload));
      SanitizeTheorems.SanitizeKeepsLength(cl, known, payload[HeaderLen(d)..EndOf(d, payload)]);
    }
  }

  // The UDP checksum is cleared with the payload.
  function CleanDatagram(f: Bytes, u: Udp, payload: Bytes): (f': Bytes)
    requires u.udp + 8 == u.off && u.off + u.len <= |f| && |payload| == u.len
    ensures |f'| == |f|
  {
    Splice(Splice(f, u.off, payload), u.udp + 6, [0, 0])
  }

  function CleanHeader(r: Renaming, f: Bytes, l3: nat, ihl: nat): (f': Bytes)
    requires 20 <= ihl && l3 + ihl <= |f|
    ensures |f'| == |f|
  {
    var f1 := Splice(f, l3 + 12, Rename(r, f[l3 + 12..l3 + 16]) + Rename(r, f[l3 + 16..l3 + 20]));
    Splice(f1, l3 + 10, Put16(Checksum(f1[l3..l3 + ihl])))
  }

  // How payloads are cleaned, given the exporter: a replacement of the same length, or none.
  type Cleaning = (Bytes, Bytes) -> Option<Bytes>

  ghost predicate KeepsLength(clean: Cleaning) {
    forall e, b | clean(e, b).Some? :: |clean(e, b).value| == |b|
  }

  // The exporter's name is the frame's source address.
  function CleanBy(r: Renaming, clean: Cleaning, link: nat, f: Bytes): Option<Bytes>
    requires KeepsLength(clean)
  {
    match ParseIpv4(link, f)
    case None => None
    case Some(ip) =>
      match ParseUdp(link, f)
      case None => Some(CleanHeader(r, f, ip.l3, ip.ihl))
      case Some(u) =>
        match clean(f[ip.l3 + 12..ip.l3 + 16], f[u.off..u.off + u.len])
        case None => None
        case Some(b) => Some(CleanHeader(r, CleanDatagram(f, u, b), ip.l3, ip.ihl))
  }

  function CleaningOf(r: Renaming, v9: Templates, ipfix: Templates): (clean: Cleaning)
    ensures KeepsLength(clean)
  {
    (e: Bytes, b: Bytes) => CleanPayload(r, v9, ipfix, e, b)
  }

  ghost predicate IsCleaning(r: Renaming, v9: Templates, ipfix: Templates, clean: Cleaning) {
    KeepsLength(clean) && forall e, b {:trigger At((e, b))} :: At((e, b)) ==>
      clean(e, b) == CleanPayload(r, v9, ipfix, e, b)
  }

  lemma CleaningIs(r: Renaming, v9: Templates, ipfix: Templates)
    ensures IsCleaning(r, v9, ipfix, CleaningOf(r, v9, ipfix))
  {
  }

  // What `out` is for a frame parsed like this.
  ghost predicate CleanCase(r: Renaming, clean: Cleaning, f: Bytes, ip: Option<Ipv4>, udp: Option<Udp>,
                            out: Option<Bytes>)
    requires KeepsLength(clean) && Placed(f, ip, udp)
  {
    if ip == None then out == None
    else if udp == None then out == Some(CleanHeader(r, f, ip.value.l3, ip.value.ihl))
    else
      var u := udp.value; var b := clean(f[ip.value.l3 + 12..ip.value.l3 + 16], f[u.off..u.off + u.len]);
      out == if b == None then None else Some(CleanHeader(r, CleanDatagram(f, u, b.value), ip.value.l3, ip.value.ihl))
  }

  // The headers lie within the frame.
  predicate Placed(f: Bytes, ip: Option<Ipv4>, udp: Option<Udp>) {
    && (ip.Some? ==> 20 <= ip.value.ihl <= 60 && ip.value.l3 + ip.value.ihl <= |f|)
    && (udp.Some? ==> ip.Some? && udp.value.off == udp.value.udp + 8 && udp.value.off + udp.value.len <= |f|)
  }

  lemma Parsed(r: Renaming, link: nat, f: Bytes, clean: Cleaning, out: Option<Bytes>, ip: Option<Ipv4>,
               udp: Option<Udp>)
    requires KeepsLength(clean) && out == CleanBy(r, clean, link, f) && ip == ParseIpv4(link, f)
      && udp == ParseUdp(link, f)
    ensures Placed(f, ip, udp) && CleanCase(r, clean, f, ip, udp, out)
  {
  }

  lemma UdpCase(r: Renaming, clean: Cleaning, m: Memory, f: Bytes, ip: Ipv4, u: Udp, out: Option<Bytes>,
                exporter: Bytes, payload: Bytes)
    requires KeepsLength(clean) && Placed(f, Some(ip), Some(u)) && CleanCase(r, clean, f, Some(ip), Some(u), out)
    requires exporter == f[ip.l3 + 12..ip.l3 + 16] && payload == f[u.off..u.off + u.len]
    ensures var b := clean(exporter, payload);
      out == if b == None then None else Some(CleanHeader(r, CleanDatagram(f, u, b.value), ip.l3, ip.ihl))
    ensures NotedBy(r, m, f, ip, Some(u)) == Noted(r, m, exporter, payload)
  {
  }

  lemma BothRenamed(r: Renaming, f0: Bytes, f1: Bytes, f2: Bytes, l3: nat)
    requires l3 + 20 <= |f0| && f1 == Splice(f0, l3 + 12, Rename(r, f0[l3 + 12..l3 + 16]))
    requires f2 == Splice(f1, l3 + 16, Rename(r, f1[l3 + 16..l3 + 20]))
    ensures f2 == Splice(f0, l3 + 12, Rename(r, f0[l3 + 12..l3 + 16]) + Rename(r, f0[l3 + 16..l3 + 20]))
  {
    assert f1[l3 + 16..l3 + 20] == f0[l3 + 16..l3 + 20];
  }

  lemma HeaderIs(r: Renaming, f: Bytes, f1: Bytes, l3: nat, ihl: nat, c: nat)
    requires 20 <= ihl && l3 + ihl <= |f|
      && f1 == Splice(f, l3 + 12, Rename(r, f[l3 + 12..l3 + 16]) + Rename(r, f[l3 + 16..l3 + 20]))
    requires c == Checksum(f1[l3..l3 + ihl])
    ensures Splice(f1, l3 + 10, Put16(c)) == CleanHeader(r, f, l3, ihl)
  {
  }

  // ---- what a kept frame is ----

  lemma SpliceInside(b: Bytes, lo: nat, hi: nat, at: nat, v: Bytes)
    requires lo + at + |v| <= hi <= |b|
    ensures Splice(b, lo + at, v)[lo..hi] == Splice(b[lo..hi], at, v)
  {
    var x, y := Splice(b, lo + at, v)[lo..hi], Splice(b[lo..hi], at, v);
    forall k | 0 <= k < hi - lo ensures x[k] == y[k] {
      SpliceAt(b, lo + at, v, lo + k);
      SpliceAt(b[lo..hi], at, v, k);
    }
  }

  // A clean header: renamed addresses, a checksum that verifies, all other bytes as they were.
  lemma HeaderCleaned(r: Renaming, f: Bytes, l3: nat, ihl: nat, f': Bytes)
    requires 20 <= ihl && l3 + ihl <= |f| && f' == CleanHeader(r, f, l3, ihl)
    ensures f'[l3 + 12..l3 + 16] == Rename(r, f[l3 + 12..l3 + 16])
      && f'[l3 + 16..l3 + 20] == Rename(r, f[l3 + 16..l3 + 20])
    ensures Carry(AllWords(f'[l3..l3 + ihl], 0)) == 0xFFFF
    ensures forall i | 0 <= i < |f| && !(l3 + 10 <= i < l3 + 20) :: f'[i] == f[i]
  {
    var names := Rename(r, f[l3 + 12..l3 + 16]) + Rename(r, f[l3 + 16..l3 + 20]);
    var f1 := Splice(f, l3 + 12, names);
    var hdr := f1[l3..l3 + ihl];
    var sum := Put16(Checksum(hdr));
    SpliceInside(f1, l3, l3 + ihl, 10, sum);
    ChecksumVerifies(hdr, f'[l3..l3 + ihl]);
    assert names[..4] == Rename(r, f[l3 + 12..l3 + 16]) && names[4..] == Rename(r, f[l3 + 16..l3 + 20]);
    forall i | 0 <= i < |f| && !(l3 + 10 <= i < l3 + 12)
      ensures f'[i] == if l3 + 12 <= i < l3 + 20 then names[i - l3 - 12] else f[i]
    {
      SpliceAt(f, l3 + 12, names, i);
      SpliceAt(f1, l3 + 10, sum, i);
    }
    assert f'[l3 + 12..l3 + 16] == names[..4];
    assert f'[l3 + 16..l3 + 20] == names[4..];
  }

  lemma DatagramCleaned(f: Bytes, u: Udp, b: Bytes, f': Bytes)
    requires u.udp + 8 == u.off && u.off + u.len <= |f| && |b| == u.len && f' == CleanDatagram(f, u, b)
    ensures f'[u.off..u.off + u.len] == b && f'[u.udp + 6] == 0 && f'[u.udp + 7] == 0
    ensures forall i | 0 <= i < |f| && !(u.udp + 6 <= i < u.off + u.len) :: f'[i] == f[i]
  {
    var f1 := Splice(f, u.off, b);
    forall i | 0 <= i < |f|
      ensures f'[i] == if u.udp + 6 <= i < u.udp + 8 then 0 else if u.off <= i < u.off + u.len then b[i - u.off]
        else f[i]
    {
      SpliceAt(f, u.off, b, i);
      SpliceAt(f1, u.udp + 6, [0, 0], i);
    }
  }

  // The same headers are found where they were.
  lemma SameUntag(f: Bytes, f': Bytes, et: nat, off: nat, l3: nat)
    requires |f| == |f'| && off <= |f| && Untag(f, et, off) == Some(l3) && forall i | 0 <= i < l3 :: f'[i] == f[i]
    ensures Untag(f', et, off) == Some(l3)
    decreases |f| - off
  {
    if Vlan(et) { SameUntag(f, f', U16(f, off + 2), off + 4, l3); }
  }

  lemma SameIpv4(link: nat, f: Bytes, f': Bytes, ip: Ipv4)
    requires |f| == |f'| && ParseIpv4(link, f) == Some(ip) && forall i | 0 <= i < ip.l3 + 10 :: f'[i] == f[i]
    ensures ParseIpv4(link, f') == Some(ip)
  {
    if link == ETHERNET { SameUntag(f, f', U16(f, 12), 14, ip.l3); }
  }

  lemma SameUdp(link: nat, f: Bytes, f': Bytes, ip: Ipv4, u: Udp)
    requires |f| == |f'| && ParseIpv4(link, f) == Some(ip) == ParseIpv4(link, f') && ParseUdp(link, f) == Some(u)
    requires f'[ip.l3 + 9] == f[ip.l3 + 9] && forall i | u.udp <= i < u.udp + 6 :: f'[i] == f[i]
    ensures ParseUdp(link, f') == Some(u)
  {
  }

  lemma SameOther(link: nat, f: Bytes, f': Bytes, ip: Ipv4)
    requires |f| == |f'| && ParseIpv4(link, f) == Some(ip) == ParseIpv4(link, f') && ParseUdp(link, f) == None
    requires f'[ip.l3 + 9] == f[ip.l3 + 9]
    ensures ParseUdp(link, f') == None
  {
  }

  // The header of a kept frame.
  ghost predicate HeaderClean(r: Renaming, f: Bytes, f': Bytes, ip: Ipv4)
    requires 20 <= ip.ihl && ip.l3 + ip.ihl <= |f| == |f'|
  {
    && f'[ip.l3 + 12..ip.l3 + 16] == Rename(r, f[ip.l3 + 12..ip.l3 + 16])
    && f'[ip.l3 + 16..ip.l3 + 20] == Rename(r, f[ip.l3 + 16..ip.l3 + 20])
    && Carry(AllWords(f'[ip.l3..ip.l3 + ip.ihl], 0)) == 0xFFFF
  }

  lemma BytesCleaned(r: Renaming, f: Bytes, ip: Ipv4, u: Udp, b: Bytes, f': Bytes)
    requires 20 <= ip.ihl && u.udp == ip.l3 + ip.ihl && u.off == u.udp + 8 && u.off + u.len <= |f| && |b| == u.len
    requires f' == CleanHeader(r, CleanDatagram(f, u, b), ip.l3, ip.ihl)
    ensures HeaderClean(r, f, f', ip) && f'[u.off..u.off + u.len] == b
    ensures forall i | 0 <= i < |f| && !(ip.l3 + 10 <= i < ip.l3 + 20) && !(u.udp + 6 <= i < u.off + u.len) ::
      f'[i] == f[i]
  {
    var f1 := CleanDatagram(f, u, b);
    DatagramCleaned(f, u, b, f1);
    HeaderCleaned(r, f1, ip.l3, ip.ihl, f');
    assert f1[ip.l3 + 12..ip.l3 + 16] == f[ip.l3 + 12..ip.l3 + 16]
      && f1[ip.l3 + 16..ip.l3 + 20] == f[ip.l3 + 16..ip.l3 + 20];
    assert f'[u.off..u.off + u.len] == f1[u.off..u.off + u.len];
  }

  // Main result: whatever the frame, if it is kept then its addresses are renamed, its header verifies,
  // its UDP payload is the cleaned one and sits where it was, and nothing else has changed.
  lemma FrameCleaned(r: Renaming, clean: Cleaning, link: nat, f: Bytes, f': Bytes) returns (ip: Ipv4)
    requires KeepsLength(clean) && CleanBy(r, clean, link, f) == Some(f')
    ensures |f'| == |f| && Some(ip) == ParseIpv4(link, f) == ParseIpv4(link, f')
      && ParseUdp(link, f') == ParseUdp(link, f)
    ensures HeaderClean(r, f, f', ip)
    ensures ParseUdp(link, f).Some? ==> PayloadClean(clean, f, f', ip, ParseUdp(link, f).value)
    ensures forall i | 0 <= i < |f| && !(ip.l3 + 10 <= i < ip.l3 + 20) && !InDatagram(ParseUdp(link, f), i) ::
      f'[i] == f[i]
  {
    ip := ParseIpv4(link, f).value;
    if ParseUdp(link, f) == None {
      OtherCleaned(r, link, f, ip, f');
    } else {
      KeptUdp(r, clean, link, f, ip, ParseUdp(link, f).value, f');
    }
  }

  lemma KeptUdp(r: Renaming, clean: Cleaning, link: nat, f: Bytes, ip: Ipv4, u: Udp, f': Bytes)
    requires KeepsLength(clean) && CleanBy(r, clean, link, f) == Some(f')
    requires ParseIpv4(link, f) == Some(ip) && ParseUdp(link, f) == Some(u)
    ensures |f'| == |f| && ParseIpv4(link, f') == Some(ip) && ParseUdp(link, f') == Some(u)
    ensures HeaderClean(r, f, f', ip) && PayloadClean(clean, f, f', ip, u)
    ensures forall i | 0 <= i < |f| && !(ip.l3 + 10 <= i < ip.l3 + 20) && !InDatagram(Some(u), i) :: f'[i] == f[i]
  {
    UdpCleaned(r, link, f, ip, u, clean(f[ip.l3 + 12..ip.l3 + 16], f[u.off..u.off + u.len]).value, f');
  }

  lemma OtherCleaned(r: Renaming, link: nat, f: Bytes, ip: Ipv4, f': Bytes)
    requires ParseIpv4(link, f) == Some(ip) && ParseUdp(link, f) == None && f' == CleanHeader(r, f, ip.l3, ip.ihl)
    ensures ParseIpv4(link, f') == Some(ip) && ParseUdp(link, f') == None && HeaderClean(r, f, f', ip)
    ensures forall i | 0 <= i < |f| && !(ip.l3 + 10 <= i < ip.l3 + 20) :: f'[i] == f[i]
  {
    HeaderCleaned(r, f, ip.l3, ip.ihl, f');
    SameIpv4(link, f, f', ip);
    SameOther(link, f, f', ip);
  }

  lemma UdpCleaned(r: Renaming, link: nat, f: Bytes, ip: Ipv4, u: Udp, b: Bytes, f': Bytes)
    requires ParseIpv4(link, f) == Some(ip) && ParseUdp(link, f) == Some(u) && |b| == u.len
    requires f' == CleanHeader(r, CleanDatagram(f, u, b), ip.l3, ip.ihl)
    ensures ParseIpv4(link, f') == Some(ip) && ParseUdp(link, f') == Some(u) && HeaderClean(r, f, f', ip)
      && f'[u.off..u.off + u.len] == b
    ensures forall i | 0 <= i < |f| && !(ip.l3 + 10 <= i < ip.l3 + 20) && !(u.udp + 6 <= i < u.off + u.len) ::
      f'[i] == f[i]
  {
    BytesCleaned(r, f, ip, u, b, f');
    SameIpv4(link, f, f', ip);
    SameUdp(link, f, f', ip, u);
  }

  predicate PayloadClean(clean: Cleaning, f: Bytes, f': Bytes, ip: Ipv4, u: Udp)
    requires 20 <= ip.ihl && ip.l3 + ip.ihl <= |f| == |f'| && u.off + u.len <= |f|
  {
    clean(f[ip.l3 + 12..ip.l3 + 16], f[u.off..u.off + u.len]) == Some(f'[u.off..u.off + u.len])
  }

  // From the UDP checksum to the end of the payload.
  predicate InDatagram(udp: Option<Udp>, i: nat) { udp.Some? && udp.value.udp + 6 <= i < udp.value.off + udp.value.len }
}
