/** Capture files and frames: the pcap reader and writer, the way from a frame to its UDP payload,
    and the IPv4 header checksum.  */
module Pcap {
  import opened Prelude
  import opened Wire
  import opened Buffers

  // ---- finding the payload ----

  const ETHERNET := 1
  const RAW := 101
  const RAW_ALT := 12
  const NULL := 0
  const LOOP := 108
  const SLL := 113
  const SLL2 := 276

  predicate Vlan(et: nat) { et == 0x8100 || et == 0x88a8 }

  // Behind the VLAN tags, if any; `et` is the type that announced position `off`.
  function Untag(frame: Bytes, et: nat, off: nat): (r: Option<nat>)
    requires off <= |frame|
    ensures r.Some? ==> off <= r.value <= |frame|
    decreases |frame| - off
  {
    if Vlan(et) then (if |frame| < off + 4 then None else Untag(frame, U16(frame, off + 2), off + 4))
    else if et == 0x0800 then Some(off) else None
  }

  function L3Offset(link: nat, frame: Bytes): (r: Option<nat>)
    ensures r.Some? ==> r.value <= |frame|
  {
    if link == ETHERNET then (if |frame| < 14 then None else Untag(frame, U16(frame, 12), 14))
    else if link == RAW || link == RAW_ALT then Some(0)
    else if link == SLL then (if |frame| < 16 || U16(frame, 14) != 0x0800 then None else Some(16))
    else if link == SLL2 then (if |frame| < 20 || U16(frame, 0) != 0x0800 then None else Some(20))
    else if link == NULL || link == LOOP then (if |frame| < 4 then None else Some(4))
    else None
  }

  method FindL3(link: nat, frame: Bytes) returns (r: Option<nat>)
    ensures r == L3Offset(link, frame)
  {
    r := None;
    if link == ETHERNET {
      if |frame| < 14 { return; }
      var off, et := 14, U16(frame, 12);
      while Vlan(et)
        invariant off <= |frame| && Untag(frame, U16(frame, 12), 14) == Untag(frame, et, off)
        decreases |frame| - off
      {
        if |frame| < off + 4 { return; }
        et := U16(frame, off + 2);
        off := off + 4;
      }
      if et == 0x0800 { r := Some(off); }
    } else if link == RAW || link == RAW_ALT {
      r := Some(0);
    } else if link == SLL {
      if |frame| >= 16 && U16(frame, 14) == 0x0800 { r := Some(16); }
    } else if link == SLL2 {
      if |frame| >= 20 && U16(frame, 0) == 0x0800 { r := Some(20); }
    } else if link == NULL || link == LOOP {
      if |frame| >= 4 { r := Some(4); }
    }
  }

  datatype Ipv4 = Ipv4(l3: nat, ihl: nat)

  // The header lies within the frame.
  function ParseIpv4(link: nat, frame: Bytes): (r: Option<Ipv4>)
    ensures r.Some? ==> 20 <= r.value.ihl <= 60 && r.value.ihl % 4 == 0 && r.value.l3 + r.value.ihl <= |frame|
  {
    match L3Offset(link, frame)
    case None => None
    case Some(l3) =>
      if |frame| < l3 + 20 || frame[l3] / 16 != 4 then None
      else
        var ihl := (frame[l3] % 16) * 4;
        if ihl < 20 || |frame| < l3 + ihl then None else Some(Ipv4(l3, ihl))
  }

  datatype Udp = Udp(ip: Ipv4, udp: nat, off: nat, len: nat, srcPort: nat, dstPort: nat)

  // So do the UDP header and the payload, whatever length the header claims.
  function ParseUdp(link: nat, frame: Bytes): (r: Option<Udp>)
    ensures r.Some? ==> var u := r.value;
      && Some(u.ip) == ParseIpv4(link, frame) && u.udp == u.ip.l3 + u.ip.ihl && u.off == u.udp + 8
      && u.off + u.len <= |frame|
  {
    match ParseIpv4(link, frame)
    case None => None
    case Some(ip) =>
      var udp := ip.l3 + ip.ihl;
      if |frame| < udp + 8 || frame[ip.l3 + 9] != 17 then None
      else
        var claimed := U16(frame, udp + 4);
        var len := if claimed < 8 || udp + claimed > |frame| then |frame| - udp - 8 else claimed - 8;
        Some(Udp(ip, udp, udp + 8, len, U16(frame, udp), U16(frame, udp + 2)))
  }

  // ---- the checksum (section 3.1 of RFC 791, section 1 of RFC 1071) ----

  // The sum of the header's 16-bit words from position `i` on, without the checksum's own.
  function Words(hdr: Bytes, i: nat): nat
    decreases |hdr| - i
  {
    if i + 1 >= |hdr| then 0 else (if i == 10 then 0 else U16(hdr, i)) + Words(hdr, i + 2)
  }

  function AllWords(hdr: Bytes, i: nat): nat
    decreases |hdr| - i
  {
    if i + 1 >= |hdr| then 0 else U16(hdr, i) + AllWords(hdr, i + 2)
  }

  // One's-complement sums bring the carries back in.
  function Carry(sum: nat): (r: nat)
    ensures r < 0x1_0000
  {
    if sum < 0x1_0000 then sum else Carry(sum % 0x1_0000 + sum / 0x1_0000)
  }

  lemma {:induction false} CarryIsModulo(sum: nat)
    ensures Carry(sum) == if sum == 0 then 0 else (sum - 1) % 0xFFFF + 1
  {
    if sum >= 0x1_0000 {
      var next := sum % 0x1_0000 + sum / 0x1_0000;
      CarryIsModulo(next);
      assert sum - 1 == (next - 1) + 0xFFFF * (sum / 0x1_0000);
      SameModulo(next - 1, sum / 0x1_0000);
    }
  }

  lemma SameModulo(x: nat, k: nat)
    ensures (x + 0xFFFF * k) % 0xFFFF == x % 0xFFFF
  {
  }

  lemma ComplementFills(sum: nat)
    ensures Carry(sum + (0xFFFF - Carry(sum))) == 0xFFFF
  {
    CarryIsModulo(sum);
    CarryIsModulo(sum + (0xFFFF - Carry(sum)));
    if sum > 0 {
      var q := (sum - 1) / 0xFFFF;
      assert sum - 1 == 0xFFFF * q + (sum - 1) % 0xFFFF;
      SameModulo(0xFFFE, q);
    }
  }

  function Checksum(hdr: Bytes): (c: nat)
    ensures c < 0x1_0000
  {
    0xFFFF - Carry(Words(hdr, 0))
  }

  lemma {:induction false} WordsWith(hdr: Bytes, i: nat)
    requires i % 2 == 0
    ensures AllWords(hdr, i) == Words(hdr, i) + if i <= 10 && 12 <= |hdr| then U16(hdr, 10) else 0
    decreases |hdr| - i
  {
    if i + 1 < |hdr| { WordsWith(hdr, i + 2); }
  }

  lemma {:induction false} WordsIgnore(hdr: Bytes, other: Bytes, i: nat)
    requires |hdr| == |other| && i % 2 == 0 && forall k | 0 <= k < |hdr| && k != 10 && k != 11 :: hdr[k] == other[k]
    ensures Words(hdr, i) == Words(other, i)
    decreases |hdr| - i
  {
    if i + 1 < |hdr| { WordsIgnore(hdr, other, i + 2); }
  }

  // Main result: a header that stores its checksum sums to 0xFFFF.
  lemma ChecksumVerifies(hdr: Bytes, stored: Bytes)
    requires |hdr| >= 12 && stored == Splice(hdr, 10, Put16(Checksum(hdr)))
    ensures Carry(AllWords(stored, 0)) == 0xFFFF
  {
    WordsIgnore(hdr, stored, 0);
    WordsWith(stored, 0);
    assert stored[10] == Put16(Checksum(hdr))[0] && stored[11] == Put16(Checksum(hdr))[1];
    ComplementFills(Words(hdr, 0));
  }

  lemma {:induction false} WordsBound(hdr: Bytes, i: nat)
    requires i <= |hdr|
    ensures Words(hdr, i) <= 0xFFFF * (|hdr| - i)
    decreases |hdr| - i
  {
    if i + 1 < |hdr| { WordsBound(hdr, i + 2); }
  }

  // The sum is kept in 32 bits, which a header of at most 0x1_0000 bytes cannot overflow.
  method Ipv4Checksum(hdr: Bytes) returns (c: nat)
    ensures |hdr| <= 0x1_0000 ==> c == Checksum(hdr)
  {
    var sum, i := 0, 0;
    WordsBound(hdr, 0);
    while i + 1 < |hdr|
      invariant i <= |hdr| && i % 2 == 0 && 0 <= sum < 0x1_0000_0000
      invariant |hdr| <= 0x1_0000 ==> sum + Words(hdr, i) == Words(hdr, 0)
      decreases |hdr| - i
    {
      if i != 10 { sum := (sum + U16(hdr, i)) % 0x1_0000_0000; }
      i := i + 2;
    }
    ghost var total := sum;
    while sum / 0x1_0000 != 0
      invariant 0 <= sum && Carry(total) == Carry(sum)
      decreases sum
    {
      sum := sum % 0x1_0000 + sum / 0x1_0000;
    }
    c := 0xFFFF - sum;
  }
}
