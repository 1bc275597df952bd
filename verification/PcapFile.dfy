/** Capture files round-trip, and the frame builder's frames are found again.  */
module PcapFile {
  import opened Prelude
  import opened Wire
  import opened Buffers
  import opened Pcap

  // ---- frames ----

  function Ethernet(): (b: Bytes)
    ensures |b| == 14
  {
    [0, 0, 0, 0, 0, 0] + [0, 0, 0, 0, 0, 0] + Put16(0x0800)
  }

  // An IPv4 header without options, its checksum still zero.
  function IpHeader(src: Bytes, dst: Bytes, length: nat): (b: Bytes)
    requires |src| == 4 && |dst| == 4
    ensures |b| == 20
  {
    [0x45, 0] + Put16(length % 0x1_0000) + [0, 0, 0, 0] + [64, 17] + [0, 0] + src + dst
  }

  function UdpHeader(srcPort: nat, dstPort: nat, length: nat): (b: Bytes)
    requires srcPort < 0x1_0000 && dstPort < 0x1_0000
    ensures |b| == 8
  {
    Put16(srcPort) + Put16(dstPort) + Put16(length % 0x1_0000) + [0, 0]
  }

  function Summed(hdr: Bytes): (b: Bytes)
    requires |hdr| >= 12
    ensures |b| == |hdr|
  {
    Splice(hdr, 10, Put16(Checksum(hdr)))
  }

  function Frame(src: Bytes, dst: Bytes, srcPort: nat, dstPort: nat, payload: Bytes): (b: Bytes)
    requires |src| == 4 && |dst| == 4 && srcPort < 0x1_0000 && dstPort < 0x1_0000
  {
    Ethernet() + Summed(IpHeader(src, dst, 28 + |payload|)) + UdpHeader(srcPort, dstPort, 8 + |payload|) + payload
  }

  lemma SummedLater(a: Bytes, hdr: Bytes, c: Bytes, sum: Bytes)
    requires |hdr| >= 12 && |sum| == 2
    ensures Splice(a + hdr + c, |a| + 10, sum) == a + Splice(hdr, 10, sum) + c
  {
  }

  // Fills the frame header by header; the IPv4 checksum goes in last.
  method BuildFrame(src: Bytes, dst: Bytes, srcPort: nat, dstPort: nat, payload: Bytes) returns (frame: array<Byte>)
    requires |src| == 4 && |dst| == 4 && srcPort < 0x1_0000 && dstPort < 0x1_0000
    ensures fresh(frame) && frame[..] == Frame(src, dst, srcPort, dstPort, payload)
  {
    frame := new Byte[42 + |payload|](_ => 0);
    ghost var base := frame[..];
    var eth, hdr, udp := Ethernet(), IpHeader(src, dst, 28 + |payload|), UdpHeader(srcPort, dstPort, 8 + |payload|);
    PutBytes(frame, 0, eth);
    PutNext(frame, 0, 14, hdr, base, eth);
    PutNext(frame, 0, 34, udp, base, eth + hdr);
    PutNext(frame, 0, 42, payload, base, eth + hdr + udp);
    ghost var whole := eth + hdr + udp + payload;
    assert Splice(base, 0, whole) == whole;
    Regroup(eth, hdr, udp, payload);
    HeaderIn(eth, hdr, udp + payload, frame[..]);
    var c := Ipv4Checksum(frame[14..34]);
    PutBytes(frame, 24, Put16(c));
    SummedLater(eth, hdr, udp + payload, Put16(c));
    Regroup(eth, Summed(hdr), udp, payload);
  }

  lemma HeaderIn(a: Bytes, hdr: Bytes, c: Bytes, whole: Bytes)
    requires whole == a + hdr + c
    ensures whole[|a|..|a| + |hdr|] == hdr
  {
  }

  lemma Regroup(a: Bytes, b: Bytes, c: Bytes, e: Bytes)
    ensures a + b + c + e == a + b + (c + e)
  {
  }

  // Main result: the payload and ports of a built frame are found again, and its header verifies.
  lemma FrameParsed(src: Bytes, dst: Bytes, srcPort: nat, dstPort: nat, payload: Bytes, frame: Bytes)
    requires |src| == 4 && |dst| == 4 && srcPort < 0x1_0000 && dstPort < 0x1_0000 && |payload| + 8 < 0x1_0000
    requires frame == Frame(src, dst, srcPort, dstPort, payload)
    ensures ParseUdp(ETHERNET, frame) == Some(Udp(Ipv4(14, 20), 34, 42, |payload|, srcPort, dstPort))
    ensures frame[42..] == payload && frame[26..30] == src && frame[30..34] == dst
    ensures Carry(AllWords(frame[14..34], 0)) == 0xFFFF
  {
    var eth, hdr, udp := Ethernet(), IpHeader(src, dst, 28 + |payload|), UdpHeader(srcPort, dstPort, 8 + |payload|);
    var ip := Summed(hdr);
    IpFound(eth, hdr, ip, udp + payload, frame, src, dst, 28 + |payload|);
    Regroup(eth, ip, udp, payload);
    UdpFound(eth + ip, srcPort, dstPort, 8 + |payload|, udp, payload, frame);
    ChecksumVerifies(hdr, ip);
  }

  lemma IpFound(eth: Bytes, hdr: Bytes, ip: Bytes, rest: Bytes, frame: Bytes, src: Bytes, dst: Bytes, length: nat)
    requires |src| == 4 && |dst| == 4 && eth == Ethernet() && hdr == IpHeader(src, dst, length) && ip == Summed(hdr)
    requires frame == eth + ip + rest
    ensures ParseIpv4(ETHERNET, frame) == Some(Ipv4(14, 20)) && frame[23] == 17
    ensures frame[14..34] == ip && frame[26..30] == src && frame[30..34] == dst
  {
    U16At([0, 0, 0, 0, 0, 0] + [0, 0, 0, 0, 0, 0], 0x0800, ip + rest, frame);
    assert frame[14] == ip[0] == hdr[0] == 0x45;
    assert frame[23] == ip[9] == hdr[9] == 17;
    assert frame[14..34] == ip;
    assert ip[12..16] == hdr[12..16] == src && ip[16..20] == hdr[16..20] == dst;
    assert frame[26..30] == ip[12..16] && frame[30..34] == ip[16..20];
  }

  lemma UdpFound(front: Bytes, srcPort: nat, dstPort: nat, length: nat, udp: Bytes, payload: Bytes, frame: Bytes)
    requires |front| == 34 && srcPort < 0x1_0000 && dstPort < 0x1_0000 && length < 0x1_0000
    requires udp == UdpHeader(srcPort, dstPort, length) && frame == front + udp + payload
    ensures |frame| == 42 + |payload| && U16(frame, 34) == srcPort && U16(frame, 36) == dstPort
      && U16(frame, 38) == length && frame[42..] == payload
  {
    assert frame[34] == udp[0] && frame[35] == udp[1] && frame[36] == udp[2] && frame[37] == udp[3]
      && frame[38] == udp[4] && frame[39] == udp[5];
    assert udp[0] == Put16(srcPort)[0] && udp[1] == Put16(srcPort)[1] && udp[2] == Put16(dstPort)[0]
      && udp[3] == Put16(dstPort)[1];
    assert udp[4] == Put16(length)[0] && udp[5] == Put16(length)[1];
  }

  // ---- capture files ----

  const MAX_CAPTURED := 0x100_0000

  // Time is seconds since 1970 and nanoseconds within the second.
  datatype Packet = Packet(sec: int, nanos: nat, origLen: nat, data: Bytes)

  function Le16(b: Bytes, i: nat): (x: nat)
    requires i + 2 <= |b|
    ensures x < 0x1_0000
  {
    (b[i] as int) + (b[i + 1] as int) * 0x100
  }

  function Le32(b: Bytes, i: nat): (x: nat)
    requires i + 4 <= |b|
    ensures x < 0x1_0000_0000
  {
    Le16(b, i) + Le16(b, i + 2) * 0x1_0000
  }

  function PutLe32(x: nat): (b: Bytes)
    requires x < 0x1_0000_0000
    ensures |b| == 4 && Le32(b, 0) == x
  {
    var lo, hi := x % 0x1_0000, x / 0x1_0000;
    [lo % 0x100, lo / 0x100, hi % 0x100, hi / 0x100]
  }

  // A capture written by the other byte order is read in that order.
  datatype Format = Format(big: bool, nano: bool, link: nat)

  function Number(f: Format, b: Bytes, i: nat): nat
    requires i + 4 <= |b|
  {
    if f.big then U32(b, i) else Le32(b, i)
  }

  function ReadHeader(b: Bytes): Option<Format> {
    if |b| < 24 then None
    else
      var magic := Le32(b, 0);
      if magic == 0xa1b2c3d4 then Some(Format(false, false, Le32(b, 20)))
      else if magic == 0xd4c3b2a1 then Some(Format(true, false, U32(b, 20)))
      else if magic == 0xa1b23c4d then Some(Format(false, true, Le32(b, 20)))
      else if magic == 0x4d3cb2a1 then Some(Format(true, true, U32(b, 20)))
      else None
  }

  datatype Read = End | Implausible | Short | Got(p: Packet, rest: Bytes)

  function ReadPacket(f: Format, b: Bytes): (r: Read)
    ensures r.Got? ==> |r.rest| < |b|
  {
    if |b| < 16 then End
    else
      var n := Number(f, b, 8);
      if n > MAX_CAPTURED then Implausible
      else if |b| < 16 + n then Short
      else
        var frac := Number(f, b, 4);
        var nanos := if f.nano then frac else frac * 1000;
        Got(Packet(Number(f, b, 0) + nanos / 1_000_000_000, nanos % 1_000_000_000, Number(f, b, 12), b[16..16 + n]),
            b[16 + n..])
  }

  // All packets of a stream, and how it ends.
  function ReadAll(f: Format, b: Bytes): (seq<Packet>, Read)
    decreases |b|
  {
    match ReadPacket(f, b)
    case Got(p, rest) => var more := ReadAll(f, rest); ([p] + more.0, more.1)
    case end => ([], end)
  }

  function FileHeader(link: nat): (b: Bytes)
    requires link < 0x1_0000_0000
    ensures |b| == 24
  {
    PutLe32(0xa1b2c3d4) + [2, 0, 4, 0] + [0, 0, 0, 0] + [0, 0, 0, 0] + PutLe32(262144) + PutLe32(link)
  }

  predicate Writable(p: Packet) {
    0 <= p.sec < 0x1_0000_0000 && p.nanos < 1_000_000_000 && p.origLen < 0x1_0000_0000 && |p.data| < 0x1_0000_0000
  }

  function Max(a: nat, b: nat): nat { if a < b then b else a }

  function EncodePacket(p: Packet): Bytes
    requires Writable(p)
  {
    PutLe32(p.sec) + PutLe32(p.nanos / 1000) + PutLe32(|p.data|) + PutLe32(Max(|p.data|, p.origLen)) + p.data
  }

  function EncodeAll(ps: seq<Packet>): Bytes
    requires forall i | 0 <= i < |ps| :: Writable(ps[i])
  {
    if ps == [] then [] else EncodePacket(ps[0]) + EncodeAll(ps[1..])
  }

  // What a written packet reads back as: time cut to microseconds, original length at least the captured.
  function Cut(p: Packet): Packet {
    Packet(p.sec, p.nanos / 1000 * 1000, Max(|p.data|, p.origLen), p.data)
  }

  function CutAll(ps: seq<Packet>): seq<Packet> {
    if ps == [] then [] else [Cut(ps[0])] + CutAll(ps[1..])
  }

  lemma LeAt(a: Bytes, x: nat, c: Bytes, whole: Bytes)
    requires x < 0x1_0000_0000 && whole == a + PutLe32(x) + c
    ensures |a| + 4 <= |whole| && Le32(whole, |a|) == x
  {
    var p := PutLe32(x);
    assert whole[|a|] == p[0] && whole[|a| + 1] == p[1] && whole[|a| + 2] == p[2] && whole[|a| + 3] == p[3];
  }

  lemma HeaderRead(link: nat, rest: Bytes)
    requires link < 0x1_0000_0000
    ensures ReadHeader(FileHeader(link) + rest) == Some(Format(false, false, link))
      && (FileHeader(link) + rest)[24..] == rest
  {
    var a := PutLe32(0xa1b2c3d4) + [2, 0, 4, 0] + [0, 0, 0, 0] + [0, 0, 0, 0] + PutLe32(262144);
    var whole := FileHeader(link) + rest;
    LeAt([], 0xa1b2c3d4, whole[4..], whole);
    LeAt(a, link, rest, whole);
  }

  lemma PacketRead(f: Format, p: Packet, rest: Bytes, b: Bytes)
    requires Writable(p) && !f.big && !f.nano && b == EncodePacket(p) + rest
    ensures ReadPacket(f, b) == if |p.data| <= MAX_CAPTURED then Got(Cut(p), rest) else Implausible
  {
    var s, u, n, o := PutLe32(p.sec), PutLe32(p.nanos / 1000), PutLe32(|p.data|), PutLe32(Max(|p.data|, p.origLen));
    var tail := p.data + rest;
    assert b == s + u + n + o + tail;
    LeAt([], p.sec, u + n + o + tail, b);
    LeAt(s, p.nanos / 1000, n + o + tail, b);
    LeAt(s + u, |p.data|, o + tail, b);
    LeAt(s + u + n, Max(|p.data|, p.origLen), tail, b);
    assert b[16..] == tail;
    assert b[16..16 + |p.data|] == tail[..|p.data|] == p.data && b[16 + |p.data|..] == tail[|p.data|..] == rest;
  }

  // ---- whole files ----

  predicate AllWritable(ps: seq<Packet>) {
    forall i | 0 <= i < |ps| :: Writable(ps[i])
  }

  function FileOf(link: nat, ps: seq<Packet>): Bytes
    requires link < 0x1_0000_0000 && AllWritable(ps)
  {
    FileHeader(link) + EncodeAll(ps)
  }

  // The packets up to the first that is too long to be read again.
  function Readable(ps: seq<Packet>): nat {
    if ps == [] || |ps[0].data| > 0x100_0000 then 0 else 1 + Readable(ps[1..])
  }

  lemma {:induction false} EncodeAppend(ps: seq<Packet>, p: Packet, all: Bytes)
    requires AllWritable(ps) && Writable(p) && all == EncodeAll(ps)
    ensures AllWritable(ps + [p]) && EncodeAll(ps + [p]) == all + EncodePacket(p)
    decreases |ps|
  {
    if ps == [] {
      assert [p][1..] == [];
    } else {
      var rest := EncodeAll(ps[1..]);
      EncodeAppend(ps[1..], p, rest);
      assert (ps + [p])[1..] == ps[1..] + [p];
      Associate(EncodePacket(ps[0]), rest, EncodePacket(p));
    }
  }

  // A longer frame is written but cannot be read: packets up to it come back, the rest is lost.
  lemma {:induction false} PacketsReadBack(f: Format, ps: seq<Packet>, k: nat, b: Bytes)
    requires AllWritable(ps) && !f.big && !f.nano && b == EncodeAll(ps) && k == Readable(ps)
    ensures k <= |ps| && ReadAll(f, b) == (CutAll(ps[..k]), if k == |ps| then End else Implausible)
    decreases |ps|
  {
    if ps != [] {
      PacketRead(f, ps[0], EncodeAll(ps[1..]), b);
      if k > 0 {
        PacketsReadBack(f, ps[1..], k - 1, EncodeAll(ps[1..]));
        assert ps[..k][1..] == ps[1..][..k - 1];
      }
    }
  }

  // Main result: any capture that was written is read back with its link type and its packets, in order,
  // up to its end, or up to the first frame of more than 16 MiB, at which the reader gives up.
  lemma CaptureReadBack(link: nat, ps: seq<Packet>, k: nat, b: Bytes)
    requires link < 0x1_0000_0000 && AllWritable(ps) && b == FileOf(link, ps) && k == Readable(ps)
    ensures k <= |ps| && ReadHeader(b) == Some(Format(false, false, link))
    ensures ReadAll(Format(false, false, link), b[24..]) == (CutAll(ps[..k]), if k == |ps| then End else Implausible)
  {
    HeaderRead(link, EncodeAll(ps));
    PacketsReadBack(Format(false, false, link), ps, k, EncodeAll(ps));
  }

  class Writer {
    var output: Bytes

    constructor (link: nat)
      requires link < 0x1_0000_0000
      ensures output == FileHeader(link)
    {
      output := FileHeader(link);
    }

    method Write(p: Packet)
      requires Writable(p)
      modifies this
      ensures output == old(output) + EncodePacket(p)
    {
      var orig := |p.data|;
      if p.origLen > orig { orig := p.origLen; }
      output := output + (PutLe32(p.sec) + PutLe32(p.nanos / 1000) + PutLe32(|p.data|) + PutLe32(orig));
      output := output + p.data;
    }

    method WriteAll(ps: seq<Packet>)
      requires AllWritable(ps)
      modifies this
      ensures output == old(output) + EncodeAll(ps)
    {
      for i := 0 to |ps|
        invariant output == old(output) + EncodeAll(ps[..i])
      {
        ghost var was := EncodeAll(ps[..i]);
        assert ps[..i + 1] == ps[..i] + [ps[i]];
        EncodeAppend(ps[..i], ps[i], was);
        Associate(old(output), was, EncodePacket(ps[i]));
        Write(ps[i]);
      }
      assert ps[..|ps|] == ps;
    }
  }

  class Reader {
    var input: Bytes
    const format: Format

    constructor (format: Format, input: Bytes)
      ensures this.format == format && this.input == input
    {
      this.format, this.input := format, input;
    }

    // The next packet; the stream is consumed up to where reading stopped.
    method Next() returns (r: Read)
      modifies this
      ensures r == ReadPacket(format, old(input)) && (r.Got? ==> input == r.rest)
    {
      if |input| < 16 {
        input := [];
        return End;
      }
      var hdr := input;
      input := input[16..];
      var n := Number(format, hdr, 8);
      if n > MAX_CAPTURED { return Implausible; }
      if |input| < n {
        input := [];
        return Short;
      }
      var data := input[..n];
      input := input[n..];
      var frac := Number(format, hdr, 4);
      var nanos := if format.nano then frac else frac * 1000;
      assert hdr[16..16 + n] == data && hdr[16 + n..] == input;
      r := Got(Packet(Number(format, hdr, 0) + nanos / 1_000_000_000, nanos % 1_000_000_000, Number(format, hdr, 12),
                      data), input);
    }

    // Every packet up to the end of the stream or the first that cannot be read.
    method Rest() returns (ps: seq<Packet>, stop: Read)
      modifies this
      ensures (ps, stop) == ReadAll(format, old(input)) && !stop.Got?
    {
      ps, stop := [], End;
      ghost var all := ReadAll(format, input);
      assert ps + all.0 == all.0;
      var going := true;
      while going
        invariant if going then all == (ps + ReadAll(format, input).0, ReadAll(format, input).1)
          else all == (ps, stop) && !stop.Got?
        decreases if going then 1 + |input| else 0
      {
        ghost var before, left := ps, ReadAll(format, input);
        stop := Next();
        if stop.Got? {
          ps := ps + [stop.p];
          assert before + left.0 == ps + ReadAll(format, input).0;
        } else {
          going := false;
          assert before + left.0 == ps;
        }
      }
    }
  }

  // A capture written to the end and then read from its start.
  method WriteThenRead(link: nat, ps: seq<Packet>) returns (r: Reader, got: seq<Packet>, stop: Read)
    requires link < 0x1_0000_0000 && AllWritable(ps)
    ensures r.format == Format(false, false, link) && Readable(ps) <= |ps|
    ensures got == CutAll(ps[..Readable(ps)]) && stop == if Readable(ps) == |ps| then End else Implausible
  {
    var w := new Writer(link);
    w.WriteAll(ps);
    CaptureReadBack(link, ps, Readable(ps), w.output);
    var format := ReadHeader(w.output);
    r := new Reader(format.value, w.output[24..]);
    got, stop := r.Rest();
  }
}
