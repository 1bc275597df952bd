/** Which parts of a captured frame the sanitizer renames, and which it keeps without reading them.  */
module FrameBytes {
  import opened Prelude
  import opened Wire
  import opened Decode
  import opened Buffers
  import opened Sanitize
  import opened SanitizeTheorems
  import opened SanitizeBytes
  import opened Pcap
  import opened Frames
  import Parsing

  // ---- the payload ----

  // Long enough for its version.
  predicate Enough(payload: Bytes) { |payload| >= 2 && (U16(payload, 0) == 5 ==> |payload| >= 24) }

  function FlowPieces(r: Renaming, v9: Templates, ipfix: Templates, exporter: Bytes, payload: Bytes): seq<Piece>
    requires Enough(payload)
  {
    if U16(payload, 0) == 5 then V5Pieces(payload)
    else if U16(payload, 0) == 9 then PayloadPieces(V9, r, v9, exporter, payload)
    else PayloadPieces(Ipfix, r, ipfix, exporter, payload)
  }

  predicate TightFlow(payload: Bytes) {
    && |payload| >= 2
    && (U16(payload, 0) == 9 ==> Tight(V9, payload))
    && (U16(payload, 0) == 10 ==> Tight(Ipfix, payload))
  }

  lemma FlowCut(r: Renaming, v9: Templates, ipfix: Templates, exporter: Bytes, payload: Bytes, b: Bytes)
    requires TemplatesOk(V9, v9) && TemplatesOk(Ipfix, ipfix)
    requires CleanPayload(r, v9, ipfix, exporter, payload) == Some(b)
    ensures Enough(payload)
    ensures Makes(r, FlowPieces(r, v9, ipfix, exporter, payload), payload, b)
    ensures AllRead(FlowPieces(r, v9, ipfix, exporter, payload)) <==> TightFlow(payload)
  {
    if U16(payload, 0) == 5 {
      V5Cut(r, payload);
    } else if U16(payload, 0) == 9 {
      PayloadCut(V9, r, v9, exporter, payload, SanitizePacket(V9, r, v9, exporter, payload));
    } else {
      PayloadCut(Ipfix, r, ipfix, exporter, payload, SanitizePacket(Ipfix, r, ipfix, exporter, payload));
    }
  }

  // ---- the frame ----

  // A frame up to its addresses, the two addresses, the IP options and the rest.
  datatype Parts = Parts(head: Bytes, src: Bytes, dst: Bytes, options: Bytes, rest: Bytes)

  function PartsOf(f: Bytes, ip: Ipv4): (x: Parts)
    requires 20 <= ip.ihl && ip.l3 + ip.ihl <= |f|
    ensures |x.src| == 4 && |x.dst| == 4
  {
    Parts(f[..ip.l3 + 12], f[ip.l3 + 12..ip.l3 + 16], f[ip.l3 + 16..ip.l3 + 20], f[ip.l3 + 20..ip.l3 + ip.ihl],
          f[ip.l3 + ip.ihl..])
  }

  function Whole(x: Parts): Bytes {
    x.head + (x.src + (x.dst + (x.options + x.rest)))
  }

  lemma PartsWhole(f: Bytes, ip: Ipv4)
    requires 20 <= ip.ihl && ip.l3 + ip.ihl <= |f|
    ensures Whole(PartsOf(f, ip)) == f
  {
  }

  // The header's pieces, and those of the rest.
  function HeaderPieces(x: Parts, ps: seq<Piece>): seq<Piece> {
    [Piece(Format, x.head)]
    + ([Piece(Address, x.src)] + ([Piece(Address, x.dst)] + ([Piece(Unread, x.options)] + ps)))
  }

  function NewParts(r: Renaming, x: Parts, rest: Bytes): Parts {
    Parts(x.head, Rename(r, x.src), Rename(r, x.dst), x.options, rest)
  }

  // The UDP header, the payload in `inside`, and what follows the datagram.
  function DatagramPieces(f: Bytes, u: Udp, inside: seq<Piece>): seq<Piece>
    requires u.udp <= u.off && u.off + u.len <= |f|
  {
    [Piece(Format, f[u.udp..u.off])] + (inside + [Piece(Unread, f[u.off + u.len..])])
  }

  // The pieces of a frame whose UDP payload, if it has one, has the pieces `inside`.
  function FramePieces(f: Bytes, ip: Ipv4, udp: Option<Udp>, inside: seq<Piece>): seq<Piece>
    requires Placed(f, Some(ip), udp)
  {
    match udp
    case None => HeaderPieces(PartsOf(f, ip), [Piece(Unread, f[ip.l3 + ip.ihl..])])
    case Some(u) => HeaderPieces(PartsOf(f, ip), DatagramPieces(f, u, inside))
  }

  // No IP options, and either nothing behind the header or a flow payload that is read whole and ends the frame.
  predicate Plain(f: Bytes, ip: Ipv4, udp: Option<Udp>)
    requires Placed(f, Some(ip), udp)
  {
    && ip.ihl == 20
    && match udp
       case None => ip.l3 + 20 == |f|
       case Some(u) => u.off + u.len == |f| && TightFlow(f[u.off..])
  }

  // The frame with the checksums of `f`.
  function Restored(f: Bytes, ip: Ipv4, udp: Option<Udp>, f': Bytes): Bytes
    requires 20 <= ip.ihl && ip.l3 + ip.ihl <= |f| == |f'|
    requires udp.Some? ==> udp.value.off == udp.value.udp + 8 <= |f|
  {
    var g := Splice(f', ip.l3 + 10, f[ip.l3 + 10..ip.l3 + 12]);
    match udp
    case None => g
    case Some(u) => Splice(g, u.udp + 6, f[u.udp + 6..u.udp + 8])
  }

  lemma AddressesCut(r: Renaming, a: Bytes, b: Bytes, o: Bytes, ps: seq<Piece>, c: Bytes, c': Bytes)
    requires |a| == 4 && |b| == 4 && Makes(r, ps, c, c')
    ensures var all := [Piece(Address, a)] + ([Piece(Address, b)] + ([Piece(Unread, o)] + ps));
      && Makes(r, all, a + (b + (o + c)), Rename(r, a) + (Rename(r, b) + (o + c')))
      && (AllRead(all) <==> o == [] && AllRead(ps))
  {
    var p, q, u := Piece(Address, a), Piece(Address, b), Piece(Unread, o);
    PieceFirst(r, u, ps, c, c');
    PieceFirst(r, q, [u] + ps, o + c, o + c');
    PieceFirst(r, p, [q] + ([u] + ps), b + (o + c), Rename(r, b) + (o + c'));
    ReadAppend([p], [q] + ([u] + ps));
    ReadAppend([q], [u] + ps);
    ReadAppend([u], ps);
    assert [u][0] == u;
  }

  lemma HeaderCut(r: Renaming, x: Parts, ps: seq<Piece>, rest': Bytes)
    requires |x.src| == 4 && |x.dst| == 4 && Makes(r, ps, x.rest, rest')
    ensures Makes(r, HeaderPieces(x, ps), Whole(x), Whole(NewParts(r, x, rest')))
    ensures AllRead(HeaderPieces(x, ps)) <==> x.options == [] && AllRead(ps)
  {
    AddressesCut(r, x.src, x.dst, x.options, ps, x.rest, rest');
    First(r, x.head, [Piece(Address, x.src)] + ([Piece(Address, x.dst)] + ([Piece(Unread, x.options)] + ps)),
          x.src + (x.dst + (x.options + x.rest)), Rename(r, x.src) + (Rename(r, x.dst) + (x.options + rest')));
  }

  lemma DatagramCut(r: Renaming, f: Bytes, u: Udp, inside: seq<Piece>, b: Bytes)
    requires u.udp <= u.off && u.off + u.len <= |f| && Makes(r, inside, f[u.off..u.off + u.len], b)
    ensures Makes(r, DatagramPieces(f, u, inside), f[u.udp..], f[u.udp..u.off] + (b + f[u.off + u.len..]))
    ensures AllRead(DatagramPieces(f, u, inside)) <==> AllRead(inside) && u.off + u.len == |f|
  {
    var payload, tail := f[u.off..u.off + u.len], f[u.off + u.len..];
    Last(r, inside, payload, b, tail);
    First(r, f[u.udp..u.off], inside + [Piece(Unread, tail)], payload + tail, b + tail);
    assert f[u.udp..] == f[u.udp..u.off] + (payload + tail);
  }

  // A kept frame with its old checksums, part by part.
  lemma OtherParts(r: Renaming, f: Bytes, ip: Ipv4, f': Bytes)
    requires 20 <= ip.ihl && ip.l3 + ip.ihl <= |f| == |f'| && HeaderClean(r, f, f', ip)
    requires forall i | 0 <= i < |f| && !(ip.l3 + 10 <= i < ip.l3 + 20) :: f'[i] == f[i]
    ensures PartsOf(Restored(f, ip, None, f'), ip) == NewParts(r, PartsOf(f, ip), f[ip.l3 + ip.ihl..])
  {
    var g := Restored(f, ip, None, f');
    forall i | 0 <= i < |f| ensures g[i] == if ip.l3 + 12 <= i < ip.l3 + 20 then f'[i] else f[i] {
      SpliceAt(f', ip.l3 + 10, f[ip.l3 + 10..ip.l3 + 12], i);
    }
    assert g[..ip.l3 + 12] == f[..ip.l3 + 12];
    assert g[ip.l3 + 12..ip.l3 + 16] == f'[ip.l3 + 12..ip.l3 + 16];
    assert g[ip.l3 + 16..ip.l3 + 20] == f'[ip.l3 + 16..ip.l3 + 20];
    assert g[ip.l3 + 20..ip.l3 + ip.ihl] == f[ip.l3 + 20..ip.l3 + ip.ihl];
    assert g[ip.l3 + ip.ihl..] == f[ip.l3 + ip.ihl..];
  }

  lemma RestoredAt(f: Bytes, ip: Ipv4, u: Udp, f': Bytes, g: Bytes)
    requires 20 <= ip.ihl && u.udp == ip.l3 + ip.ihl && u.off == u.udp + 8 && u.off + u.len <= |f| == |f'|
    requires g == Restored(f, ip, Some(u), f')
    requires forall i | 0 <= i < |f| && !(ip.l3 + 10 <= i < ip.l3 + 20) && !InDatagram(Some(u), i) :: f'[i] == f[i]
    ensures Mixed(f, ip, u, f', g)
  {
    var at, sum := ip.l3 + 10, u.udp + 6;
    var v, w := f[at..at + 2], f[sum..sum + 2];
    var g1 := Splice(f', at, v);
    assert v[0] == f[at] && v[1] == f[at + 1] && w[0] == f[sum] && w[1] == f[sum + 1];
    forall i | 0 <= i < |f|
      ensures g[i] == if ip.l3 + 12 <= i < ip.l3 + 20 || u.off <= i < u.off + u.len then f'[i] else f[i]
    {
      SpliceAt(f', at, v, i);
      SpliceAt(g1, sum, w, i);
      if !(at <= i < at + 10) && !(sum <= i < u.off + u.len) { assert !InDatagram(Some(u), i); }
    }
  }

  lemma UdpParts(r: Renaming, f: Bytes, ip: Ipv4, u: Udp, b: Bytes, f': Bytes)
    requires 20 <= ip.ihl && u.udp == ip.l3 + ip.ihl && u.off == u.udp + 8 && u.off + u.len <= |f| == |f'|
      && |b| == u.len
    requires HeaderClean(r, f, f', ip) && f'[u.off..u.off + u.len] == b
    requires forall i | 0 <= i < |f| && !(ip.l3 + 10 <= i < ip.l3 + 20) && !InDatagram(Some(u), i) :: f'[i] == f[i]
    ensures PartsOf(Restored(f, ip, Some(u), f'), ip)
            == NewParts(r, PartsOf(f, ip), f[u.udp..u.off] + (b + f[u.off + u.len..]))
  {
    var g := Restored(f, ip, Some(u), f');
    RestoredAt(f, ip, u, f', g);
    HeadSame(f, ip, u, f', g);
    RestSame(f, ip, u, b, f', g);
  }

  // Where `g` has the bytes of `f'`: at the two addresses and in the payload.
  predicate Mixed(f: Bytes, ip: Ipv4, u: Udp, f': Bytes, g: Bytes) {
    && |f'| == |f| == |g| && 20 <= ip.ihl && u.udp == ip.l3 + ip.ihl && u.off == u.udp + 8 && u.off + u.len <= |f|
    && forall i | 0 <= i < |f| ::
      g[i] == if ip.l3 + 12 <= i < ip.l3 + 20 || u.off <= i < u.off + u.len then f'[i] else f[i]
  }

  lemma HeadSame(f: Bytes, ip: Ipv4, u: Udp, f': Bytes, g: Bytes)
    requires Mixed(f, ip, u, f', g)
    ensures g[..ip.l3 + 12] == f[..ip.l3 + 12] && g[ip.l3 + 20..u.udp] == f[ip.l3 + 20..u.udp]
    ensures g[ip.l3 + 12..ip.l3 + 16] == f'[ip.l3 + 12..ip.l3 + 16]
      && g[ip.l3 + 16..ip.l3 + 20] == f'[ip.l3 + 16..ip.l3 + 20]
  {
  }

  lemma RestSame(f: Bytes, ip: Ipv4, u: Udp, b: Bytes, f': Bytes, g: Bytes)
    requires Mixed(f, ip, u, f', g) && b == f'[u.off..u.off + u.len]
    ensures g[u.udp..] == f[u.udp..u.off] + (b + f[u.off + u.len..])
  {
    var end := u.off + u.len;
    assert g[u.udp..u.off] == f[u.udp..u.off] && g[u.off..end] == b && g[end..] == f[end..];
    assert g[u.udp..] == g[u.udp..u.off] + (g[u.off..end] + g[end..]);
  }

  // Main result: apart from the two checksums, a kept frame is the original with its two header addresses and the
  // address fields of its flow records renamed; and every byte of it was read if and only if it is plain.
  lemma FrameCut(r: Renaming, v9: Templates, ipfix: Templates, clean: Cleaning, link: nat, f: Bytes, f': Bytes)
    returns (ip: Ipv4, udp: Option<Udp>, inside: seq<Piece>)
    requires TemplatesOk(V9, v9) && TemplatesOk(Ipfix, ipfix) && IsCleaning(r, v9, ipfix, clean)
    requires CleanBy(r, clean, link, f) == Some(f')
    ensures Some(ip) == ParseIpv4(link, f) && udp == ParseUdp(link, f) && |f'| == |f| && Placed(f, Some(ip), udp)
    ensures udp.Some? ==> InsideIs(r, v9, ipfix, f, ip, udp.value, inside)
    ensures Makes(r, FramePieces(f, ip, udp, inside), f, Restored(f, ip, udp, f'))
    ensures AllRead(FramePieces(f, ip, udp, inside)) <==> Plain(f, ip, udp)
  {
    ip, udp := KeptFacts(r, v9, ipfix, clean, link, f, f');
    if udp == None {
      inside := [];
      OtherCut(r, v9, ipfix, f, ip, f', inside);
    } else {
      inside := UdpCut(r, v9, ipfix, f, ip, udp.value, f');
    }
  }

  // `inside` are the pieces of the frame's flow payload.
  predicate InsideIs(r: Renaming, v9: Templates, ipfix: Templates, f: Bytes, ip: Ipv4, u: Udp, inside: seq<Piece>)
    requires Placed(f, Some(ip), Some(u))
  {
    var payload := f[u.off..u.off + u.len];
    Enough(payload) && inside == FlowPieces(r, v9, ipfix, f[ip.l3 + 12..ip.l3 + 16], payload)
  }

  predicate PayloadAs(r: Renaming, v9: Templates, ipfix: Templates, f: Bytes, ip: Ipv4, u: Udp, f': Bytes)
    requires |f'| == |f| && Placed(f, Some(ip), Some(u))
  {
    CleanPayload(r, v9, ipfix, f[ip.l3 + 12..ip.l3 + 16], f[u.off..u.off + u.len]) == Some(f'[u.off..u.off + u.len])
  }

  ghost predicate KeptAs(r: Renaming, v9: Templates, ipfix: Templates, f: Bytes, ip: Ipv4, udp: Option<Udp>,
                         f': Bytes) {
    && |f'| == |f| && Placed(f, Some(ip), udp) && HeaderClean(r, f, f', ip)
    && (udp.Some? ==> udp.value.udp == ip.l3 + ip.ihl && PayloadAs(r, v9, ipfix, f, ip, udp.value, f'))
    && forall i | 0 <= i < |f| && !(ip.l3 + 10 <= i < ip.l3 + 20) && !InDatagram(udp, i) :: f'[i] == f[i]
  }

  lemma KeptFacts(r: Renaming, v9: Templates, ipfix: Templates, clean: Cleaning, link: nat, f: Bytes, f': Bytes)
    returns (ip: Ipv4, udp: Option<Udp>)
    requires IsCleaning(r, v9, ipfix, clean) && CleanBy(r, clean, link, f) == Some(f')
    ensures Some(ip) == ParseIpv4(link, f) && udp == ParseUdp(link, f) && KeptAs(r, v9, ipfix, f, ip, udp, f')
  {
    ip := FrameCleaned(r, clean, link, f, f');
    udp := ParseUdp(link, f);
    Facts(r, v9, ipfix, clean, f, ip, udp, f');
  }

  lemma Facts(r: Renaming, v9: Templates, ipfix: Templates, clean: Cleaning, f: Bytes, ip: Ipv4,
              udp: Option<Udp>, f': Bytes)
    requires IsCleaning(r, v9, ipfix, clean) && |f'| == |f| && Placed(f, Some(ip), udp) && HeaderClean(r, f, f', ip)
    requires udp.Some? ==> udp.value.udp == ip.l3 + ip.ihl && PayloadClean(clean, f, f', ip, udp.value)
    requires forall i | 0 <= i < |f| && !(ip.l3 + 10 <= i < ip.l3 + 20) && !InDatagram(udp, i) :: f'[i] == f[i]
    ensures KeptAs(r, v9, ipfix, f, ip, udp, f')
  {
    if udp.Some? { FactsUdp(r, v9, ipfix, clean, f, ip, udp.value, f'); }
  }

  lemma FactsUdp(r: Renaming, v9: Templates, ipfix: Templates, clean: Cleaning, f: Bytes, ip: Ipv4, u: Udp, f': Bytes)
    requires IsCleaning(r, v9, ipfix, clean) && |f'| == |f| && Placed(f, Some(ip), Some(u))
      && PayloadClean(clean, f, f', ip, u)
    ensures PayloadAs(r, v9, ipfix, f, ip, u, f')
  {
    PayloadKept(r, v9, ipfix, clean, f[ip.l3 + 12..ip.l3 + 16], f[u.off..u.off + u.len]);
  }

  lemma PayloadKept(r: Renaming, v9: Templates, ipfix: Templates, clean: Cleaning, exporter: Bytes, payload: Bytes)
    requires IsCleaning(r, v9, ipfix, clean)
    ensures clean(exporter, payload) == CleanPayload(r, v9, ipfix, exporter, payload)
  {
    assert Parsing.At((exporter, payload));
  }

  lemma OtherCut(r: Renaming, v9: Templates, ipfix: Templates, f: Bytes, ip: Ipv4, f': Bytes, inside: seq<Piece>)
    requires KeptAs(r, v9, ipfix, f, ip, None, f')
    ensures Makes(r, FramePieces(f, ip, None, inside), f, Restored(f, ip, None, f'))
    ensures AllRead(FramePieces(f, ip, None, inside)) <==> Plain(f, ip, None)
  {
    var p, x, g := Piece(Unread, f[ip.l3 + ip.ihl..]), PartsOf(f, ip), Restored(f, ip, None, f');
    One(r, p);
    HeaderCut(r, x, [p], p.bytes);
    OtherParts(r, f, ip, f');
    PartsWhole(f, ip);
    PartsWhole(g, ip);
    assert [p][0] == p;
  }

  lemma WholeCut(r: Renaming, f: Bytes, ip: Ipv4, u: Udp, ps: seq<Piece>, b: Bytes, f': Bytes)
    requires 20 <= ip.ihl && u.udp == ip.l3 + ip.ihl && u.off == u.udp + 8 && u.off + u.len <= |f| == |f'|
      && |b| == u.len
    requires HeaderClean(r, f, f', ip) && f'[u.off..u.off + u.len] == b
    requires forall i | 0 <= i < |f| && !(ip.l3 + 10 <= i < ip.l3 + 20) && !InDatagram(Some(u), i) :: f'[i] == f[i]
    requires Makes(r, ps, f[u.udp..], f[u.udp..u.off] + (b + f[u.off + u.len..]))
    ensures Makes(r, HeaderPieces(PartsOf(f, ip), ps), f, Restored(f, ip, Some(u), f'))
    ensures AllRead(HeaderPieces(PartsOf(f, ip), ps)) <==> ip.ihl == 20 && AllRead(ps)
  {
    UdpParts(r, f, ip, u, b, f');
    HeaderCut(r, PartsOf(f, ip), ps, f[u.udp..u.off] + (b + f[u.off + u.len..]));
    PartsWhole(f, ip);
    PartsWhole(Restored(f, ip, Some(u), f'), ip);
  }

  lemma UdpCut(r: Renaming, v9: Templates, ipfix: Templates, f: Bytes, ip: Ipv4, u: Udp, f': Bytes)
      returns (inside: seq<Piece>)
    requires TemplatesOk(V9, v9) && TemplatesOk(Ipfix, ipfix) && KeptAs(r, v9, ipfix, f, ip, Some(u), f')
    ensures InsideIs(r, v9, ipfix, f, ip, u, inside)
    ensures Makes(r, FramePieces(f, ip, Some(u), inside), f, Restored(f, ip, Some(u), f'))
    ensures AllRead(FramePieces(f, ip, Some(u), inside)) <==> Plain(f, ip, Some(u))
  {
    var exporter, payload, b := f[ip.l3 + 12..ip.l3 + 16], f[u.off..u.off + u.len], f'[u.off..u.off + u.len];
    FlowCut(r, v9, ipfix, exporter, payload, b);
    inside := FlowPieces(r, v9, ipfix, exporter, payload);
    DatagramCut(r, f, u, inside, b);
    WholeCut(r, f, ip, u, DatagramPieces(f, u, inside), b, f');
    assert u.off + u.len == |f| ==> payload == f[u.off..];
  }

  // ---- whatever came before ----

  ghost predicate MemoryOk(m: Memory) { TemplatesOk(V9, m.v9) && TemplatesOk(Ipfix, m.ipfix) }

  lemma {:induction false} SetsNoted(d: Dialect, r: Renaming, exporter: Bytes, domain: nat, known: Templates,
                                     rest: Bytes)
    requires TemplatesOk(d, known)
    ensures TemplatesOk(d, SanitizeSets(CleanerOf(d, r, exporter, domain), known, rest).known)
    decreases |rest|
  {
    if WholeSet(rest) {
      var id, body, next := U16(rest, 0), SetBody(rest), rest[U16(rest, 2)..];
      if id < DATA_MIN {
        NoteKeepsOk(d, known, exporter, domain, id, body);
        SetsNoted(d, r, exporter, domain, NoteSet(d, known, exporter, domain, id, body), next);
      } else {
        SetsNoted(d, r, exporter, domain, known, next);
      }
    }
  }

  lemma PacketNoted(d: Dialect, r: Renaming, known: Templates, exporter: Bytes, payload: Bytes)
    requires TemplatesOk(d, known)
    ensures TemplatesOk(d, SanitizePacket(d, r, known, exporter, payload).known)
  {
    if |payload| >= HeaderLen(d) {
      SetsNoted(d, r, exporter, DomainOf(d, payload), known, payload[HeaderLen(d)..EndOf(d, payload)]);
    }
  }

  lemma PayloadNoted(r: Renaming, m: Memory, exporter: Bytes, payload: Bytes)
    requires MemoryOk(m)
    ensures MemoryOk(Noted(r, m, exporter, payload))
  {
    PacketNoted(V9, r, m.v9, exporter, payload);
    PacketNoted(Ipfix, r, m.ipfix, exporter, payload);
  }

  // What is remembered stays fit for `FrameCut`, frame after frame.
  lemma FrameNoted(r: Renaming, m: Memory, link: nat, f: Bytes)
    requires MemoryOk(m)
    ensures MemoryOk(NotedFrame(r, m, link, f))
  {
    if ParseUdp(link, f).Some? {
      var u := ParseUdp(link, f).value;
      PayloadNoted(r, m, f[u.ip.l3 + 12..u.ip.l3 + 16], f[u.off..u.off + u.len]);
    }
  }

  // ---- frames that are not plain ----

  // An address in an IP option is kept.
  lemma OptionKept(r: Renaming, clean: Cleaning, src: Bytes, dst: Bytes, address: Bytes) returns (f: Bytes, f': Bytes)
    requires KeepsLength(clean) && |src| == 4 && |dst| == 4 && |address| == 4
    ensures CleanBy(r, clean, RAW, f) == Some(f') && |f'| == 24 && f'[20..] == address
  {
    f := [0x46, 0, 0, 24, 0, 0, 0, 0, 64, 1, 0, 0] + src + dst + address;
    f' := CleanBy(r, clean, RAW, f).value;
    var ip := FrameCleaned(r, clean, RAW, f, f');
    assert f[20..] == address && f'[20..] == f[20..];
  }

  // So is one behind the length of an IPFIX message.
  lemma TailKept(r: Renaming, known: Templates, exporter: Bytes, address: Bytes) returns (payload: Bytes)
    requires |address| == 4
    ensures SanitizePacket(Ipfix, r, known, exporter, payload) == Sanitized(true, payload, known)
    ensures |payload| == 20 && payload[16..] == address && !Tight(Ipfix, payload)
  {
    payload := [0, 10, 0, 16, 0, 0, 0, 0, 0, 0, 0, 0, 0, 0, 0, 0] + address;
    assert U16(payload, 2) == 16;
    assert payload[16..16] == [];
    assert payload == payload[..16] + [] + payload[16..];
  }

  // And one in an element that is not on the list, though the payload is read whole.
  lemma ElementKept(r: Renaming, exporter: Bytes, address: Bytes) returns (known: Templates, payload: Bytes)
    requires |address| == 4
    ensures TemplatesOk(Ipfix, known)
      && SanitizePacket(Ipfix, r, known, exporter, payload) == Sanitized(true, payload, known)
    ensures |payload| == 24 && payload[20..] == address && Tight(Ipfix, payload)
  {
    var t := Template([Field(130, 4, false)], 4, false, false);
    TemplateMade(t);
    known := map[Key(exporter, 0, 256) := t];
    var header := [0, 10, 0, 24, 0, 0, 0, 0, 0, 0, 0, 0, 0, 0, 0, 0];
    var rest := [1, 0, 0, 8] + address;
    payload := header + rest;
    Message(header, rest, payload);
    OneElement(r, t, address);
    OneSet(r, known, exporter, address, rest);
    OneMessage(r, known, exporter, rest, payload);
    assert payload[20..] == rest[4..] == address;
  }

  lemma Message(header: Bytes, rest: Bytes, payload: Bytes)
    requires header == [0, 10, 0, 24, 0, 0, 0, 0, 0, 0, 0, 0, 0, 0, 0, 0] && payload == header + rest && |rest| == 8
    ensures |payload| == 24 && U16(payload, 2) == 24 && U32(payload, 12) == 0 && payload[16..] == rest
  {
  }

  lemma OneMessage(r: Renaming, known: Templates, exporter: Bytes, rest: Bytes, payload: Bytes)
    requires |payload| == 24 && U16(payload, 2) == 24 && U32(payload, 12) == 0 && rest == payload[16..]
    requires SanitizeSets(CleanerOf(Ipfix, r, exporter, 0), known, rest) == Sanitized(true, rest, known)
    requires TightSets(Ipfix, rest)
    ensures SanitizePacket(Ipfix, r, known, exporter, payload) == Sanitized(true, payload, known)
      && Tight(Ipfix, payload)
  {
    assert EndOf(Ipfix, payload) == 24 && DomainOf(Ipfix, payload) == 0;
    assert payload[16..24] == rest && payload[24..] == [];
    assert payload[..16] + rest + [] == payload;
  }

  lemma OneSet(r: Renaming, known: Templates, exporter: Bytes, address: Bytes, rest: Bytes)
    requires Key(exporter, 0, 256) in known && ScrubData(r, known[Key(exporter, 0, 256)], address) == Some(address)
    requires |address| == 4 && rest == [1, 0, 0, 8] + address
    ensures SanitizeSets(CleanerOf(Ipfix, r, exporter, 0), known, rest) == Sanitized(true, rest, known)
    ensures TightSets(Ipfix, rest)
  {
    assert U16(rest, 0) == 256 && U16(rest, 2) == 8 && SetBody(rest) == address && rest[8..] == [];
    assert rest == rest[..4] + address + [];
  }

  lemma TemplateMade(t: Template)
    requires t == Template([Field(130, 4, false)], 4, false, false)
    ensures TemplateOk(Ipfix, t)
  {
    assert t.fields[1..] == [];
  }

  lemma OneElement(r: Renaming, t: Template, address: Bytes)
    requires t == Template([Field(130, 4, false)], 4, false, false) && |address| == 4
    ensures ScrubData(r, t, address) == Some(address)
  {
    assert t.fields[1..] == [] && address[..4] == address && address[4..] == [];
    assert Locate(Ipfix, address, t.fields[0]) == Some(Span(0, 4));
    assert ScrubFields(r, address, t.fields) == Clean(address);
    assert ScrubFixed(r, t, []) == Some([]);
  }
}
