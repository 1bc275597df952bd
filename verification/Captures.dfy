/** A whole capture: what a collector decodes from its sanitized frames, against what it decodes from the originals.  */
module Captures {
  import opened Prelude
  import opened Wire
  import opened Decode
  import opened Sanitize
  import opened SanitizeTheorems
  import opened Pcap
  import opened Frames
  import FrameBytes
  import Sanitizer

  datatype Frame = Frame(time: int, bytes: Bytes)

  // What a frame brings a collector of one protocol: its sender and its payload.
  datatype Shot = Shot(exporter: Bytes, payload: Bytes)

  function ShotOf(d: Dialect, link: nat, f: Bytes): Option<Shot> {
    match ParseUdp(link, f)
    case None => None
    case Some(u) => ShotIn(d, f, u.ip, u)
  }

  function ShotIn(d: Dialect, f: Bytes, ip: Ipv4, u: Udp): Option<Shot>
    requires 20 <= ip.ihl && ip.l3 + ip.ihl <= |f| && u.off + u.len <= |f|
  {
    var payload := f[u.off..u.off + u.len];
    if |payload| >= 2 && U16(payload, 0) == Version(d) then Some(Shot(f[ip.l3 + 12..ip.l3 + 16], payload)) else None
  }

  function KnownIn(d: Dialect, m: Memory): Templates {
    if d.V9? then m.v9 else m.ipfix
  }

  // ---- a capture, for any sanitizer and collector ----

  // What the sanitizer makes of a frame and remembers of it, what a frame brings the collector, and what the collector
  // reads from a payload that arrives under a name.
  datatype Tools = Tools(clean: (Memory, Bytes) -> Option<Bytes>, note: (Memory, Bytes) -> Memory,
                         shot: Bytes -> Option<Shot>, read: (Cache, Bytes, Bytes, int) -> Result)

  // The frames that are kept, and what they become.
  function Kept(x: Tools, m: Memory, frames: seq<Frame>): seq<Frame>
    decreases |frames|
  {
    if frames == [] then []
    else
      var rest := Kept(x, x.note(m, frames[0].bytes), frames[1..]);
      if x.clean(m, frames[0].bytes) == None then rest else [frames[0]] + rest
  }

  function Cleaned(x: Tools, m: Memory, frames: seq<Frame>): seq<Frame>
    decreases |frames|
  {
    if frames == [] then []
    else
      var rest := Cleaned(x, x.note(m, frames[0].bytes), frames[1..]);
      match x.clean(m, frames[0].bytes)
      case None => rest
      case Some(f') => [Frame(frames[0].time, f')] + rest
  }

  function CacheAfter(c: Cache, res: Result): Cache {
    if res.Decoded? then res.out.cache else c
  }

  // What is decoded, payload by payload.  A sender is known by `name`: a replaying host sends everything under its own.
  function Play(x: Tools, c: Cache, name: Bytes -> Bytes, frames: seq<Frame>): seq<Result>
    decreases |frames|
  {
    if frames == [] then []
    else match x.shot(frames[0].bytes)
      case None => Play(x, c, name, frames[1..])
      case Some(s) =>
        var res := x.read(c, name(s.exporter), s.payload, frames[0].time);
        [res] + Play(x, CacheAfter(c, res), name, frames[1..])
  }

  function MapResults(r: Renaming, rs: seq<Result>): seq<Result> {
    if rs == [] then [] else [MapResult(r, rs[0])] + MapResults(r, rs[1..])
  }

  // Every decoded address lies in 10.0.0.0/8.
  predicate Safe(res: Result) {
    res.Decoded? ==> AllMasked(res.out.flows)
  }

  predicate AllSafe(rs: seq<Result>) {
    forall i | 0 <= i < |rs| :: Safe(rs[i])
  }

  predicate BelowLimit(res: Result) {
    res.Decoded? ==> |res.out.flows| < MAX_RECORDS
  }

  // Before the last frame no dropped one defines a template of this protocol, and no kept one runs into the record
  // limit.
  predicate Calm(d: Dialect, x: Tools, m: Memory, c: Cache, alias: Bytes -> Bytes, frames: seq<Frame>)
    decreases |frames|
  {
    |frames| <= 1 ||
    var f, m1 := frames[0], x.note(m, frames[0].bytes);
    if x.clean(m, f.bytes) == None then
      KnownIn(d, m1) == KnownIn(d, m) && Calm(d, x, m1, c, alias, frames[1..])
    else match x.shot(f.bytes)
      case None => Calm(d, x, m1, c, alias, frames[1..])
      case Some(s) =>
        var res := x.read(c, alias(s.exporter), s.payload, f.time);
        BelowLimit(res) && Calm(d, x, m1, CacheAfter(c, res), alias, frames[1..])
  }

  // How one frame of the capture is treated, with sanitizer and collector in agreement.
  ghost predicate Works(d: Dialect, r: Renaming, x: Tools, rel: (Memory, Cache) -> bool, name: Bytes -> Bytes,
                        alias: Bytes -> Bytes, m: Memory, c: Cache, f: Frame)
  {
    var m1 := x.note(m, f.bytes);
    match x.clean(m, f.bytes)
    case None => KnownIn(d, m1) == KnownIn(d, m) ==> rel(m1, c)
    case Some(f') =>
      match x.shot(f.bytes)
      case None => x.shot(f') == None && rel(m1, c)
      case Some(s) =>
        && x.shot(f').Some?
        && var s', res := x.shot(f').value, x.read(c, alias(s.exporter), s.payload, f.time);
          && x.read(c, name(s'.exporter), s'.payload, f.time) == MapResult(r, res)
          && Safe(MapResult(r, res))
          && (BelowLimit(res) ==> rel(m1, CacheAfter(c, res)))
  }

  ghost predicate AllWork(d: Dialect, r: Renaming, x: Tools, rel: (Memory, Cache) -> bool, name: Bytes -> Bytes,
                          alias: Bytes -> Bytes, frames: seq<Frame>)
  {
    forall m, c, i | rel(m, c) && 0 <= i < |frames| :: Works(d, r, x, rel, name, alias, m, c, frames[i])
  }

  lemma Heads(r: Renaming, res: Result, rs: seq<Result>)
    ensures MapResults(r, [res] + rs) == [MapResult(r, res)] + MapResults(r, rs)
  {
    assert ([res] + rs)[1..] == rs;
  }

  lemma PlayFirst(x: Tools, c: Cache, name: Bytes -> Bytes, f: Frame, rest: seq<Frame>)
    ensures Play(x, c, name, [f] + rest)
            == match x.shot(f.bytes)
               case None => Play(x, c, name, rest)
               case Some(s) =>
                 var res := x.read(c, name(s.exporter), s.payload, f.time);
                 [res] + Play(x, CacheAfter(c, res), name, rest)
  {
    assert ([f] + rest)[1..] == rest;
  }

  // The cache after a frame of the original.
  function Next(x: Tools, m: Memory, c: Cache, alias: Bytes -> Bytes, f: Frame): Cache {
    if x.clean(m, f.bytes) == None || x.shot(f.bytes) == None then c
    else CacheAfter(c, x.read(c, alias(x.shot(f.bytes).value.exporter), x.shot(f.bytes).value.payload, f.time))
  }

  lemma FirstMapped(d: Dialect, r: Renaming, x: Tools, rel: (Memory, Cache) -> bool, name: Bytes -> Bytes,
                    alias: Bytes -> Bytes, m: Memory, c: Cache, f: Frame, kept: seq<Frame>, cleaned: seq<Frame>)
    requires Works(d, r, x, rel, name, alias, m, c, f)
    requires var c1 := Next(x, m, c, alias, f);
      Play(x, c1, name, cleaned) == MapResults(r, Play(x, c1, alias, kept)) && AllSafe(Play(x, c1, name, cleaned))
    ensures var all := if x.clean(m, f.bytes) == None then cleaned
                       else [Frame(f.time, x.clean(m, f.bytes).value)] + cleaned;
      var originals := if x.clean(m, f.bytes) == None then kept else [f] + kept;
      && Play(x, c, name, all) == MapResults(r, Play(x, c, alias, originals))
      && AllSafe(Play(x, c, name, all))
  {
    if x.clean(m, f.bytes).Some? {
      var f' := Frame(f.time, x.clean(m, f.bytes).value);
      PlayFirst(x, c, alias, f, kept);
      PlayFirst(x, c, name, f', cleaned);
      if x.shot(f.bytes).Some? {
        var s := x.shot(f.bytes).value;
        var res := x.read(c, alias(s.exporter), s.payload, f.time);
        Heads(r, res, Play(x, CacheAfter(c, res), alias, kept));
      }
    }
  }

  lemma {:induction false} RunMapped(d: Dialect, r: Renaming, x: Tools, rel: (Memory, Cache) -> bool,
                                     name: Bytes -> Bytes,
                                     alias: Bytes -> Bytes, m: Memory, c: Cache, frames: seq<Frame>)
    requires AllWork(d, r, x, rel, name, alias, frames) && rel(m, c) && Calm(d, x, m, c, alias, frames)
    ensures Play(x, c, name, Cleaned(x, m, frames)) == MapResults(r, Play(x, c, alias, Kept(x, m, frames)))
    ensures AllSafe(Play(x, c, name, Cleaned(x, m, frames)))
    decreases |frames|
  {
    if frames != [] {
      var f, rest := frames[0], frames[1..];
      var m1, c1 := x.note(m, f.bytes), Next(x, m, c, alias, f);
      assert Works(d, r, x, rel, name, alias, m, c, f);
      if rest != [] {
        CalmNext(d, r, x, rel, name, alias, m, c, frames);
        RunMapped(d, r, x, rel, name, alias, m1, c1, rest);
      }
      FirstMapped(d, r, x, rel, name, alias, m, c, f, Kept(x, m1, rest), Cleaned(x, m1, rest));
    }
  }

  lemma CalmNext(d: Dialect, r: Renaming, x: Tools, rel: (Memory, Cache) -> bool, name: Bytes -> Bytes,
                 alias: Bytes -> Bytes, m: Memory, c: Cache, frames: seq<Frame>)
    requires |frames| > 1 && Works(d, r, x, rel, name, alias, m, c, frames[0]) && Calm(d, x, m, c, alias, frames)
    ensures var m1, c1 := x.note(m, frames[0].bytes), Next(x, m, c, alias, frames[0]);
      rel(m1, c1) && Calm(d, x, m1, c1, alias, frames[1..])
  {
  }

  // ---- the sanitizer's frames ----

  function CleanFrame(r: Renaming, m: Memory, link: nat, f: Bytes): Option<Bytes> {
    CleanBy(r, CleaningOf(r, m.v9, m.ipfix), link, f)
  }

  function ToolsOf(d: Dialect, r: Renaming, link: nat, sweeps: Sweeps): Tools {
    Tools((m: Memory, f: Bytes) => CleanFrame(r, m, link, f),
          (m: Memory, f: Bytes) => NotedFrame(r, m, link, f),
          (f: Bytes) => ShotOf(d, link, f),
          (c: Cache, name: Bytes, payload: Bytes, time: int) => DecodePacket(d, c, payload, name, time, sweeps))
  }

  // What a frame of this protocol teaches.
  predicate Teaches(d: Dialect, r: Renaming, m: Memory, s: Option<Shot>, m1: Memory) {
    match s
    case None => KnownIn(d, m1) == KnownIn(d, m)
    case Some(x) => |x.payload| >= 4 ==>
      KnownIn(d, m1) == SanitizePacket(d, r, KnownIn(d, m), x.exporter, x.payload).known
  }

  lemma UdpTeaches(d: Dialect, r: Renaming, m: Memory, f: Bytes, ip: Ipv4, u: Udp)
    requires Placed(f, Some(ip), Some(u))
    ensures Teaches(d, r, m, ShotIn(d, f, ip, u), NotedBy(r, m, f, ip, Some(u)))
  {
  }

  lemma FrameTeaches(d: Dialect, r: Renaming, m: Memory, link: nat, f: Bytes)
    ensures Teaches(d, r, m, ShotOf(d, link, f), NotedFrame(r, m, link, f))
  {
    if ParseUdp(link, f).Some? {
      var u := ParseUdp(link, f).value;
      UdpTeaches(d, r, m, f, u.ip, u);
    }
  }

  lemma VersionKept(r: Renaming, v9: Templates, ipfix: Templates, exporter: Bytes, payload: Bytes, b: Bytes)
    requires CleanPayload(r, v9, ipfix, exporter, payload) == Some(b)
    ensures |b| == |payload| >= 4 && U16(b, 0) == U16(payload, 0)
  {
  }

  // A kept frame of this protocol carries the sanitized payload under the renamed sender.
  ghost predicate Carries(d: Dialect, r: Renaming, m: Memory, s: Option<Shot>, s': Option<Shot>) {
    match s
    case None => s' == None
    case Some(x) =>
      var p := SanitizePacket(d, r, KnownIn(d, m), x.exporter, x.payload);
      |x.payload| >= 4 && U16(x.payload, 0) == Version(d) && p.ok && s' == Some(Shot(Rename(r, x.exporter), p.bytes))
  }

  lemma PayloadCarries(d: Dialect, r: Renaming, m: Memory, e: Bytes, p: Bytes, b: Bytes)
    requires CleanPayload(r, m.v9, m.ipfix, e, p) == Some(b)
    ensures |p| >= 4 && |b| == |p| && U16(b, 0) == U16(p, 0)
    ensures U16(p, 0) == Version(d) ==>
      var s := SanitizePacket(d, r, KnownIn(d, m), e, p); s.ok && s.bytes == b
  {
    VersionKept(r, m.v9, m.ipfix, e, p, b);
  }

  lemma FrameCarries(d: Dialect, r: Renaming, m: Memory, link: nat, f: Bytes, f': Bytes)
    requires CleanFrame(r, m, link, f) == Some(f')
    ensures Carries(d, r, m, ShotOf(d, link, f), ShotOf(d, link, f'))
  {
    var clean := CleaningOf(r, m.v9, m.ipfix);
    CleaningIs(r, m.v9, m.ipfix);
    var ip, udp := FrameBytes.KeptFacts(r, m.v9, m.ipfix, clean, link, f, f');
    SameParse(r, clean, link, f, f');
    if udp.Some? { UdpCarries(d, r, m, f, f', ip, udp.value); }
  }

  lemma SameParse(r: Renaming, clean: Cleaning, link: nat, f: Bytes, f': Bytes)
    requires KeepsLength(clean) && CleanBy(r, clean, link, f) == Some(f')
    ensures ParseUdp(link, f') == ParseUdp(link, f)
  {
    var _ := FrameCleaned(r, clean, link, f, f');
  }

  lemma UdpCarries(d: Dialect, r: Renaming, m: Memory, f: Bytes, f': Bytes, ip: Ipv4, u: Udp)
    requires FrameBytes.KeptAs(r, m.v9, m.ipfix, f, ip, Some(u), f')
    ensures Carries(d, r, m, ShotIn(d, f, ip, u), ShotIn(d, f', ip, u))
  {
    PayloadCarries(d, r, m, f[ip.l3 + 12..ip.l3 + 16], f[u.off..u.off + u.len], f'[u.off..u.off + u.len]);
  }

  // ---- the capture ----

  ghost predicate Paired(pair: Pairing, alias: Bytes -> Bytes, s: Option<Shot>) {
    forall domain: nat | s.Some? :: Joins(pair, s.value.exporter, alias(s.value.exporter), domain)
  }

  // A kept frame of this protocol, read from both captures.
  lemma FrameMapped(d: Dialect, r: Renaming, m: Memory, c: Cache, pair: Pairing, name: Bytes -> Bytes,
                    alias: Bytes -> Bytes, s: Shot, s': Shot, time: int, sweeps: Sweeps, known1: Templates)
    requires Ready(d, KnownIn(d, m), c, pair) && Carries(d, r, m, Some(s), Some(s'))
    requires alias(s.exporter) == name(Rename(r, s.exporter)) && Paired(pair, alias, Some(s))
    requires known1 == SanitizePacket(d, r, KnownIn(d, m), s.exporter, s.payload).known
    ensures var res := DecodePacket(d, c, s.payload, alias(s.exporter), time, sweeps);
      && DecodePacket(d, c, s'.payload, name(s'.exporter), time, sweeps) == MapResult(r, res)
      && Safe(MapResult(r, res)) && (BelowLimit(res) ==> Ready(d, known1, CacheAfter(c, res), pair))
  {
    var p := SanitizePacket(d, r, KnownIn(d, m), s.exporter, s.payload);
    if |s.payload| >= HeaderLen(d) { assert Joins(pair, s.exporter, alias(s.exporter), DomainOf(d, s.payload)); }
    SanitizedDecodesMapped(d, r, KnownIn(d, m), c, pair, s.exporter, alias(s.exporter), s.payload, time, sweeps, p);
    var res := DecodePacket(d, c, s.payload, alias(s.exporter), time, sweeps);
    if res.Decoded? { MappedIsMasked(r, res.out.flows); }
  }

  lemma FrameWorks(d: Dialect, r: Renaming, x: Tools, rel: (Memory, Cache) -> bool, pair: Pairing, name: Bytes -> Bytes,
                   alias: Bytes -> Bytes, m: Memory, c: Cache, f: Frame, link: nat, sweeps: Sweeps)
    requires x == ToolsOf(d, r, link, sweeps) && rel(m, c)
    requires forall n, e :: rel(n, e) <==> Ready(d, KnownIn(d, n), e, pair)
    requires Paired(pair, alias, ShotOf(d, link, f.bytes)) && forall e :: alias(e) == name(Rename(r, e))
    ensures Works(d, r, x, rel, name, alias, m, c, f)
  {
    FrameTeaches(d, r, m, link, f.bytes);
    if CleanFrame(r, m, link, f.bytes).Some? {
      var f' := CleanFrame(r, m, link, f.bytes).value;
      FrameCarries(d, r, m, link, f.bytes, f');
      if ShotOf(d, link, f.bytes).Some? {
        var s, s' := ShotOf(d, link, f.bytes).value, ShotOf(d, link, f').value;
        FrameMapped(d, r, m, c, pair, name, alias, s, s', f.time, sweeps, KnownIn(d, NotedFrame(r, m, link, f.bytes)));
      }
    }
  }

  // Main result: the sanitized capture decodes to the flows of the kept frames with each address renamed, up to and
  // including the first frame that is dropped with a template in it or runs into the record limit.
  lemma CaptureMapped(d: Dialect, r: Renaming, x: Tools, m: Memory, c: Cache, pair: Pairing, name: Bytes -> Bytes,
                      alias: Bytes -> Bytes, link: nat, frames: seq<Frame>, sweeps: Sweeps)
    requires x == ToolsOf(d, r, link, sweeps) && Ready(d, KnownIn(d, m), c, pair)
    requires forall i | 0 <= i < |frames| :: Paired(pair, alias, ShotOf(d, link, frames[i].bytes))
    requires Calm(d, x, m, c, alias, frames) && forall e :: alias(e) == name(Rename(r, e))
    ensures Play(x, c, name, Cleaned(x, m, frames)) == MapResults(r, Play(x, c, alias, Kept(x, m, frames)))
    ensures AllSafe(Play(x, c, name, Cleaned(x, m, frames)))
  {
    ghost var rel := (n: Memory, e: Cache) => Ready(d, KnownIn(d, n), e, pair);
    forall n, e, i | rel(n, e) && 0 <= i < |frames| ensures Works(d, r, x, rel, name, alias, n, e, frames[i]) {
      FrameWorks(d, r, x, rel, pair, name, alias, n, e, frames[i], link, sweeps);
    }
    RunMapped(d, r, x, rel, name, alias, m, c, frames);
  }

  // A capture from the start, whatever the collector knew before: its senders must stay distinct under their new names.
  lemma SanitizedCapture(d: Dialect, r: Renaming, x: Tools, c: Cache, name: Bytes -> Bytes, alias: Bytes -> Bytes,
                         link: nat, frames: seq<Frame>, sweeps: Sweeps)
    requires x == ToolsOf(d, r, link, sweeps) && CacheOk(d, c) && Distinct(d, alias, link, frames)
    requires Calm(d, x, Memory(map[], map[]), c, alias, frames) && forall e :: alias(e) == name(Rename(r, e))
    ensures var m := Memory(map[], map[]);
      && Play(x, c, name, Cleaned(x, m, frames)) == MapResults(r, Play(x, c, alias, Kept(x, m, frames)))
      && AllSafe(Play(x, c, name, Cleaned(x, m, frames)))
  {
    ghost var pair := (k: Key, k': Key) => Sends(d, link, frames, k.exporter)
      && k' == Key(alias(k.exporter), k.domain, k.id);
    forall i | 0 <= i < |frames| ensures Paired(pair, alias, ShotOf(d, link, frames[i].bytes)) {
      SendersPaired(d, pair, alias, link, frames, i);
    }
    CaptureMapped(d, r, x, Memory(map[], map[]), c, pair, name, alias, link, frames, sweeps);
  }

  ghost predicate Sends(d: Dialect, link: nat, frames: seq<Frame>, exporter: Bytes) {
    exists i :: 0 <= i < |frames| && ShotOf(d, link, frames[i].bytes).Some?
      && ShotOf(d, link, frames[i].bytes).value.exporter == exporter
  }

  ghost predicate Distinct(d: Dialect, alias: Bytes -> Bytes, link: nat, frames: seq<Frame>) {
    forall e, e' | Sends(d, link, frames, e) && Sends(d, link, frames, e') && alias(e) == alias(e') :: e == e'
  }

  lemma SendersPaired(d: Dialect, pair: Pairing, alias: Bytes -> Bytes, link: nat, frames: seq<Frame>, i: nat)
    requires forall k, k' ::
      pair(k, k') <==> Sends(d, link, frames, k.exporter) && k' == Key(alias(k.exporter), k.domain, k.id)
    requires Distinct(d, alias, link, frames) && i < |frames|
    ensures Paired(pair, alias, ShotOf(d, link, frames[i].bytes))
  {
    assert OneToOne(pair);
    if ShotOf(d, link, frames[i].bytes).Some? {
      assert Sends(d, link, frames, ShotOf(d, link, frames[i].bytes).value.exporter);
    }
  }

  // ---- the tool ----

  // The sanitizer object's next frame, and what its memory then is.
  lemma CleaningFor(r: Renaming, m: Memory, link: nat, f: Bytes) returns (clean: Cleaning, out: Option<Bytes>)
    ensures IsCleaning(r, m.v9, m.ipfix, clean) && out == CleanBy(r, clean, link, f) == CleanFrame(r, m, link, f)
  {
    clean := CleaningOf(r, m.v9, m.ipfix);
    CleaningIs(r, m.v9, m.ipfix);
    out := CleanBy(r, clean, link, f);
  }

  lemma CleanedSplit(x: Tools, m: Memory, done: seq<Frame>, frames: seq<Frame>, i: nat)
    requires i < |frames|
    ensures var f, m1 := frames[i], x.note(m, frames[i].bytes);
      done + Cleaned(x, m, frames[i..])
      == (if x.clean(m, f.bytes) == None then done else done + [Frame(f.time, x.clean(m, f.bytes).value)])
         + Cleaned(x, m1, frames[i + 1..])
  {
    assert frames[i..][1..] == frames[i + 1..];
  }

  method SanitizeOne(s: Sanitizer.Sanitizer, link: nat, f: Frame, ghost x: Tools, ghost d: Dialect,
                     ghost sweeps: Sweeps)
    returns (o: Option<Frame>)
    requires s.Valid() && x == ToolsOf(d, s.rename, link, sweeps)
    modifies s
    ensures s.Valid()
    ensures o == (match x.clean(Memory(old(s.v9), old(s.ipfix)), f.bytes)
                  case None => None
                  case Some(f') => Some(Frame(f.time, f')))
    ensures Memory(s.v9, s.ipfix) == x.note(Memory(old(s.v9), old(s.ipfix)), f.bytes)
    ensures s.packets == old(s.packets) + 1 && s.kept == old(s.kept) + (if o.Some? then 1 else 0)
      && s.dropped == old(s.dropped) + (if o.Some? then 0 else 1)
  {
    var buf := new Byte[|f.bytes|](k requires 0 <= k < |f.bytes| => f.bytes[k]);
    assert buf[..] == f.bytes;
    ghost var clean, result := CleaningFor(s.rename, Memory(s.v9, s.ipfix), link, f.bytes);
    var ok := s.Frame(link, buf, clean, result);
    o := if ok then Some(Frame(f.time, buf[..])) else None;
  }

  // Frame by frame, as the command does it.
  method SanitizeCapture(s: Sanitizer.Sanitizer, link: nat, frames: seq<Frame>, ghost x: Tools, ghost d: Dialect,
                         ghost sweeps: Sweeps)
    returns (out: seq<Frame>)
    requires s.Valid() && x == ToolsOf(d, s.rename, link, sweeps)
    modifies s
    ensures s.Valid() && out == Cleaned(x, Memory(old(s.v9), old(s.ipfix)), frames)
    ensures s.packets == old(s.packets) + |frames| && s.kept == old(s.kept) + |out|
      && s.dropped == old(s.dropped) + |frames| - |out|
  {
    ghost var was := Memory(s.v9, s.ipfix);
    out := [];
    var i := 0;
    assert frames[0..] == frames;
    while i < |frames|
      invariant i <= |frames| && s.Valid()
      invariant Cleaned(x, was, frames) == out + Cleaned(x, Memory(s.v9, s.ipfix), frames[i..])
      invariant s.packets == old(s.packets) + i && s.kept == old(s.kept) + |out|
        && s.dropped == old(s.dropped) + i - |out|
    {
      CleanedSplit(x, Memory(s.v9, s.ipfix), out, frames, i);
      var o := SanitizeOne(s, link, frames[i], x, d, sweeps);
      if o.Some? { out := out + [o.value]; }
      i := i + 1;
    }
  }

  // ---- a template in a dropped packet ----

  // A v9 payload of domain 0 with these sets.
  function V9Payload(sets: Bytes): Bytes {
    [0, 9, 0, 1, 0, 0, 0, 0, 0, 0, 0, 0, 0, 0, 0, 0, 0, 0, 0, 0] + sets
  }

  // Template 256 has one element of four bytes.
  function OneField(ie: nat): Template {
    Template([Field(ie, 4, false)], 4, false, false)
  }

  function DefineSet(ie: Byte): Bytes { [0, 0, 0, 12, 1, 0, 0, 1, 0, ie, 0, 4] }

  lemma OneDefined(ie: Byte)
    ensures SetBody(DefineSet(ie)) == [1, 0, 0, 1, 0, ie, 0, 4]
    ensures ParseTemplates(V9, [1, 0, 0, 1, 0, ie, 0, 4]) == [Define(256, OneField(ie))]
  {
    var body: Bytes := [1, 0, 0, 1, 0, ie, 0, 4];
    var specs := body[4..];
    assert specs == [0, ie, 0, 4] && specs[4..] == [];
    assert ParseSpec(V9, specs) == Some((Field(ie, 4, false), 4));
    assert ParseSpecs(V9, specs[4..], 0) == Some(([], 0)) && [Field(ie, 4, false)] + [] == [Field(ie, 4, false)];
    assert ParseSpecs(V9, specs, 1) == Some(([Field(ie, 4, false)], 4));
    OneFieldMade(ie);
    assert TemplateAt(V9, body) == Some((Define(256, OneField(ie)), 8));
    assert body[8..] == [] && ParseTemplates(V9, []) == [];
  }

  lemma OneFieldMade(ie: nat)
    ensures MakeTemplate(V9, [Field(ie, 4, false)]) == OneField(ie)
  {
    assert [Field(ie, 4, false)][1..] == [] && FixedLen(V9, []) == 0;
  }

  lemma V9Sets(r: Renaming, known: Templates, c: Cache, e: Bytes, sets: Bytes, sweeps: Sweeps, a: Arrival)
    requires a == Arrival(e, 0, 0, Context(e, 0))
    ensures var s, p := SanitizeSets(CleanerOf(V9, r, e, 0), known, sets), V9Payload(sets);
      SanitizePacket(V9, r, known, e, p) == Sanitized(s.ok, V9Payload(s.bytes), s.known)
    ensures DecodePacket(V9, c, V9Payload(sets), e, 0, sweeps)
            == Decoded(DecodeSets(ReaderOf(V9, a, sweeps), c, sets, MAX_RECORDS))
  {
    var p := V9Payload(sets);
    assert |p| == 20 + |sets| && p[20..] == sets && p[20..|p|] == sets && p[|p|..] == [];
    assert U16(p, 0) == 9 && DomainOf(V9, p) == 0 && BaseOf(V9, p) == 0;
    assert p[..20] == V9Payload([]);
  }

  // The set that defines template 256, and what is behind it.
  lemma DefineParts(ie: Byte, next: Bytes, s: Bytes)
    requires s == DefineSet(ie) + next
    ensures WholeSet(s) && U16(s, 0) == 0 && U16(s, 2) == 12 && SetBody(s) == [1, 0, 0, 1, 0, ie, 0, 4]
      && s[12..] == next
      && s[..4] + SetBody(s) == DefineSet(ie)
  {
  }

  lemma DefineNoted(r: Renaming, known: Templates, e: Bytes, ie: Byte, next: Bytes)
    ensures var cl := CleanerOf(V9, r, e, 0);
      SanitizeSets(cl, known, DefineSet(ie) + next)
      == Behind(DefineSet(ie), SanitizeSets(cl, known[Key(e, 0, 256) := OneField(ie)], next))
  {
    var items, s := [Define(256, OneField(ie))], DefineSet(ie) + next;
    OneDefined(ie);
    DefineParts(ie, next, s);
    assert items[1..] == [];
    assert NoteSet(V9, known, e, 0, 0, SetBody(s)) == Learn(known, e, 0, items);
    assert Learn(known, e, 0, items) == known[Key(e, 0, 256) := OneField(ie)];
  }

  lemma DefineStored(c: Cache, e: Bytes, ie: Byte, next: Bytes, sweeps: Sweeps, a: Arrival, c1: Cache)
    requires a == Arrival(e, 0, 0, Context(e, 0)) && c == Cache(map[], 0, 0)
    requires c1 == Cache(map[Key(e, 0, 256) := Entry(OneField(ie), 0)], 0, 1)
    ensures var rd := ReaderOf(V9, a, sweeps);
      DecodeSets(rd, c, DefineSet(ie) + next, MAX_RECORDS) == DecodeSets(rd, c1, next, MAX_RECORDS)
  {
    var items := [Define(256, OneField(ie))];
    OneDefined(ie);
    DefineParts(ie, next, DefineSet(ie) + next);
    assert items[1..] == [];
    assert c.entries[Key(e, 0, 256) := Entry(OneField(ie), 0)] == c1.entries && |c1.entries| == 1;
    assert StoreOne(c, e, 0, items[0], 0, sweeps) == c1;
    assert Store(c, e, 0, items, 0, sweeps) == c1;
  }

  // An unknown data set is dropped.
  lemma Unknown(r: Renaming, known: Templates, e: Bytes)
    requires Key(e, 0, 999) !in known
    ensures SanitizeSets(CleanerOf(V9, r, e, 0), known, [3, 231, 0, 4]) == Sanitized(false, [3, 231, 0, 4], known)
  {
    var s: Bytes := [3, 231, 0, 4];
    assert U16(s, 0) == 999 && U16(s, 2) == 4;
  }

  // Four bytes under template 256, a counter to the sanitizer and an address to the collector.
  lemma FourBytes(r: Renaming, known: Templates, c: Cache, e: Bytes, address: Bytes, sweeps: Sweeps, a: Arrival)
    requires |address| == 4 && a == Arrival(e, 0, 0, Context(e, 0))
    requires Key(e, 0, 256) in known && known[Key(e, 0, 256)] == OneField(1)
    requires Key(e, 0, 256) in c.entries && c.entries[Key(e, 0, 256)].t == OneField(8)
    ensures var s := [1, 0, 0, 8] + address; SanitizeSets(CleanerOf(V9, r, e, 0), known, s) == Sanitized(true, s, known)
    ensures var flows := DecodeSets(ReaderOf(V9, a, sweeps), c, [1, 0, 0, 8] + address, MAX_RECORDS).flows;
      |flows| == 1 && flows[0].ip.src == address
  {
    var s := [1, 0, 0, 8] + address;
    assert U16(s, 0) == 256 && U16(s, 2) == 8 && SetBody(s) == address && s[8..] == [] && s[..4] + address + [] == s;
    CounterKept(r, address);
    AddressRead(address, a.ctx);
  }

  lemma CounterKept(r: Renaming, b: Bytes)
    requires |b| == 4
    ensures ScrubData(r, OneField(1), b) == Some(b)
  {
    var t := OneField(1);
    assert t.fields[1..] == [] && b[..4] == b && b[4..] == [];
    assert Locate(Ipfix, b, t.fields[0]) == Some(Span(0, 4));
    assert ScrubFields(r, b, t.fields) == Clean(b);
    assert ScrubFixed(r, t, []) == Some([]);
  }

  lemma AddressRead(b: Bytes, ctx: Context)
    requires |b| == 4
    ensures var flows := Emit(V9, OneField(8), b, MAX_RECORDS, ctx); |flows| == 1 && flows[0].ip.src == b
  {
    var t := OneField(8);
    assert t.fields[1..] == [] && b[..4] == b && b[4..] == [];
    assert Locate(V9, b, t.fields[0]) == Some(Span(0, 4)) && Value(b, Span(0, 4)) == b;
    assert Walk(V9, b[4..], t.fields[1..]) == Some(([], 0)) && [b] + [] == [b];
    assert Walk(V9, b, t.fields) == Some(([b], 4));
    assert [b][1..] == [];
    assert Fold(V9, EmptyFlow(ctx), t.fields, [b], ctx.base) == ApplyOne(V9, EmptyFlow(ctx), t.fields[0], b, ctx.base);
    assert EmitFixed(V9, t, [], MAX_RECORDS - 1, ctx) == [];
  }

  // The sanitizer learns from a packet it drops: three packets of which the first and last are kept, and the last
  // decodes to the address it had.
  lemma DroppedTemplateLeaks(r: Renaming, e: Bytes, address: Bytes, sweeps: Sweeps)
    returns (ps: seq<Bytes>, ss: seq<Sanitized>, first: Result, last: Result)
    requires |address| == 4
    ensures |ps| == |ss| == 3 && ss[0] == SanitizePacket(V9, r, map[], e, ps[0])
      && ss[1] == SanitizePacket(V9, r, ss[0].known, e, ps[1]) && ss[2] == SanitizePacket(V9, r, ss[1].known, e, ps[2])
    ensures ss[0].ok && !ss[1].ok && ss[2].ok
    ensures first == DecodePacket(V9, Cache(map[], 0, 0), ss[0].bytes, e, 0, sweeps) && first.Decoded?
      && last == DecodePacket(V9, first.out.cache, ss[2].bytes, e, 0, sweeps) && last.Decoded?
    ensures |last.out.flows| == 1 && last.out.flows[0].ip.src == address
  {
    var a, key := Arrival(e, 0, 0, Context(e, 0)), Key(e, 0, 256);
    var c0 := Cache(map[], 0, 0);
    var c1 := Cache(map[key := Entry(OneField(8), 0)], 0, 1);
    var known0: Templates := map[];
    var known1, known2 := known0[key := OneField(8)], known0[key := OneField(8)][key := OneField(1)];
    var unknown: Bytes := [3, 231, 0, 4];
    var data := [1, 0, 0, 8] + address;
    assert DefineSet(8) + [] == DefineSet(8);
    DefineNoted(r, known0, e, 8, []);
    DefineStored(c0, e, 8, [], sweeps, a, c1);
    V9Sets(r, known0, c0, e, DefineSet(8), sweeps, a);
    DefineNoted(r, known1, e, 1, unknown);
    Unknown(r, known2, e);
    V9Sets(r, known1, c1, e, DefineSet(1) + unknown, sweeps, a);
    FourBytes(r, known2, c1, e, address, sweeps, a);
    V9Sets(r, known2, c1, e, data, sweeps, a);
    ps := [V9Payload(DefineSet(8)), V9Payload(DefineSet(1) + unknown), V9Payload(data)];
    var s0 := SanitizePacket(V9, r, known0, e, ps[0]);
    var s1 := SanitizePacket(V9, r, known1, e, ps[1]);
    ss := [s0, s1, SanitizePacket(V9, r, known2, e, ps[2])];
    first := DecodePacket(V9, c0, ss[0].bytes, e, 0, sweeps);
    last := DecodePacket(V9, c1, ss[2].bytes, e, 0, sweeps);
  }
}
