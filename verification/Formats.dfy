/** The four kinds of capture file, written out byte by byte, and what the reader makes of them.  */
module Formats {
  import opened Prelude
  import opened Wire
  import opened PcapFile

  // The first four bytes of a file tell its byte order and the unit of its fractions of a second.
  function Magic(big: bool, nano: bool): Bytes {
    if big then (if nano then [0xa1, 0xb2, 0x3c, 0x4d] else [0xa1, 0xb2, 0xc3, 0xd4])
    else (if nano then [0x4d, 0x3c, 0xb2, 0xa1] else [0xd4, 0xc3, 0xb2, 0xa1])
  }

  // A number in four bytes, most or least significant first.
  function Word(big: bool, x: nat): (b: Bytes)
    requires x < 0x1_0000_0000
    ensures |b| == 4
  {
    var a, b, c, d := x / 0x100_0000, x / 0x1_0000 % 0x100, x / 0x100 % 0x100, x % 0x100;
    if big then [a, b, c, d] else [d, c, b, a]
  }

  // One record: seconds, fraction, captured and original length, and the frame.
  datatype Record = Record(sec: nat, frac: nat, orig: nat, data: Bytes)

  predicate RecordOk(r: Record) {
    r.sec < 0x1_0000_0000 && r.frac < 0x1_0000_0000 && r.orig < 0x1_0000_0000 && |r.data| <= 0x100_0000
  }

  function RecordBytes(big: bool, r: Record): Bytes
    requires RecordOk(r)
  {
    Word(big, r.sec) + (Word(big, r.frac) + (Word(big, |r.data|) + (Word(big, r.orig) + r.data)))
  }

  // Version, time zone, accuracy and snap length are not looked at.
  function HeaderBytes(f: Format, middle: Bytes): Bytes
    requires f.link < 0x1_0000_0000
  {
    Magic(f.big, f.nano) + middle + Word(f.big, f.link)
  }

  // The packet has the frame and the time of the record, to the nanosecond.
  predicate Means(f: Format, r: Record, p: Packet) {
    && p.data == r.data && p.origLen == r.orig && p.nanos < 1_000_000_000
    && p.sec * 1_000_000_000 + p.nanos == r.sec * 1_000_000_000 + r.frac * if f.nano then 1 else 1000
  }

  predicate AllMean(f: Format, rs: seq<Record>, ps: seq<Packet>) {
    |ps| == |rs| && forall i | 0 <= i < |rs| :: Means(f, rs[i], ps[i])
  }

  function AllBytes(big: bool, rs: seq<Record>): Bytes
    requires forall i | 0 <= i < |rs| :: RecordOk(rs[i])
  {
    if rs == [] then [] else RecordBytes(big, rs[0]) + AllBytes(big, rs[1..])
  }

  lemma Digits(x: nat)
    requires x < 0x1_0000_0000
    ensures x == x / 0x100_0000 * 0x100_0000 + x / 0x1_0000 % 0x100 * 0x1_0000 + x / 0x100 % 0x100 * 0x100 + x % 0x100
  {
  }

  lemma WordIs(f: Format, x: nat)
    requires x < 0x1_0000_0000
    ensures Number(f, Word(f.big, x), 0) == x
  {
    Digits(x);
  }

  lemma NumberAt(f: Format, a: Bytes, w: Bytes, c: Bytes, b: Bytes)
    requires |w| == 4 && b == a + (w + c)
    ensures |a| + 4 <= |b| && Number(f, b, |a|) == Number(f, w, 0)
  {
    assert b[|a|] == w[0] && b[|a| + 1] == w[1] && b[|a| + 2] == w[2] && b[|a| + 3] == w[3];
  }

  lemma WordRead(f: Format, x: nat, a: Bytes, c: Bytes, b: Bytes)
    requires x < 0x1_0000_0000 && b == a + (Word(f.big, x) + c)
    ensures |a| + 4 <= |b| && Number(f, b, |a|) == x
  {
    NumberAt(f, a, Word(f.big, x), c, b);
    WordIs(f, x);
  }

  lemma HeaderRead(f: Format, middle: Bytes, rest: Bytes, b: Bytes)
    requires f.link < 0x1_0000_0000 && |middle| == 16 && b == HeaderBytes(f, middle) + rest
    ensures ReadHeader(b) == Some(f) && b[24..] == rest
  {
    var m := Magic(f.big, f.nano);
    assert b[0] == m[0] && b[1] == m[1] && b[2] == m[2] && b[3] == m[3];
    assert b == (m + middle) + (Word(f.big, f.link) + rest);
    WordRead(f, f.link, m + middle, rest, b);
  }

  // Where the parts of a record lie.
  lemma Parts(s: Bytes, u: Bytes, n: Bytes, o: Bytes, tail: Bytes, b: Bytes)
    requires |s| == |u| == |n| == |o| == 4 && b == s + (u + (n + (o + tail)))
    ensures b == [] + (s + (u + (n + (o + tail)))) && b == (s + u) + (n + (o + tail))
      && b == (s + u + n) + (o + tail) && b[16..] == tail
  {
  }

  lemma NumbersRead(f: Format, r: Record, rest: Bytes, b: Bytes)
    requires RecordOk(r) && b == RecordBytes(f.big, r) + rest
    ensures |b| >= 16 && Number(f, b, 0) == r.sec && Number(f, b, 4) == r.frac && Number(f, b, 8) == |r.data|
      && Number(f, b, 12) == r.orig && b[16..] == r.data + rest
  {
    var s, u, n, o := Word(f.big, r.sec), Word(f.big, r.frac), Word(f.big, |r.data|), Word(f.big, r.orig);
    var tail := r.data + rest;
    assert b == s + (u + (n + (o + tail)));
    Parts(s, u, n, o, tail, b);
    WordRead(f, r.sec, [], u + (n + (o + tail)), b);
    WordRead(f, r.frac, s, n + (o + tail), b);
    WordRead(f, |r.data|, s + u, o + tail, b);
    WordRead(f, r.orig, s + u + n, tail, b);
  }

  lemma RecordRead(f: Format, r: Record, rest: Bytes, b: Bytes) returns (p: Packet)
    requires RecordOk(r) && b == RecordBytes(f.big, r) + rest
    ensures ReadPacket(f, b) == Got(p, rest) && Means(f, r, p)
  {
    NumbersRead(f, r, rest, b);
    var tail := r.data + rest;
    assert b[16..16 + |r.data|] == tail[..|r.data|] == r.data && b[16 + |r.data|..] == tail[|r.data|..] == rest;
    p := ReadPacket(f, b).p;
  }

  // Main result: a capture in any of the four formats is read with its link type and its packets, in order, to its end.
  lemma {:induction false} RecordsRead(f: Format, rs: seq<Record>, b: Bytes) returns (ps: seq<Packet>)
    requires (forall i | 0 <= i < |rs| :: RecordOk(rs[i])) && b == AllBytes(f.big, rs)
    ensures ReadAll(f, b) == (ps, End) && AllMean(f, rs, ps)
    decreases |rs|
  {
    if rs == [] {
      ps := [];
    } else {
      var p := RecordRead(f, rs[0], AllBytes(f.big, rs[1..]), b);
      var more := RecordsRead(f, rs[1..], AllBytes(f.big, rs[1..]));
      ps := [p] + more;
    }
  }

  lemma FileRead(f: Format, middle: Bytes, rs: seq<Record>, b: Bytes) returns (ps: seq<Packet>)
    requires f.link < 0x1_0000_0000 && |middle| == 16 && (forall i | 0 <= i < |rs| :: RecordOk(rs[i]))
    requires b == HeaderBytes(f, middle) + AllBytes(f.big, rs)
    ensures ReadHeader(b) == Some(f) && ReadAll(f, b[24..]) == (ps, End) && AllMean(f, rs, ps)
  {
    HeaderRead(f, middle, AllBytes(f.big, rs), b);
    ps := RecordsRead(f, rs, AllBytes(f.big, rs));
  }
}
