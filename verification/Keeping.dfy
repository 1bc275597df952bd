/** Which payloads the sanitizer keeps: exactly those whose data sets it can read and whose addresses it can
    rename.  */
module Keeping {
  import opened Prelude
  import opened Wire
  import opened Decode
  import opened Records
  import opened RoundTrip
  import opened Sanitize
  import opened Pcap
  import opened Frames

  // No IPv6 address, and IPv4 addresses of four bytes; the elements of an enterprise are its own.
  predicate Fine(fields: seq<Field>, values: seq<Bytes>)
    requires |fields| == |values|
  {
    forall i | 0 <= i < |fields| && !fields[i].enterprise ::
      && fields[i].ie !in {27, 28, 62, 63, 281, 282}
      && (fields[i].ie in {8, 12, 15, 18, 225, 226} ==> |values[i]| == 4)
  }

  predicate AllFine(fields: seq<Field>, recs: seq<Record>)
    requires RecordsOk(Ipfix, fields, recs)
  {
    forall k | 0 <= k < |recs| :: RecordOk(Ipfix, fields, recs[k]) && Fine(fields, recs[k].values)
  }

  // A v9 field never says its own length.
  predicate Plain(d: Dialect, fields: seq<Field>) {
    d.V9? ==> forall i | 0 <= i < |fields| :: fields[i].length != 0xFFFF
  }

  lemma {:induction false} RecordKept(r: Renaming, fields: seq<Field>, heads: seq<Bytes>, values: seq<Bytes>,
                                      rec: Bytes, rest: Bytes)
    requires HeadsOk(Ipfix, fields, heads, values) && rec == Lay(heads, values)
    ensures var c := ScrubFields(r, rec + rest, fields);
      if Fine(fields, values) then c.Clean? && |c.rec| == |rec| else c.Unsafe?
    decreases |fields|
  {
    if fields != [] {
      assert HeadOk(Ipfix, fields[0], heads[0], values[0]);
      var others := Lay(heads[1..], values[1..]);
      LocateLaid(Ipfix, fields[0], heads[0], values[0], others + rest);
      assert rec + rest == heads[0] + values[0] + (others + rest);
      FineCons(fields, values);
      RecordKept(r, fields[1..], heads[1..], values[1..], others, rest);
    }
  }

  lemma FineCons(fields: seq<Field>, values: seq<Bytes>)
    requires |fields| == |values| > 0
    ensures Fine(fields, values) <==> Handled(fields[0], values[0]) && Fine(fields[1..], values[1..])
  {
    if Handled(fields[0], values[0]) && Fine(fields[1..], values[1..]) {
      forall i | 0 < i < |fields| && !fields[i].enterprise
        ensures fields[i].ie !in {27, 28, 62, 63, 281, 282}
          && (fields[i].ie in {8, 12, 15, 18, 225, 226} ==> |values[i]| == 4)
      {
        assert fields[i] == fields[1..][i - 1];
      }
    }
  }

  lemma FirstKept(d: Dialect, r: Renaming, fields: seq<Field>, rec: Record, first: Bytes, rest: Bytes)
    requires Plain(d, fields) && Sized(d, fields) && RecordOk(Ipfix, fields, rec)
      && first == EncodeRecord(Ipfix, fields, rec)
    ensures var t, fine := MakeTemplate(d, fields), Fine(fields, rec.values);
      && (t.hasVar ==> (ScrubVar(r, t, first + rest).Some? <==> fine && ScrubVar(r, t, rest).Some?))
      && (!t.hasVar ==>
        |first| == t.recordLen > 0
        && (ScrubFixed(r, t, first + rest).Some? <==> fine && ScrubFixed(r, t, rest).Some?))
  {
    SameLength(d, fields, rec);
    RecordKept(r, fields, rec.heads, rec.values, first, rest);
    RecordKept(r, fields, rec.heads, rec.values, first, []);
    assert (first + rest)[..|first|] == first + [] && (first + rest)[|first|..] == rest;
  }

  lemma SameLength(d: Dialect, fields: seq<Field>, rec: Record)
    requires Plain(d, fields) && Sized(d, fields) && RecordOk(Ipfix, fields, rec)
    ensures var n := |EncodeRecord(Ipfix, fields, rec)|; n > 0 && (!HasVar(d, fields) ==> n == FixedLen(d, fields))
  {
    PlainLength(d, fields);
    LaidLength(Ipfix, fields, rec.heads, rec.values);
  }

  lemma {:induction false} PlainLength(d: Dialect, fields: seq<Field>)
    requires Plain(d, fields)
    ensures FixedLen(d, fields) == FixedLen(Ipfix, fields) && (HasVar(d, fields) <==> HasVar(Ipfix, fields))
  {
    if fields != [] { PlainLength(d, fields[1..]); }
  }

  predicate Whole(len: nat, n: nat) {
    n > 0 && len % n == 0
  }

  lemma OneMore(len: nat, n: nat)
    requires Whole(len, n)
    ensures Whole(n + len, n)
  {
    Multiple(n, len / n + 1, n + len);
  }

  lemma Multiple(n: nat, q: nat, x: nat)
    requires n > 0 && x == n * q
    ensures Whole(x, n)
  {
    var p, s := x / n, x % n;
    assert n * (q - p) == s;
    if q - p > 0 { AtLeast(n, q - p); }
  }

  lemma AtLeast(n: nat, k: nat)
    requires k > 0
    ensures n * k >= n
  {
  }

  // Bytes behind the last record: none, or too few for the first field of another.
  predicate PadFits(fields: seq<Field>, pad: Bytes) {
    pad == [] || (fields != [] && fields[0].length != 0xFFFF && |pad| < fields[0].length)
  }

  predicate Zeros(pad: Bytes) { forall i | 0 <= i < |pad| :: pad[i] == 0 }

  lemma {:induction false} RowsKept(d: Dialect, r: Renaming, t: Template, fields: seq<Field>, recs: seq<Record>,
                                    pad: Bytes, body: Bytes)
    requires t == MakeTemplate(d, fields) && Plain(d, fields) && Sized(d, fields) && RecordsOk(Ipfix, fields, recs)
      && PadFits(fields, pad) && body == EncodeRecords(Ipfix, fields, recs) + pad
    ensures t.hasVar ==> (ScrubVar(r, t, body).Some? <==> AllFine(fields, recs) && Zeros(pad))
    ensures !t.hasVar && pad == [] ==>
      Whole(|body|, t.recordLen) && (ScrubFixed(r, t, body).Some? <==> AllFine(fields, recs))
    decreases |recs|
  {
    if recs == [] {
      assert body == pad;
    } else {
      var first, others := EncodeRecord(Ipfix, fields, recs[0]), EncodeRecords(Ipfix, fields, recs[1..]);
      Associate(first, others, pad);
      RowsKept(d, r, t, fields, recs[1..], pad, others + pad);
      AllFineCons(fields, recs);
      if t.hasVar || pad == [] { OneRowMore(d, r, t, fields, recs[0], first, others + pad); }
    }
  }

  lemma OneRowMore(d: Dialect, r: Renaming, t: Template, fields: seq<Field>, rec: Record, first: Bytes, rest: Bytes)
    requires t == MakeTemplate(d, fields) && Plain(d, fields) && Sized(d, fields) && RecordOk(Ipfix, fields, rec)
      && first == EncodeRecord(Ipfix, fields, rec)
    requires !t.hasVar ==> Whole(|rest|, t.recordLen)
    ensures t.hasVar ==>
      (ScrubVar(r, t, first + rest).Some? <==> Fine(fields, rec.values) && ScrubVar(r, t, rest).Some?)
    ensures !t.hasVar ==>
      Whole(|first + rest|, t.recordLen)
      && (ScrubFixed(r, t, first + rest).Some? <==> Fine(fields, rec.values) && ScrubFixed(r, t, rest).Some?)
  {
    FirstKept(d, r, fields, rec, first, rest);
    if !t.hasVar { OneMore(|rest|, t.recordLen); }
  }

  lemma AllFineCons(fields: seq<Field>, recs: seq<Record>)
    requires RecordsOk(Ipfix, fields, recs) && recs != []
    ensures AllFine(fields, recs) <==> Fine(fields, recs[0].values) && AllFine(fields, recs[1..])
  {
    if Fine(fields, recs[0].values) && AllFine(fields, recs[1..]) {
      forall k | 0 <= k < |recs| ensures Fine(fields, recs[k].values) {
        if k > 0 { assert recs[k] == recs[1..][k - 1]; }
      }
    }
  }

  // Main result: a data set is kept if and only if its template is known, is no options template, all its records
  // are fine, and only zeros follow them, or nothing where no field has its own length.
  lemma RecordsKeptIff(d: Dialect, r: Renaming, known: Templates, exporter: Bytes, domain: nat, id: nat,
                       fields: seq<Field>, recs: seq<Record>, pad: Bytes, body: Bytes)
    requires Plain(d, fields) && Sized(d, fields) && RecordsOk(Ipfix, fields, recs)
      && PadFits(fields, pad) && body == EncodeRecords(Ipfix, fields, recs) + pad
    requires var key := Key(exporter, domain, id);
      key in known ==> known[key].isOptions || known[key] == MakeTemplate(d, fields)
    ensures var key := Key(exporter, domain, id);
      ScrubSet(r, known, exporter, domain, id, body).Some?
      <==> key in known && !known[key].isOptions && AllFine(fields, recs)
           && if HasVar(d, fields) then Zeros(pad) else pad == []
  {
    var t := MakeTemplate(d, fields);
    RowsKept(d, r, t, fields, recs, pad, body);
    if !t.hasVar && pad != [] {
      var records := EncodeRecords(Ipfix, fields, recs);
      RowsKept(d, r, t, fields, recs, [], records + []);
      assert records + [] == records;
      NotWhole(|records|, t.recordLen, |pad|);
    }
  }

  lemma NotWhole(len: nat, n: nat, p: nat)
    requires Whole(len, n) && 0 < p < n
    ensures !Whole(len + p, n)
  {
    var k := (len + p) / n - len / n;
    if Whole(len + p, n) {
      assert n * k == p;
      if k > 0 { AtLeast(n, k); }
    }
  }

  // Without fields of their own length, a set cut in the middle of a record is dropped, whatever follows.
  lemma CutDropped(d: Dialect, r: Renaming, t: Template, body: Bytes)
    requires t == MakeTemplate(d, t.fields) && !t.hasVar && t.recordLen > 0 && |body| % t.recordLen != 0
    ensures ScrubData(r, t, body) == None
  {
  }

  // Data sets under a number that an options template set opens with are dropped; nothing else is learned from it.
  lemma OptionsDropped(d: Dialect, r: Renaming, known: Templates, exporter: Bytes, domain: nat, id: nat, more: Bytes,
                       body: Bytes, known1: Templates)
    requires id < 0x1_0000
      && known1 == NoteSet(d, known, exporter, domain, if d.V9? then 1 else 3, Put16(id) + more)
    ensures ScrubSet(r, known1, exporter, domain, id, body) == None
    ensures forall k | k != Key(exporter, domain, id) ::
      (k in known1 <==> k in known) && (k in known ==> known1[k] == known[k])
  {
    var b := Put16(id) + more;
    assert b[0] == Put16(id)[0] && b[1] == Put16(id)[1] && U16(b, 0) == U16(Put16(id), 0);
  }

  // ---- all sets of a payload ----

  datatype Part = Part(id: nat, body: Bytes)

  predicate PartsOk(parts: seq<Part>) {
    forall k | 0 <= k < |parts| :: parts[k].id < 0x1_0000 && 4 + |parts[k].body| < 0x1_0000
  }

  function EncodeParts(parts: seq<Part>): Bytes
    requires PartsOk(parts)
    decreases |parts|
  {
    if parts == [] then [] else SetBytes(parts[0].id, parts[0].body) + EncodeParts(parts[1..])
  }

  // `knowns[k]` is what is known before the k-th set: data sets teach nothing.
  ghost predicate Learned(cl: Cleaner, parts: seq<Part>, knowns: seq<Templates>) {
    |knowns| == |parts| + 1 && forall k | 0 <= k < |parts| ::
      knowns[k + 1] == if parts[k].id < 256 then cl.learn(knowns[k], parts[k].id, parts[k].body) else knowns[k]
  }

  predicate Kept(cl: Cleaner, part: Part, known: Templates) {
    part.id < 256 || cl.scrub(known, part.id, part.body).Some?
  }

  predicate AllKept(cl: Cleaner, parts: seq<Part>, knowns: seq<Templates>)
    requires |knowns| > |parts|
  {
    forall k | 0 <= k < |parts| :: Kept(cl, parts[k], knowns[k])
  }

  lemma {:induction false} PartsKept(cl: Cleaner, parts: seq<Part>, knowns: seq<Templates>, s: Sanitized)
    requires PartsOk(parts) && Learned(cl, parts, knowns) && s == SanitizeSets(cl, knowns[0], EncodeParts(parts))
    ensures s.ok <==> AllKept(cl, parts, knowns)
    decreases |parts|
  {
    if parts != [] {
      var rest, more := EncodeParts(parts[1..]), knowns[1..];
      SetRead(parts[0].id, parts[0].body, rest);
      AllKeptCons(cl, parts, knowns);
      if Kept(cl, parts[0], knowns[0]) { PartsKept(cl, parts[1..], more, SanitizeSets(cl, more[0], rest)); }
    }
  }

  lemma AllKeptCons(cl: Cleaner, parts: seq<Part>, knowns: seq<Templates>)
    requires parts != [] && Learned(cl, parts, knowns)
    ensures Learned(cl, parts[1..], knowns[1..])
    ensures AllKept(cl, parts, knowns) <==> Kept(cl, parts[0], knowns[0]) && AllKept(cl, parts[1..], knowns[1..])
  {
    if Kept(cl, parts[0], knowns[0]) && AllKept(cl, parts[1..], knowns[1..]) {
      forall k | 0 <= k < |parts| ensures Kept(cl, parts[k], knowns[k]) {
        if k > 0 { assert parts[k] == parts[1..][k - 1] && knowns[k] == knowns[1..][k - 1]; }
      }
    }
  }

  // Main result: a payload is kept if and only if each of its data sets is.
  lemma PayloadKeptIff(d: Dialect, r: Renaming, h: Heading, parts: seq<Part>, knowns: seq<Templates>, exporter: Bytes,
                       data: Bytes, cl: Cleaner)
    requires PartsOk(parts) && data == EncodeParts(parts) && Wide(h) && (d.Ipfix? ==> 16 + |data| < 0x1_0000)
    requires cl == CleanerOf(d, r, exporter, h.domain) && Learned(cl, parts, knowns)
    ensures SanitizePacket(d, r, knowns[0], exporter, Enclose(d, h, data)).ok
      <==> forall k | 0 <= k < |parts| && parts[k].id >= 256 ::
             ScrubSet(r, knowns[k], exporter, h.domain, parts[k].id, parts[k].body).Some?
  {
    HeaderEncoded(d, h, 16 + |data|, exporter, 0);
    PayloadRead(d, EncodeHeader(d, h, 16 + |data|), data);
    PartsKept(cl, parts, knowns, SanitizeSets(cl, knowns[0], data));
    forall k | 0 <= k < |parts|
      ensures Kept(cl, parts[k], knowns[k]) <==>
        (parts[k].id >= 256 ==> ScrubSet(r, knowns[k], exporter, h.domain, parts[k].id, parts[k].body).Some?) { }
  }

  // ---- frames ----

  // A number of v5 records, or a v9 or IPFIX payload that is kept.
  ghost predicate FlowsKept(r: Renaming, m: Memory, exporter: Bytes, payload: Bytes) {
    && |payload| >= 4
    && (|| (payload[..2] == [0, 5] && exists n: nat {:trigger 48 * n} :: |payload| == 24 + 48 * n)
        || (payload[..2] == [0, 9] && SanitizePacket(V9, r, m.v9, exporter, payload).ok)
        || (payload[..2] == [0, 10] && SanitizePacket(Ipfix, r, m.ipfix, exporter, payload).ok))
  }

  // Which payloads are: by their version and what was said above.
  lemma FlowsKeptIff(r: Renaming, m: Memory, exporter: Bytes, payload: Bytes)
    ensures CleanPayload(r, m.v9, m.ipfix, exporter, payload).Some? <==> FlowsKept(r, m, exporter, payload)
  {
    if |payload| >= 4 {
      assert payload[..2] == [payload[0], payload[1]];
      if V5Ok(payload) { assert |payload| == 24 + 48 * ((|payload| - 24) / 48); }
    }
  }

  // Main result: a frame is kept if and only if an IPv4 packet is found in it and, if that is UDP, its payload is.
  lemma FrameKeptIff(r: Renaming, clean: Cleaning, link: nat, f: Bytes)
    requires KeepsLength(clean)
    ensures CleanBy(r, clean, link, f).Some? <==>
      && ParseIpv4(link, f).Some?
      && (ParseUdp(link, f).Some? ==> var u, l3 := ParseUdp(link, f).value, ParseIpv4(link, f).value.l3;
            clean(f[l3 + 12..l3 + 16], f[u.off..u.off + u.len]).Some?)
  {
  }
}
