/** What the sanitizer makes of a NetFlow v9 or IPFIX payload.  */
module Sanitize {
  import opened Prelude
  import opened Wire
  import opened Decode

  predicate IsV4(ie: nat) { ie == 8 || ie == 12 || ie == 15 || ie == 18 || ie == 225 || ie == 226 }
  predicate IsV6(ie: nat) { ie == 27 || ie == 28 || ie == 62 || ie == 63 || ie == 281 || ie == 282 }

  function FnvStep(h: bv32, c: Byte): bv32 { (h ^ (c as bv32)) * 16777619 }

  function HashBy(step: (bv32, Byte) -> bv32, h: bv32, bytes: Bytes): bv32
    decreases |bytes|
  {
    if bytes == [] then h else HashBy(step, step(h, bytes[0]), bytes[1..])
  }

  function Fnv(h: bv32, bytes: Bytes): bv32 {
    HashBy((x: bv32, c: Byte) => FnvStep(x, c), h, bytes)
  }

  lemma FnvFirst(h: bv32, c: Byte, text: Bytes)
    requires text != [] && text[0] == c
    ensures Fnv(h, text) == Fnv(FnvStep(h, c), text[1..])
  {
  }

  // The hash of "foobar", as published.
  lemma FnvKnown(text: Bytes)
    requires text == [102, 111, 111, 98, 97, 114]
    ensures Fnv(2166136261, text) == 3214735720
  {
    FnvFirst(2166136261, 102, text[0..]);
    FnvFirst(3809224601, 111, text[1..]);
    FnvFirst(1646454850, 111, text[2..]);
    FnvFirst(2851307223, 98, text[3..]);
    FnvFirst(1062237935, 97, text[4..]);
    FnvFirst(967483786, 114, text[5..]);
  }

  // A renaming of addresses into 10.0.0.0/8, by the last three bytes it gives each.
  type Renaming = Bytes -> (Byte, Byte, Byte)

  function Rename(r: Renaming, address: Bytes): (a: Bytes)
    ensures |a| == 4 && a[0] == 10
  {
    [10, r(address).0, r(address).1, r(address).2]
  }

  function ThreeBytes(h: nat): (Byte, Byte, Byte) {
    ((h / 0x1_0000) % 256, (h / 0x100) % 256, h % 256)
  }

  // The sanitizer's renaming: FNV-1a of the run's key and the address.
  function Remap(key: Bytes): Renaming {
    (a: Bytes) => ThreeBytes(Fnv(2166136261, key + a) as int)
  }

  lemma TextKnown(text: Bytes)
    requires text == [107, 192, 0, 2, 1]
    ensures Fnv(2166136261, text) == 1289035147
  {
    FnvFirst(2166136261, 107, text[0..]);
    FnvFirst(3993778410, 192, text[1..]);
    FnvFirst(3879496222, 0, text[2..]);
    FnvFirst(572198202, 2, text[3..]);
    FnvFirst(3902132008, 1, text[4..]);
  }

  // What 192.0.2.1 becomes under the key "k".
  lemma RenameKnown(key: Bytes, address: Bytes)
    requires key == [107] && address == [192, 0, 2, 1]
    ensures Rename(Remap(key), address) == [10, 213, 29, 139]
  {
    assert key + address == [107, 192, 0, 2, 1];
    TextKnown(key + address);
    var h: bv32 := 1289035147;
    assert Remap(key)(address) == ThreeBytes(h as int);
    assert h as int == 1289035147;
  }

  // Outcome of walking one record: the bytes it was replaced by, what the buffer holds when the
  // bytes ran out, or an address that cannot be replaced.
  datatype Scrub = Clean(rec: Bytes) | Incomplete(body: Bytes) | Unsafe

  function After(head: Bytes, c: Scrub): Scrub {
    match c
    case Clean(rec) => Clean(head + rec)
    case Incomplete(body) => Incomplete(head + body)
    case Unsafe => Unsafe
  }

  // A field the sanitizer can handle: no IPv6 address, and IPv4 addresses of four bytes.
  predicate Handled(f: Field, v: Bytes) {
    f.enterprise || (!IsV6(f.ie) && (IsV4(f.ie) ==> |v| == 4))
  }

  function NewValue(r: Renaming, f: Field, v: Bytes): (v': Bytes)
    ensures Handled(f, v) ==> |v'| == |v|
  {
    if !f.enterprise && IsV4(f.ie) then Rename(r, v) else v
  }

  // The record `body` starts with, its IPv4 addresses replaced.
  function ScrubFields(r: Renaming, body: Bytes, fields: seq<Field>): (c: Scrub)
    ensures c.Clean? ==> |c.rec| <= |body|
    ensures c.Incomplete? ==> |c.body| == |body|
    decreases |fields|
  {
    if fields == [] then Clean([])
    else match Locate(Ipfix, body, fields[0])
      case None => Incomplete(body)
      case Some(s) =>
        if !Handled(fields[0], Value(body, s)) then Unsafe
        else After(body[..s.off] + NewValue(r, fields[0], Value(body, s)),
                   ScrubFields(r, body[s.off + s.len..], fields[1..]))
  }

  function Append(rec: Bytes, rest: Option<Bytes>): Option<Bytes> {
    match rest
    case None => None
    case Some(b) => Some(rec + b)
  }

  function ScrubFixed(r: Renaming, t: Template, body: Bytes): (o: Option<Bytes>)
    requires t.recordLen > 0
    ensures o.Some? ==> |o.value| == |body|
    decreases |body|
  {
    if |body| < t.recordLen then Some(body)
    else match ScrubFields(r, body[..t.recordLen], t.fields)
      case Clean(rec) => Append(rec + body[|rec|..t.recordLen], ScrubFixed(r, t, body[t.recordLen..]))
      case Incomplete(_) => None
      case Unsafe => None
  }

  predicate AllZero(body: Bytes) {
    forall i | 0 <= i < |body| :: body[i] == 0
  }

  function ScrubVar(r: Renaming, t: Template, body: Bytes): (o: Option<Bytes>)
    ensures o.Some? ==> |o.value| == |body|
    decreases |body|
  {
    if body == [] then Some(body)
    else match ScrubFields(r, body, t.fields)
      case Unsafe => None
      case Incomplete(b) => if AllZero(b) then Some(b) else None
      case Clean(rec) => if rec == [] then None else Append(rec, ScrubVar(r, t, body[|rec|..]))
  }

  // The body of one data set, or None if the packet must be dropped.
  function ScrubData(r: Renaming, t: Template, body: Bytes): (o: Option<Bytes>)
    ensures o.Some? ==> |o.value| == |body| && !t.isOptions
  {
    if t.isOptions then None
    else if t.hasVar then ScrubVar(r, t, body)
    else if t.recordLen == 0 then (if body == [] then Some(body) else None)
    else if |body| % t.recordLen != 0 then None
    else ScrubFixed(r, t, body)
  }

  // ---- one payload ----

  type Templates = map<Key, Template>

  // `ok` is false when the packet must be dropped; what was learned from it stays.
  datatype Sanitized = Sanitized(ok: bool, bytes: Bytes, known: Templates)

  // The sanitizer keeps a withdrawn template and never forgets one.
  function Learn(known: Templates, exporter: Bytes, domain: nat, items: seq<Item>): Templates
    decreases |items|
  {
    if items == [] then known
    else Learn(if items[0].Define? then known[Key(exporter, domain, items[0].id) := items[0].t] else known,
               exporter, domain, items[1..])
  }

  // Of an options template set only the first template number is noted.
  function LearnOptions(known: Templates, exporter: Bytes, domain: nat, body: Bytes): Templates {
    if |body| < 2 then known else known[Key(exporter, domain, U16(body, 0)) := OptionsTemplate(0)]
  }

  function Behind(head: Bytes, s: Sanitized): Sanitized {
    Sanitized(s.ok, head + s.bytes, s.known)
  }

  // What the sanitizer does with a set numbered below DATA_MIN, and with a data set.
  datatype Cleaner = Cleaner(learn: (Templates, nat, Bytes) -> Templates,
                             scrub: (Templates, nat, Bytes) -> Option<Bytes>)

  function NoteSet(d: Dialect, known: Templates, exporter: Bytes, domain: nat, id: nat, body: Bytes): Templates {
    if id == TemplateSet(d) then Learn(known, exporter, domain, ParseTemplates(d, body))
    else if id == OptionsSet(d) then LearnOptions(known, exporter, domain, body)
    else known
  }

  function ScrubSet(r: Renaming, known: Templates, exporter: Bytes, domain: nat, id: nat, body: Bytes): Option<Bytes> {
    var key := Key(exporter, domain, id);
    if key in known then ScrubData(r, known[key], body) else None
  }

  function CleanerOf(d: Dialect, r: Renaming, exporter: Bytes, domain: nat): Cleaner {
    Cleaner((known: Templates, id: nat, body: Bytes) => NoteSet(d, known, exporter, domain, id, body),
            (known: Templates, id: nat, body: Bytes) => ScrubSet(r, known, exporter, domain, id, body))
  }

  function SanitizeSets(cl: Cleaner, known: Templates, rest: Bytes): Sanitized
    decreases |rest|
  {
    if |rest| < 4 then Sanitized(true, rest, known)
    else if !WholeSet(rest) then Sanitized(false, rest, known)
    else
      var id, len, body := U16(rest, 0), U16(rest, 2), SetBody(rest);
      if id < DATA_MIN then Behind(rest[..4] + body, SanitizeSets(cl, cl.learn(known, id, body), rest[len..]))
      else match cl.scrub(known, id, body)
        case None => Sanitized(false, rest, known)
        case Some(b) => Behind(rest[..4] + b, SanitizeSets(cl, known, rest[len..]))
  }

  // A payload too short for a header is kept as it is.
  function SanitizePacket(d: Dialect, r: Renaming, known: Templates, exporter: Bytes, payload: Bytes): Sanitized {
    if |payload| < HeaderLen(d) then Sanitized(true, payload, known)
    else
      var header, end := HeaderLen(d), EndOf(d, payload);
      var s := SanitizeSets(CleanerOf(d, r, exporter, DomainOf(d, payload)), known, payload[header..end]);
      Sanitized(s.ok, payload[..header] + s.bytes + payload[end..], s.known)
  }

  // ---- NetFlow v5 ----

  // Source, destination and next hop, then 36 bytes that stay.
  function V5Record(r: Renaming, b: Bytes): (rec: Bytes)
    requires |b| >= 48
    ensures |rec| == 48
  {
    Rename(r, b[..4]) + Rename(r, b[4..8]) + Rename(r, b[8..12]) + b[12..48]
  }

  function V5Records(r: Renaming, b: Bytes): (b': Bytes)
    ensures |b'| == |b|
    decreases |b|
  {
    if |b| < 48 then b else V5Record(r, b) + V5Records(r, b[48..])
  }

  predicate V5Ok(payload: Bytes) { |payload| >= 24 && (|payload| - 24) % 48 == 0 }

  function ScrubV5(r: Renaming, payload: Bytes): (b: Bytes)
    requires |payload| >= 24
    ensures |b| == |payload|
  {
    payload[..24] + V5Records(r, payload[24..])
  }
}
