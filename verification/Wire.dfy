/** Bytes, fields and flow records shared by the NetFlow v9 and IPFIX decoders, the sanitizer
    and the encoders.  The two protocols differ in a handful of places, so they are one model
    with a dialect.  */
module Wire {
  import opened Prelude

  datatype Dialect = V9 | Ipfix

  const VARLEN := 0xFFFF
  const DATA_MIN := 256

  function Other(d: Dialect): Dialect { if d.V9? then Ipfix else V9 }
  function Version(d: Dialect): nat { if d.V9? then 9 else 10 }
  function HeaderLen(d: Dialect): nat { if d.V9? then 20 else 16 }
  function TemplateSet(d: Dialect): nat { if d.V9? then 0 else 2 }
  function OptionsSet(d: Dialect): nat { if d.V9? then 1 else 3 }

  function U16(b: Bytes, i: nat): (x: nat)
    requires i + 2 <= |b|
    ensures x < 0x1_0000
  {
    (b[i] as int) * 256 + b[i + 1]
  }

  function U32(b: Bytes, i: nat): (x: nat)
    requires i + 4 <= |b|
    ensures x < 0x1_0000_0000
  {
    U16(b, i) * 0x1_0000 + U16(b, i + 2)
  }

  lemma NetworkOrder()
    ensures U16([1, 2], 0) == 0x0102 && U32([1, 2, 3, 4], 0) == 0x0102_0304
    ensures Put16(0x0102) == [1, 2] && Put32(0x0102_0304) == [1, 2, 3, 4]
  {
  }

  function Put16(x: nat): (b: Bytes)
    requires x < 0x1_0000
    ensures |b| == 2 && U16(b, 0) == x
  {
    [x / 256, x % 256]
  }

  function Put32(x: nat): (b: Bytes)
    requires x < 0x1_0000_0000
    ensures |b| == 4 && U32(b, 0) == x
  {
    Put16(x / 0x1_0000) + Put16(x % 0x1_0000)
  }

  // ---- templates ----

  // `length` is VARLEN for an IPFIX field whose length stands in the record.
  datatype Field = Field(ie: nat, length: nat, enterprise: bool)

  datatype Template = Template(fields: seq<Field>, recordLen: nat, hasVar: bool, isOptions: bool)

  datatype Key = Key(exporter: Bytes, domain: nat, id: nat)

  function FixedLen(d: Dialect, fields: seq<Field>): nat {
    if fields == [] then 0
    else (if d.Ipfix? && fields[0].length == VARLEN then 0 else fields[0].length) + FixedLen(d, fields[1..])
  }

  predicate HasVar(d: Dialect, fields: seq<Field>) {
    d.Ipfix? && exists i :: 0 <= i < |fields| && fields[i].length == VARLEN
  }

  function MakeTemplate(d: Dialect, fields: seq<Field>): Template {
    Template(fields, FixedLen(d, fields), HasVar(d, fields), false)
  }

  // What every template in a cache satisfies.
  predicate TemplateOk(d: Dialect, t: Template) {
    !t.isOptions ==> t == MakeTemplate(d, t.fields)
  }

  // ---- flows ----

  // An address is empty when the record does not carry it.
  datatype Time = Unset | Ms(ms: int)

  datatype Addresses = Addresses(src: Bytes, dst: Bytes, natPublic: Bytes, natDest: Bytes)

  datatype Info = Info(
    srcPort: nat, dstPort: nat, natPublicPort: nat, natDestPort: nat,
    protocol: nat, tos: nat, tcpFlags: nat, natEvent: nat,
    octets: nat, packets: nat, start: Time, end: Time, username: Bytes, exporterIP: Bytes)

  datatype Flow = Flow(ip: Addresses, info: Info)

  // The datagram's own context: who sent it, and the time its relative clocks start from
  // (boot time for v9, export time for IPFIX), in milliseconds.
  datatype Context = Context(exporterIP: Bytes, base: int)

  function EmptyFlow(ctx: Context): Flow {
    Flow(Addresses([], [], [], []), Info(0, 0, 0, 0, 0, 0, 0, 0, 0, 0, Unset, Unset, [], ctx.exporterIP))
  }

  // The last eight bytes as a big-endian number.
  function BeUint(v: Bytes): nat
    decreases |v|
  {
    if |v| > 8 then BeUint(v[|v| - 8..])
    else if v == [] then 0
    else BeUint(v[..|v| - 1]) * 256 + v[|v| - 1]
  }

  // Conversion to, and arithmetic in, signed 64-bit integers.
  function Int64(x: int): int {
    var m := x % 0x1_0000_0000_0000_0000;
    if m >= 0x8000_0000_0000_0000 then m - 0x1_0000_0000_0000_0000 else m
  }

  // A fixed-width text field ends at its first NUL and is stripped of surrounding blanks.
  function CutAtNul(v: Bytes): Bytes {
    if v == [] || v[0] == 0 then [] else [v[0]] + CutAtNul(v[1..])
  }

  predicate Blank(b: Byte) { b == 32 || 9 <= b <= 13 }

  function TrimLeft(v: Bytes): Bytes {
    if v != [] && Blank(v[0]) then TrimLeft(v[1..]) else v
  }

  function TrimRight(v: Bytes): Bytes {
    if v != [] && Blank(v[|v| - 1]) then TrimRight(v[..|v| - 1]) else v
  }

  function TrimField(v: Bytes): Bytes {
    TrimRight(TrimLeft(CutAtNul(v)))
  }

  function OrSet(t: Time, ms: int): Time {
    if t.Unset? then Ms(ms) else t
  }

  predicate IsAddress(ie: nat) {
    ie == 8 || ie == 27 || ie == 12 || ie == 28 || ie == 225 || ie == 281 || ie == 226 || ie == 282
  }

  // Writes one field's value into the flow.
  function ApplyField(d: Dialect, f: Flow, ie: nat, v: Bytes, base: int): Flow {
    if IsAddress(ie) then Flow(ApplyAddress(f.ip, ie, v), f.info) else Flow(f.ip, ApplyInfo(d, f.info, ie, v, base))
  }

  function ApplyAddress(ip: Addresses, ie: nat, v: Bytes): Addresses {
    if ie == 8 || ie == 27 then ip.(src := v)
    else if ie == 12 || ie == 28 then ip.(dst := v)
    else if ie == 225 || ie == 281 then ip.(natPublic := v)
    else ip.(natDest := v)
  }

  function ApplyInfo(d: Dialect, f: Info, ie: nat, v: Bytes, base: int): Info {
    if ie == 1 then f.(octets := BeUint(v))
    else if ie == 23 then (if f.octets == 0 then f.(octets := BeUint(v)) else f)
    else if ie == 2 then f.(packets := BeUint(v))
    else if ie == 4 then f.(protocol := BeUint(v) % 256)
    else if ie == 5 then f.(tos := BeUint(v) % 256)
    else if ie == 6 then f.(tcpFlags := BeUint(v) % 256)
    else if ie == 7 then f.(srcPort := BeUint(v) % 0x1_0000)
    else if ie == 11 then f.(dstPort := BeUint(v) % 0x1_0000)
    else if ie == 227 then f.(natPublicPort := BeUint(v) % 0x1_0000)
    else if ie == 228 then f.(natDestPort := BeUint(v) % 0x1_0000)
    else if ie == 230 then f.(natEvent := BeUint(v) % 256)
    else if ie == 371 then f.(username := TrimField(v))
    else if ie == 152 then f.(start := Ms(Int64(BeUint(v))))
    else if ie == 153 then f.(end := Ms(Int64(BeUint(v))))
    else ApplyTime(d, f, ie, v, base)
  }

  function ApplyTime(d: Dialect, f: Info, ie: nat, v: Bytes, base: int): Info {
    match d
    case V9 =>
      if ie == 22 then f.(start := Ms(Int64(base + Int64(BeUint(v)))))
      else if ie == 21 then f.(end := Ms(Int64(base + Int64(BeUint(v)))))
      else if ie == 323 then
        var ms := Int64(BeUint(v)); f.(start := OrSet(f.start, ms), end := OrSet(f.end, ms))
      else if ie == 322 then
        var ms := Int64(Int64(BeUint(v)) * 1000); f.(start := OrSet(f.start, ms), end := OrSet(f.end, ms))
      else f
    case Ipfix =>
      if ie == 150 then f.(start := Ms(Int64(BeUint(v)) * 1000))
      else if ie == 151 then f.(end := Ms(Int64(BeUint(v)) * 1000))
      else f
  }

  function ApplyOne(d: Dialect, f: Flow, field: Field, v: Bytes, base: int): Flow {
    if field.enterprise then f else ApplyField(d, f, field.ie, v, base)
  }

  // An IPFIX flow without its own times takes the export time.
  function Finish(d: Dialect, f: Flow, ctx: Context): Flow {
    if d.V9? then f
    else f.(info := f.info.(start := OrSet(f.info.start, ctx.base), end := OrSet(f.info.end, ctx.base)))
  }

  // ---- the place of a field in a record ----

  datatype Span = Span(off: nat, len: nat)

  // Where the value of a field lies in the bytes that start with it; None if they run out.
  function Locate(d: Dialect, body: Bytes, f: Field): (r: Option<Span>)
    ensures r.Some? ==> r.value.off + r.value.len <= |body|
  {
    if d.Ipfix? && f.length == VARLEN then
      if body == [] then None
      else if body[0] < 255 then Fit(body, 1, body[0])
      else if |body| < 3 then None
      else Fit(body, 3, U16(body, 1))
    else Fit(body, 0, f.length)
  }

  function Fit(body: Bytes, off: nat, len: nat): Option<Span> {
    if off + len > |body| then None else Some(Span(off, len))
  }

  function Value(body: Bytes, s: Span): Bytes
    requires s.off + s.len <= |body|
  {
    body[s.off..s.off + s.len]
  }
}
