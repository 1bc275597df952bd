/** The load generator's NetFlow v9 and IPFIX packets, and what the decoders make of them.  */
module Benchgen {
  import opened Prelude
  import opened Wire
  import opened Decode
  import opened Records
  import opened RoundTrip
  import Elements
  import opened Buffers

  const TEMPLATE_ID := 256
  const V9_RECORD_LEN := 29
  const IPFIX_RECORD_LEN := 37

  // The i-th of the nine fields of either template: addresses, ports, protocol, octets, packets,
  // and the two times.
  function Element(d: Dialect, i: nat): nat {
    if i == 0 then 8 else if i == 1 then 12 else if i == 2 then 7 else if i == 3 then 11 else if i == 4 then 4
    else if i == 5 then 1 else if i == 6 then 2
    else if i == 7 then (if d.V9? then 22 else 152) else if d.V9? then 21 else 153
  }

  function Width(d: Dialect, i: nat): nat {
    if i < 2 then 4 else if i < 4 then 2 else if i == 4 then 1 else if i < 7 || d.V9? then 4 else 8
  }

  function FieldAt(d: Dialect, i: nat): Field {
    Field(Element(d, i), Width(d, i), false)
  }

  function FieldsFrom(d: Dialect, i: nat): (fields: seq<Field>)
    requires i <= 9
    ensures |fields| == 9 - i && forall k | 0 <= k < 9 - i :: fields[k] == FieldAt(d, i + k)
    decreases 9 - i
  {
    if i == 9 then [] else [FieldAt(d, i)] + FieldsFrom(d, i + 1)
  }

  function FieldsOf(d: Dialect): seq<Field> { FieldsFrom(d, 0) }

  // One generated flow: times are milliseconds since boot (v9) or since 1970 (IPFIX).
  datatype Sample = Sample(src: Bytes, dst: Bytes, sport: nat, dport: nat, proto: nat, octets: nat, pkts: nat,
                           first: nat, last: nat)

  predicate SampleOk(d: Dialect, s: Sample) {
    && |s.src| == 4 && |s.dst| == 4 && s.sport < 0x1_0000 && s.dport < 0x1_0000 && s.proto < 256
    && s.octets < 0x1_0000_0000 && s.pkts < 0x1_0000_0000
    && s.first < TimeLimit(d) && s.last < TimeLimit(d)
  }

  function TimeLimit(d: Dialect): nat {
    if d.V9? then 0x1_0000_0000 else 0x1_0000_0000_0000_0000
  }

  function Put64(x: nat): (b: Bytes)
    requires x < 0x1_0000_0000_0000_0000
    ensures |b| == 8
  {
    Put32(x / 0x1_0000_0000) + Put32(x % 0x1_0000_0000)
  }

  function PutTime(d: Dialect, x: nat): Bytes
    requires x < TimeLimit(d)
  {
    if d.V9? then Put32(x) else Put64(x)
  }

  function ValueAt(d: Dialect, s: Sample, i: nat): (v: Bytes)
    requires SampleOk(d, s) && i < 9
    ensures |v| == Width(d, i)
  {
    if i == 0 then s.src else if i == 1 then s.dst else if i == 2 then Put16(s.sport) else if i == 3 then Put16(s.dport)
    else if i == 4 then [s.proto] else if i == 5 then Put32(s.octets) else if i == 6 then Put32(s.pkts)
    else if i == 7 then PutTime(d, s.first) else PutTime(d, s.last)
  }

  function ValuesFrom(d: Dialect, s: Sample, i: nat): (values: seq<Bytes>)
    requires SampleOk(d, s) && i <= 9
    ensures |values| == 9 - i && forall k | 0 <= k < 9 - i :: values[k] == ValueAt(d, s, i + k)
    decreases 9 - i
  {
    if i == 9 then [] else [ValueAt(d, s, i)] + ValuesFrom(d, s, i + 1)
  }

  function Values(d: Dialect, s: Sample): seq<Bytes>
    requires SampleOk(d, s)
  {
    ValuesFrom(d, s, 0)
  }

  // Fixed-length fields have no length prefix.
  function NoHeads(n: nat): (heads: seq<Bytes>)
    ensures |heads| == n && forall k | 0 <= k < n :: heads[k] == []
  {
    if n == 0 then [] else [[]] + NoHeads(n - 1)
  }

  function RecordOf(d: Dialect, s: Sample): (rec: Record)
    requires SampleOk(d, s)
    ensures RecordOk(d, FieldsOf(d), rec)
  {
    Record(NoHeads(9), Values(d, s))
  }

  // ---- big-endian numbers ----

  lemma BeUint2(b: Bytes)
    requires |b| == 2
    ensures BeUint(b) == U16(b, 0)
  {
    assert b[..1][..0] == [];
    assert BeUint(b[..1]) == b[0];
  }

  lemma {:induction false} BeUintAppend(a: Bytes, b: Bytes)
    requires |a| + |b| <= 8
    ensures BeUint(a + b) == BeUint(a) * Power256(|b|) + BeUint(b)
    decreases |b|
  {
    if b == [] {
      assert a + b == a;
    } else {
      var n := |b| - 1;
      assert (a + b)[..|a + b| - 1] == a + b[..n];
      BeUintAppend(a, b[..n]);
      assert Power256(|b|) == 256 * Power256(n);
      calc {
        BeUint(a + b);
        BeUint(a + b[..n]) * 256 + b[n];
        (BeUint(a) * Power256(n) + BeUint(b[..n])) * 256 + b[n];
        BeUint(a) * Power256(n) * 256 + (BeUint(b[..n]) * 256 + b[n]);
        { Regroup(BeUint(a), Power256(n)); }
        BeUint(a) * Power256(|b|) + BeUint(b);
      }
    }
  }

  function Power256(n: nat): nat { if n == 0 then 1 else 256 * Power256(n - 1) }

  lemma Regroup(x: nat, p: nat)
    ensures x * p * 256 == x * (256 * p)
  {
  }

  lemma Put32BeUint(x: nat)
    requires x < 0x1_0000_0000
    ensures BeUint(Put32(x)) == x
  {
    BeUint2(Put16(x / 0x1_0000));
    BeUint2(Put16(x % 0x1_0000));
    BeUintAppend(Put16(x / 0x1_0000), Put16(x % 0x1_0000));
    assert Power256(2) == 256 * 256;
  }

  lemma Put64BeUint(x: nat)
    requires x < 0x1_0000_0000_0000_0000
    ensures BeUint(Put64(x)) == x
  {
    var hi, lo := Put32(x / 0x1_0000_0000), Put32(x % 0x1_0000_0000);
    Put32BeUint(x / 0x1_0000_0000);
    Put32BeUint(x % 0x1_0000_0000);
    BeUintAppend(hi, lo);
    assert Power256(4) == 0x1_0000_0000 by { assert Power256(2) == 0x1_0000; }
  }

  // ---- the flow a generated record decodes to ----

  function TimeOf(d: Dialect, x: nat, base: int): Time {
    if d.V9? then Ms(Int64(base + x)) else Ms(Int64(x))
  }

  function Expected(d: Dialect, s: Sample, ctx: Context): Flow {
    Flow(Addresses(s.src, s.dst, [], []),
         Info(s.sport, s.dport, 0, 0, s.proto, 0, 0, 0, s.octets, s.pkts,
              TimeOf(d, s.first, ctx.base), TimeOf(d, s.last, ctx.base), [], ctx.exporterIP))
  }

  // One field of the record; `next` is the flow with its value.
  lemma FoldFrom(d: Dialect, flow: Flow, fields: seq<Field>, values: seq<Bytes>, i: nat, base: int, next: Flow)
    requires i < |fields| == |values| && next == ApplyOne(d, flow, fields[i], values[i], base)
    ensures Fold(d, flow, fields[i..], values[i..], base) == Fold(d, next, fields[i + 1..], values[i + 1..], base)
  {
    assert fields[i..][1..] == fields[i + 1..] && values[i..][1..] == values[i + 1..];
  }

  // The flow once the first `i` fields are in.
  function Partial(d: Dialect, s: Sample, ctx: Context, i: nat): Flow {
    var src := if i > 0 then s.src else [];
    var dst := if i > 1 then s.dst else [];
    Flow(Addresses(src, dst, [], []),
         Info(if i > 2 then s.sport else 0, if i > 3 then s.dport else 0, 0, 0, if i > 4 then s.proto else 0, 0, 0, 0,
              if i > 5 then s.octets else 0, if i > 6 then s.pkts else 0,
              if i > 7 then TimeOf(d, s.first, ctx.base) else Unset,
              if i > 8 then TimeOf(d, s.last, ctx.base) else Unset,
              [], ctx.exporterIP))
  }

  // The number the i-th field carries, from the ports on.
  function Number(s: Sample, i: nat): nat {
    if i == 2 then s.sport else if i == 3 then s.dport else if i == 4 then s.proto else if i == 5 then s.octets
    else if i == 6 then s.pkts else if i == 7 then s.first else s.last
  }

  lemma NumberAt(d: Dialect, s: Sample, i: nat, v: Bytes)
    requires SampleOk(d, s) && 2 <= i < 9 && v == ValueAt(d, s, i)
    ensures BeUint(v) == Number(s, i)
  {
    var x := Number(s, i);
    if i < 4 {
      BeUint2(v);
    } else if i == 4 {
      assert v[..0] == [];
      assert BeUint(v) == v[0];
    } else if i < 7 || d.V9? {
      Put32BeUint(x);
    } else {
      Put64BeUint(x);
    }
  }

  lemma AddressStep(d: Dialect, s: Sample, ctx: Context, i: nat)
    requires SampleOk(d, s) && i < 2
    ensures Partial(d, s, ctx, i + 1) == ApplyOne(d, Partial(d, s, ctx, i), FieldsOf(d)[i], Values(d, s)[i], ctx.base)
  {
  }

  lemma CountStep(d: Dialect, s: Sample, ctx: Context, i: nat, f: Field, v: Bytes)
    requires SampleOk(d, s) && 2 <= i < 7 && f.ie == Element(d, i) && !f.enterprise && BeUint(v) == Number(s, i)
    ensures Partial(d, s, ctx, i + 1) == ApplyOne(d, Partial(d, s, ctx, i), f, v, ctx.base)
  {
  }

  lemma TimeStep(d: Dialect, s: Sample, ctx: Context, i: nat, f: Field, v: Bytes)
    requires SampleOk(d, s) && 7 <= i < 9 && f.ie == Element(d, i) && !f.enterprise && BeUint(v) == Number(s, i)
    ensures Partial(d, s, ctx, i + 1) == ApplyOne(d, Partial(d, s, ctx, i), f, v, ctx.base)
  {
  }

  lemma FieldStep(d: Dialect, s: Sample, ctx: Context, i: nat, f: Field, v: Bytes)
    requires SampleOk(d, s) && i < 9 && f == FieldsOf(d)[i] && v == Values(d, s)[i]
    ensures Partial(d, s, ctx, i + 1) == ApplyOne(d, Partial(d, s, ctx, i), f, v, ctx.base)
  {
    if i < 2 { AddressStep(d, s, ctx, i); }
    else {
      NumberAt(d, s, i, v);
      if i < 7 { CountStep(d, s, ctx, i, f, v); } else { TimeStep(d, s, ctx, i, f, v); }
    }
  }

  lemma {:induction false} AllFields(d: Dialect, s: Sample, ctx: Context, fields: seq<Field>,
                                     values: seq<Bytes>, i: nat)
    requires SampleOk(d, s) && fields == FieldsOf(d) && values == Values(d, s) && i <= 9
    ensures Fold(d, Partial(d, s, ctx, i), fields[i..], values[i..], ctx.base) == Partial(d, s, ctx, 9)
    decreases 9 - i
  {
    if i < 9 {
      FieldStep(d, s, ctx, i, fields[i], values[i]);
      FoldFrom(d, Partial(d, s, ctx, i), fields, values, i, ctx.base, Partial(d, s, ctx, i + 1));
      AllFields(d, s, ctx, fields, values, i + 1);
    }
  }

  // Every field of a generated record arrives in the flow.
  lemma SampleDecoded(d: Dialect, s: Sample, ctx: Context)
    requires SampleOk(d, s)
    ensures RecordFlow(d, FieldsOf(d), Values(d, s), ctx) == Expected(d, s, ctx)
  {
    var fields, values := FieldsOf(d), Values(d, s);
    AllFields(d, s, ctx, fields, values, 0);
    WholeFold(d, Partial(d, s, ctx, 0), fields, values, ctx.base);
  }

  lemma WholeFold(d: Dialect, flow: Flow, fields: seq<Field>, values: seq<Bytes>, base: int)
    requires |fields| == |values|
    ensures Fold(d, flow, fields[0..], values[0..], base) == Fold(d, flow, fields, values, base)
  {
    assert fields[0..] == fields && values[0..] == values;
  }

  // ---- packets ----

  function Header(d: Dialect, count: nat, length: nat, now: nat, sysUptime: nat): (h: Bytes)
    requires count < 0x1_0000 && length < 0x1_0000 && now < 0x1_0000_0000 && sysUptime < 0x1_0000_0000
    ensures |h| == HeaderLen(d)
  {
    if d.V9? then Put16(9) + Put16(count) + Put32(sysUptime) + Put32(now) + Put32(0) + Put32(1)
    else Put16(10) + Put16(length) + Put32(now) + Put32(0) + Put32(1)
  }

  lemma V9HeaderRead(count: nat, now: nat, sysUptime: nat, h: Bytes)
    requires count < 0x1_0000 && now < 0x1_0000_0000 && sysUptime < 0x1_0000_0000
    requires h == Put16(9) + Put16(count) + Put32(sysUptime) + Put32(now) + Put32(0) + Put32(1)
    ensures |h| == 20 && U16(h, 0) == 9 && U32(h, 4) == sysUptime && U32(h, 8) == now && U32(h, 16) == 1
  {
    var a, b, c := Put16(9) + Put16(count), Put32(sysUptime), Put32(now);
    U16At([], 9, Put16(count) + b + c + Put32(0) + Put32(1), h);
    U32At(a, sysUptime, c + Put32(0) + Put32(1), h);
    U32At(a + b, now, Put32(0) + Put32(1), h);
    U32At(a + b + c + Put32(0), 1, [], h);
  }

  lemma IpfixHeaderRead(length: nat, now: nat, h: Bytes)
    requires length < 0x1_0000 && now < 0x1_0000_0000
    requires h == Put16(10) + Put16(length) + Put32(now) + Put32(0) + Put32(1)
    ensures |h| == 16 && U16(h, 0) == 10 && U16(h, 2) == length && U32(h, 4) == now && U32(h, 12) == 1
  {
    var a, b := Put16(10) + Put16(length), Put32(now);
    U16At([], 10, Put16(length) + b + Put32(0) + Put32(1), h);
    U16At(Put16(10), length, b + Put32(0) + Put32(1), h);
    U32At(a, now, Put32(0) + Put32(1), h);
    U32At(a + b + Put32(0), 1, [], h);
  }

  lemma HeaderRead(d: Dialect, count: nat, length: nat, now: nat, sysUptime: nat, h: Bytes)
    requires count < 0x1_0000 && length < 0x1_0000 && now < 0x1_0000_0000 && sysUptime < 0x1_0000_0000
    requires h == Header(d, count, length, now, sysUptime)
    ensures HeaderOk(d, h, length) && DomainOf(d, h) == 1
    ensures BaseOf(d, h) == if d.V9? then now * 1000 - sysUptime else now * 1000
  {
    if d.V9? { V9HeaderRead(count, now, sysUptime, h); } else { IpfixHeaderRead(length, now, h); }
  }

  predicate SamplesOk(d: Dialect, samples: seq<Sample>) {
    forall i | 0 <= i < |samples| :: SampleOk(d, samples[i])
  }

  function RecordsOf(d: Dialect, samples: seq<Sample>): (recs: seq<Record>)
    requires SamplesOk(d, samples)
    ensures |recs| == |samples| && RecordsOk(d, FieldsOf(d), recs)
  {
    seq(|samples|, i requires 0 <= i < |samples| => RecordOf(d, samples[i]))
  }

  // What a receiver should see.
  function ExpectedFlows(d: Dialect, samples: seq<Sample>, ctx: Context): seq<Flow> {
    seq(|samples|, i requires 0 <= i < |samples| => Expected(d, samples[i], ctx))
  }

  lemma SampleAt(d: Dialect, samples: seq<Sample>, recs: seq<Record>, fields: seq<Field>, ctx: Context, i: nat)
    requires SamplesOk(d, samples) && recs == RecordsOf(d, samples) && fields == FieldsOf(d) && i < |samples|
    ensures FlowsOf(d, fields, recs, ctx)[i] == Expected(d, samples[i], ctx)
  {
    FlowsAt(d, fields, recs, ctx, i);
    SampleDecoded(d, samples[i], ctx);
    Elements.RecordRead(d, fields, Values(d, samples[i]), ctx);
  }

  lemma SamplesDecoded(d: Dialect, samples: seq<Sample>, recs: seq<Record>, fields: seq<Field>, ctx: Context)
    requires SamplesOk(d, samples) && recs == RecordsOf(d, samples) && fields == FieldsOf(d)
    ensures FlowsOf(d, fields, recs, ctx) == ExpectedFlows(d, samples, ctx)
  {
    var flows, expected := FlowsOf(d, fields, recs, ctx), ExpectedFlows(d, samples, ctx);
    forall i | 0 <= i < |samples| ensures flows[i] == expected[i] {
      SampleAt(d, samples, recs, fields, ctx, i);
    }
  }

  // ---- the two packets ----

  function RecordLen(d: Dialect): nat {
    if d.V9? then V9_RECORD_LEN else IPFIX_RECORD_LEN
  }

  // Where the i-th field of a record starts.
  function Offset(d: Dialect, i: nat): nat {
    if i == 0 then 0 else Offset(d, i - 1) + Width(d, i - 1)
  }

  lemma Offsets(d: Dialect)
    ensures Offset(d, 1) == 4 && Offset(d, 2) == 8 && Offset(d, 3) == 10 && Offset(d, 4) == 12 && Offset(d, 5) == 13
    ensures Offset(d, 6) == 17 && Offset(d, 7) == 21 && Offset(d, 8) == (if d.V9? then 25 else 29)
      && Offset(d, 9) == RecordLen(d)
  {
    assert Offset(d, 3) == 10;
    assert Offset(d, 6) == 17;
  }

  lemma {:induction false} LengthFrom(d: Dialect, i: nat, fields: seq<Field>)
    requires i <= 9 && fields == FieldsFrom(d, i)
    ensures Offset(d, i) + FixedLen(d, fields) == Offset(d, 9) && !HasVar(d, fields)
    decreases 9 - i
  {
    if i < 9 {
      LengthFrom(d, i + 1, FieldsFrom(d, i + 1));
      assert fields[1..] == FieldsFrom(d, i + 1);
    }
  }

  // No field of the generator is an enterprise's own.
  function Zeros(n: nat): seq<nat> { seq(n, _ => 0) }

  function TemplateSpec(d: Dialect): (t: Spec)
    ensures SpecOk(d, t)
  {
    Spec(TEMPLATE_ID, FieldsOf(d), Zeros(|FieldsOf(d)|))
  }

  // The announced record length is the sum of the field widths.
  lemma TemplateSized(d: Dialect, fields: seq<Field>)
    requires fields == FieldsOf(d)
    ensures FixedLen(d, fields) == RecordLen(d) && !HasVar(d, fields) && Sized(d, fields)
  {
    LengthFrom(d, 0, fields);
    Offsets(d);
  }

}
