/** The packet builders themselves: byte slices allocated once and filled in place.  */
module BenchgenBuild {
  import opened Prelude
  import opened Wire
  import opened Decode
  import opened Records
  import opened RoundTrip
  import opened Benchgen
  import opened BenchgenPackets
  import opened Buffers
  import opened Parsing

  // ---- one record ----

  // The first `i` values of a record, as bytes.
  ghost function Joined(d: Dialect, s: Sample, i: nat): (b: Bytes)
    requires SampleOk(d, s) && i <= 9
    ensures |b| == Offset(d, i)
  {
    if i == 0 then [] else Joined(d, s, i - 1) + ValueAt(d, s, i - 1)
  }

  function RecordBytes(d: Dialect, s: Sample): Bytes
    requires SampleOk(d, s)
  {
    EncodeRecord(d, FieldsOf(d), RecordOf(d, s))
  }

  lemma LayFirst(heads: seq<Bytes>, values: seq<Bytes>, hs: seq<Bytes>, v: Bytes, vs: seq<Bytes>)
    requires |hs| == |vs| && heads == [[]] + hs && values == [v] + vs
    ensures Lay(heads, values) == v + Lay(hs, vs)
  {
    assert heads[1..] == hs && values[1..] == vs && heads[0] == [];
    assert [] + v == v;
  }

  lemma {:induction false} JoinedLaid(d: Dialect, s: Sample, i: nat, heads: seq<Bytes>, values: seq<Bytes>)
    requires SampleOk(d, s) && i <= 9 && heads == NoHeads(9 - i) && values == ValuesFrom(d, s, i)
    ensures Joined(d, s, i) + Lay(heads, values) == Joined(d, s, 9)
    decreases 9 - i
  {
    if i < 9 {
      var hs, v, vs := NoHeads(8 - i), ValueAt(d, s, i), ValuesFrom(d, s, i + 1);
      JoinedLaid(d, s, i + 1, hs, vs);
      LayFirst(heads, values, hs, v, vs);
      Associate(Joined(d, s, i), v, Lay(hs, vs));
    }
  }

  lemma RecordJoined(d: Dialect, s: Sample)
    requires SampleOk(d, s)
    ensures RecordBytes(d, s) == Joined(d, s, 9)
  {
    JoinedLaid(d, s, 0, NoHeads(9), ValuesFrom(d, s, 0));
  }

  // Writes the i-th field of `s` behind the ones before it.
  method PutField(d: Dialect, buf: array<Byte>, off: nat, at: nat, v: Bytes, ghost s: Sample, ghost i: nat,
                  ghost base: Bytes)
    requires SampleOk(d, s) && i < 9 && v == ValueAt(d, s, i) && at == off + Offset(d, i)
    requires at + |v| <= buf.Length == |base| && buf[..] == Splice(base, off, Joined(d, s, i))
    modifies buf
    ensures Offset(d, i + 1) == Offset(d, i) + |v| && buf[..] == Splice(base, off, Joined(d, s, i + 1))
  {
    PutNext(buf, off, at, v, base, Joined(d, s, i));
  }

  // Fields behind the first four.
  method FillRest(d: Dialect, buf: array<Byte>, off: nat, s: Sample, ghost i: nat, ghost base: Bytes)
    requires SampleOk(d, s) && i == 4 && off + RecordLen(d) <= buf.Length == |base|
    requires Offset(d, i) == 12 && buf[..] == Splice(base, off, Joined(d, s, i))
    modifies buf
    ensures Offset(d, i + 5) == RecordLen(d) && buf[..] == Splice(base, off, Joined(d, s, i + 5))
  {
    PutField(d, buf, off, off + 12, [s.proto], s, i, base);
    PutField(d, buf, off, off + 13, Put32(s.octets), s, i + 1, base);
    PutField(d, buf, off, off + 17, Put32(s.pkts), s, i + 2, base);
    PutField(d, buf, off, off + 21, PutTime(d, s.first), s, i + 3, base);
    PutField(d, buf, off, if d.V9? then off + 25 else off + 29, PutTime(d, s.last), s, i + 4, base);
  }

  method FillRecord(d: Dialect, buf: array<Byte>, off: nat, s: Sample)
    requires SampleOk(d, s) && off + RecordLen(d) <= buf.Length
    modifies buf
    ensures |RecordBytes(d, s)| == RecordLen(d) && buf[..] == Splice(old(buf[..]), off, RecordBytes(d, s))
  {
    ghost var base, i := buf[..], 0;
    assert buf[..] == Splice(base, off, Joined(d, s, i));
    PutField(d, buf, off, off, s.src, s, i, base);
    PutField(d, buf, off, off + 4, s.dst, s, i + 1, base);
    PutField(d, buf, off, off + 8, Put16(s.sport), s, i + 2, base);
    PutField(d, buf, off, off + 10, Put16(s.dport), s, i + 3, base);
    FillRest(d, buf, off, s, i + 4, base);
    RecordJoined(d, s);
  }

  // ---- packets ----

  lemma {:induction false} SpecsAppend(d: Dialect, fields: seq<Field>, f: Field)
    requires FieldsOk(d, fields) && FieldOk(d, f)
    ensures EncodeSpecs(d, fields + [f], Zeros(|fields| + 1))
            == EncodeSpecs(d, fields, Zeros(|fields|)) + EncodeSpec(d, f, 0)
    decreases |fields|
  {
    if fields == [] {
      assert [f][1..] == [] && Zeros(1)[1..] == [] == Zeros(0);
    } else {
      SpecsAppend(d, fields[1..], f);
      assert (fields + [f])[1..] == fields[1..] + [f] && Zeros(|fields| + 1)[1..] == Zeros(|fields|)
        && Zeros(|fields|)[1..] == Zeros(|fields| - 1);
      Associate(EncodeSpec(d, fields[0], 0), EncodeSpecs(d, fields[1..], Zeros(|fields| - 1)), EncodeSpec(d, f, 0));
    }
  }

  lemma {:induction false} RecordsAppend(d: Dialect, fields: seq<Field>, recs: seq<Record>, rec: Record)
    requires RecordsOk(d, fields, recs) && RecordOk(d, fields, rec)
    ensures EncodeRecords(d, fields, recs + [rec]) == EncodeRecords(d, fields, recs) + EncodeRecord(d, fields, rec)
    decreases |recs|
  {
    if recs == [] {
      assert [rec][1..] == [];
    } else {
      RecordsAppend(d, fields, recs[1..], rec);
      assert (recs + [rec])[1..] == recs[1..] + [rec];
      Associate(EncodeRecord(d, fields, recs[0]), EncodeRecords(d, fields, recs[1..]), EncodeRecord(d, fields, rec));
    }
  }

  lemma RecordsOfNext(d: Dialect, samples: seq<Sample>, j: nat, before: seq<Record>, after: seq<Record>, rec: Record)
    requires SamplesOk(d, samples) && j < |samples| && before == RecordsOf(d, samples[..j])
      && after == RecordsOf(d, samples[..j + 1])
    requires rec == RecordOf(d, samples[j])
    ensures after == before + [rec]
  {
    assert samples[..j + 1][j] == samples[j];
    forall i | 0 <= i < j ensures after[i] == before[i] {
      assert samples[..j][i] == samples[i] == samples[..j + 1][i];
    }
  }

  lemma RecordsPrefix(d: Dialect, samples: seq<Sample>, j: nat, fields: seq<Field>)
    requires SamplesOk(d, samples) && j < |samples| && fields == FieldsOf(d)
    ensures EncodeRecords(d, fields, RecordsOf(d, samples[..j + 1]))
         == EncodeRecords(d, fields, RecordsOf(d, samples[..j])) + EncodeRecord(d, fields, RecordOf(d, samples[j]))
  {
    var before, after, rec := RecordsOf(d, samples[..j]), RecordsOf(d, samples[..j + 1]), RecordOf(d, samples[j]);
    RecordsOfNext(d, samples, j, before, after, rec);
    RecordsAppend(d, fields, before, rec);
  }

  lemma DataAppend(d: Dialect, samples: seq<Sample>, j: nat)
    requires SamplesOk(d, samples) && j < |samples|
    ensures DataBody(d, samples[..j + 1]) == DataBody(d, samples[..j]) + RecordBytes(d, samples[j])
  {
    RecordsPrefix(d, samples, j, FieldsOf(d));
  }

  // A set in a slice of its own: identifier, length, body.
  method BuildSet(id: nat, body: Bytes) returns (bytes: Bytes)
    requires id < 0x1_0000 && 4 + |body| < 0x1_0000
    ensures bytes == SetBytes(id, body)
  {
    var fs := new Byte[4 + |body|](_ => 0);
    PutBytes(fs, 0, Put16(id));
    PutBytes(fs, 2, Put16(4 + |body|));
    PutBytes(fs, 4, body);
    bytes := fs[..];
  }

  method BuildPacket(d: Dialect, id: nat, body: Bytes, count: nat, k: Clock) returns (pkt: Bytes)
    requires id < 0x1_0000 && |body| < 0xFFE8 && count < 0x1_0000 && ClockOk(k)
    ensures pkt == Packet(d, id, body, count, k)
  {
    var bytes := BuildSet(id, body);
    pkt := Header(d, count, HeaderLen(d) + |bytes|, k.now, k.sysUptime) + bytes;
  }

  method PutSpec(d: Dialect, f: Field, body: array<Byte>, at: nat, ghost done: Bytes, ghost base: Bytes)
    requires FieldOk(d, f) && !f.enterprise && |done| == at && at + 4 <= body.Length == |base|
      && body[..] == Splice(base, 0, done)
    modifies body
    ensures |EncodeSpec(d, f, 0)| == 4 && body[..] == Splice(base, 0, done + EncodeSpec(d, f, 0))
  {
    PutNext(body, 0, at, Put16(f.ie), base, done);
    PutNext(body, 0, at + 2, Put16(f.length), base, done + Put16(f.ie));
    Associate(done, Put16(f.ie), Put16(f.length));
  }

  // The field specifiers, behind the four bytes of the template's own header.
  method FillSpecs(d: Dialect, fields: seq<Field>, body: array<Byte>, ghost head: Bytes, ghost base: Bytes)
    requires FieldsOk(d, fields) && (forall i | 0 <= i < |fields| :: !fields[i].enterprise)
    requires body.Length == 4 + |fields| * 4 == |base| && |head| == 4 && body[..] == Splice(base, 0, head)
    modifies body
    ensures body[..] == head + EncodeSpecs(d, fields, Zeros(|fields|))
  {
    ghost var specs: Bytes := [];
    for i := 0 to |fields|
      invariant specs == EncodeSpecs(d, fields[..i], Zeros(i)) && |specs| == 4 * i
      invariant body[..] == Splice(base, 0, head + specs)
    {
      PutSpec(d, fields[i], body, 4 + i * 4, head + specs, base);
      Associate(head, specs, EncodeSpec(d, fields[i], 0));
      SpecsAppend(d, fields[..i], fields[i]);
      assert fields[..i] + [fields[i]] == fields[..i + 1];
      specs := specs + EncodeSpec(d, fields[i], 0);
    }
    assert fields[..|fields|] == fields;
  }

  method BuildTemplateBody(d: Dialect, fields: seq<Field>, id: nat) returns (bytes: Bytes)
    requires id < 0x1_0000 && |fields| < 0x1_0000 && FieldsOk(d, fields)
      && (forall i | 0 <= i < |fields| :: !fields[i].enterprise)
    ensures bytes == Put16(id) + Put16(|fields|) + EncodeSpecs(d, fields, Zeros(|fields|))
  {
    var body := new Byte[4 + |fields| * 4](_ => 0);
    ghost var base := body[..];
    PutBytes(body, 0, Put16(id));
    PutNext(body, 0, 2, Put16(|fields|), base, Put16(id));
    FillSpecs(d, fields, body, Put16(id) + Put16(|fields|), base);
    bytes := body[..];
  }

  method BuildTemplate(d: Dialect, k: Clock) returns (pkt: Bytes)
    requires ClockOk(k)
    ensures pkt == TemplatePacket(d, k)
  {
    var fields := FieldsOf(d);
    var body := BuildTemplateBody(d, fields, TEMPLATE_ID);
    assert body == TemplateBody(d);
    pkt := BuildPacket(d, TemplateSet(d), body, 1, k);
  }

  lemma RoomFor(j: nat, n: nat, x: nat)
    requires j < n
    ensures j * x + x == (j + 1) * x <= n * x
  {
    assert n * x == (j + 1) * x + (n - j - 1) * x;
  }

  lemma DataStep(d: Dialect, samples: seq<Sample>, j: nat, done: Bytes, width: nat)
    requires SamplesOk(d, samples) && j < |samples| && done == DataBody(d, samples[..j]) && width == RecordLen(d)
    ensures |done| == j * width && done + RecordBytes(d, samples[j]) == DataBody(d, samples[..j + 1])
    ensures |done| + width <= |samples| * width
  {
    DataAppend(d, samples, j);
    RoomFor(j, |samples|, width);
  }

  lemma NoData(d: Dialect, samples: seq<Sample>)
    requires SamplesOk(d, samples)
    ensures DataBody(d, samples[..0]) == []
  {
  }

  lemma AllData(d: Dialect, samples: seq<Sample>, j: nat, done: Bytes, base: Bytes)
    requires SamplesOk(d, samples) && j == |samples| && done == DataBody(d, samples[..j])
      && |base| == |samples| * RecordLen(d)
    ensures |done| <= |base| && Splice(base, 0, done) == DataBody(d, samples)
  {
    assert samples[..j] == samples;
  }

  // `rows(j)` is the body of the first j samples; `At` marks where that is looked up.
  ghost predicate RowsOf(d: Dialect, samples: seq<Sample>, rows: nat -> Bytes)
    requires SamplesOk(d, samples)
  {
    forall j: nat {:trigger At<nat>(j)} :: At<nat>(j) && j <= |samples| ==> rows(j) == DataBody(d, samples[..j])
  }

  lemma RowsExist(d: Dialect, samples: seq<Sample>) returns (rows: nat -> Bytes)
    requires SamplesOk(d, samples)
    ensures RowsOf(d, samples, rows) && rows(0) == []
  {
    rows := (j: nat) => if j <= |samples| then DataBody(d, samples[..j]) else [];
    NoData(d, samples);
  }

  lemma AllRows(d: Dialect, samples: seq<Sample>, rows: nat -> Bytes, base: Bytes)
    requires SamplesOk(d, samples) && RowsOf(d, samples, rows) && |base| == |samples| * RecordLen(d)
    ensures |rows(|samples|)| <= |base| && Splice(base, 0, rows(|samples|)) == DataBody(d, samples)
  {
    assert At<nat>(|samples|);
    AllData(d, samples, |samples|, rows(|samples|), base);
  }

  method FillNext(d: Dialect, samples: seq<Sample>, j: nat, body: array<Byte>, ghost base: Bytes,
                  ghost rows: nat -> Bytes)
    requires SamplesOk(d, samples) && RowsOf(d, samples, rows) && j < |samples|
      && body.Length == |base| == |samples| * RecordLen(d)
    requires |rows(j)| <= |base| && body[..] == Splice(base, 0, rows(j))
    modifies body
    ensures |rows(j + 1)| <= |base| && body[..] == Splice(base, 0, rows(j + 1))
  {
    assert At<nat>(j) && At<nat>(j + 1);
    DataStep(d, samples, j, rows(j), RecordLen(d));
    FillRecord(d, body, j * RecordLen(d), samples[j]);
    SpliceNext(base, 0, rows(j), RecordBytes(d, samples[j]));
  }

  method BuildDataBody(d: Dialect, samples: seq<Sample>) returns (bytes: Bytes)
    requires SamplesOk(d, samples)
    ensures bytes == DataBody(d, samples)
  {
    var j := 0;
    var body := new Byte[|samples| * RecordLen(d)](_ => 0);
    ghost var base := body[..];
    ghost var rows := RowsExist(d, samples);
    while j < |samples|
      invariant j <= |samples| && |rows(j)| <= |base| == body.Length && body[..] == Splice(base, 0, rows(j))
    {
      FillNext(d, samples, j, body, base, rows);
      j := j + 1;
    }
    AllRows(d, samples, rows, base);
    bytes := body[..];
  }

  method BuildData(d: Dialect, samples: seq<Sample>, k: Clock) returns (pkt: Bytes)
    requires SamplesOk(d, samples) && |samples| <= MAX_FLOWS && ClockOk(k)
    ensures pkt == DataPacket(d, samples, k)
  {
    var body := BuildDataBody(d, samples);
    DataFits(d, samples);
    pkt := BuildPacket(d, TEMPLATE_ID, body, |samples|, k);
  }
}
