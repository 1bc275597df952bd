/** Decode undoes encode: a datagram of any sets yields exactly the records written in it, in order, up to the
    per-datagram cap.  */
module RoundTrip {
  import opened Prelude
  import opened Wire
  import opened Decode
  import opened Records
  import opened Elements

  // ---- templates ----

  predicate FieldOk(d: Dialect, f: Field) {
    f.length < 0x1_0000 && if d.V9? then f.ie < 0x1_0000 && !f.enterprise else f.ie < 0x8000
  }

  predicate FieldsOk(d: Dialect, fields: seq<Field>) {
    forall i | 0 <= i < |fields| :: FieldOk(d, fields[i])
  }

  // An enterprise field carries its 4-byte enterprise number behind the specifier.
  function EncodeSpec(d: Dialect, f: Field, number: nat): Bytes
    requires FieldOk(d, f) && number < 0x1_0000_0000
  {
    if f.enterprise then Put16(f.ie + 0x8000) + Put16(f.length) + Put32(number)
    else Put16(f.ie) + Put16(f.length)
  }

  // Each field has its own enterprise number, which counts for enterprise fields only.
  predicate NumbersOk(fields: seq<Field>, numbers: seq<nat>) {
    |numbers| == |fields| && forall i | 0 <= i < |numbers| :: numbers[i] < 0x1_0000_0000
  }

  function EncodeSpecs(d: Dialect, fields: seq<Field>, numbers: seq<nat>): Bytes
    requires FieldsOk(d, fields) && NumbersOk(fields, numbers)
    decreases |fields|
  {
    if fields == [] then [] else EncodeSpec(d, fields[0], numbers[0]) + EncodeSpecs(d, fields[1..], numbers[1..])
  }

  lemma SpecParsed(d: Dialect, f: Field, number: nat, rest: Bytes)
    requires FieldOk(d, f) && number < 0x1_0000_0000
    ensures ParseSpec(d, EncodeSpec(d, f, number) + rest) == Some((f, |EncodeSpec(d, f, number)|))
    ensures (EncodeSpec(d, f, number) + rest)[|EncodeSpec(d, f, number)|..] == rest
  {
    var b, ie := EncodeSpec(d, f, number) + rest, if f.enterprise then f.ie + 0x8000 else f.ie;
    assert b[0] == Put16(ie)[0] && b[1] == Put16(ie)[1];
    assert b[2] == Put16(f.length)[0] && b[3] == Put16(f.length)[1];
    assert U16(b, 0) == U16(Put16(ie), 0) && U16(b, 2) == U16(Put16(f.length), 0);
  }

  lemma {:induction false} SpecsParsed(d: Dialect, fields: seq<Field>, numbers: seq<nat>, specs: Bytes, rest: Bytes)
    requires FieldsOk(d, fields) && NumbersOk(fields, numbers) && specs == EncodeSpecs(d, fields, numbers)
    ensures ParseSpecs(d, specs + rest, |fields|) == Some((fields, |specs|))
    ensures |specs| >= 4 * |fields|
    decreases |fields|
  {
    if fields != [] {
      var first, others := EncodeSpec(d, fields[0], numbers[0]), EncodeSpecs(d, fields[1..], numbers[1..]);
      SpecParsed(d, fields[0], numbers[0], others + rest);
      SpecsParsed(d, fields[1..], numbers[1..], others, rest);
      Associate(first, others, rest);
      SpecsCons(d, fields, first, others, rest, specs + rest);
    }
  }

  lemma SpecsCons(d: Dialect, fields: seq<Field>, first: Bytes, others: Bytes, rest: Bytes, b: Bytes)
    requires fields != [] && |first| <= |b| && b[|first|..] == others + rest
      && ParseSpec(d, b) == Some((fields[0], |first|))
    requires ParseSpecs(d, others + rest, |fields| - 1) == Some((fields[1..], |others|))
    ensures ParseSpecs(d, b, |fields|) == Some((fields, |first| + |others|))
  {
    assert [fields[0]] + fields[1..] == fields;
  }

  // A template record; without fields it withdraws the template (section 8.1 of RFC 7011).
  datatype Spec = Spec(id: nat, fields: seq<Field>, numbers: seq<nat>)

  predicate SpecOk(d: Dialect, t: Spec) {
    && t.id < 0x1_0000 && |t.fields| < 0x1_0000 && FieldsOk(d, t.fields) && NumbersOk(t.fields, t.numbers)
    && (d.Ipfix? ==> t.id != 0) && (d.V9? ==> t.fields != [])
  }

  predicate SpecsOk(d: Dialect, ts: seq<Spec>) {
    forall i | 0 <= i < |ts| :: SpecOk(d, ts[i])
  }

  function EncodeTemplate(d: Dialect, t: Spec): Bytes
    requires SpecOk(d, t)
  {
    Put16(t.id) + Put16(|t.fields|) + EncodeSpecs(d, t.fields, t.numbers)
  }

  function EncodeTemplates(d: Dialect, ts: seq<Spec>): Bytes
    requires SpecsOk(d, ts)
    decreases |ts|
  {
    if ts == [] then [] else EncodeTemplate(d, ts[0]) + EncodeTemplates(d, ts[1..])
  }

  function ItemOf(d: Dialect, t: Spec): Item {
    if t.fields == [] then Withdraw(t.id) else Define(t.id, MakeTemplate(d, t.fields))
  }

  function ItemsOf(d: Dialect, ts: seq<Spec>): seq<Item> {
    if ts == [] then [] else [ItemOf(d, ts[0])] + ItemsOf(d, ts[1..])
  }

  lemma TemplateParsed(d: Dialect, t: Spec, rest: Bytes)
    requires SpecOk(d, t)
    ensures ParseTemplates(d, EncodeTemplate(d, t) + rest) == [ItemOf(d, t)] + ParseTemplates(d, rest)
  {
    var specs := EncodeSpecs(d, t.fields, t.numbers);
    var b := EncodeTemplate(d, t) + rest;
    assert b[0] == Put16(t.id)[0] && b[1] == Put16(t.id)[1];
    assert b[2] == Put16(|t.fields|)[0] && b[3] == Put16(|t.fields|)[1];
    assert U16(b, 0) == U16(Put16(t.id), 0) && U16(b, 2) == U16(Put16(|t.fields|), 0);
    assert b[4..] == specs + rest;
    SpecsParsed(d, t.fields, t.numbers, specs, rest);
    assert b[4 + |specs|..] == rest;
  }

  // Padding behind templates is too short for one, or opens with zeros.
  predicate PadOk(pad: Bytes) { |pad| < 4 || pad[..4] == [0, 0, 0, 0] }

  // Template sets are read back as written, definitions and withdrawals alike, whatever padding follows.
  lemma {:induction false} TemplatesParsed(d: Dialect, ts: seq<Spec>, pad: Bytes)
    requires SpecsOk(d, ts) && PadOk(pad)
    ensures ParseTemplates(d, EncodeTemplates(d, ts) + pad) == ItemsOf(d, ts)
    decreases |ts|
  {
    if ts != [] {
      var first, others := EncodeTemplate(d, ts[0]), EncodeTemplates(d, ts[1..]);
      TemplateParsed(d, ts[0], others + pad);
      TemplatesParsed(d, ts[1..], pad);
      Associate(first, others, pad);
    } else {
      assert [] + pad == pad;
      PadSkipped(d, pad);
    }
  }

  lemma PadSkipped(d: Dialect, pad: Bytes)
    requires PadOk(pad)
    ensures ParseTemplates(d, pad) == []
  {
    if |pad| >= 4 {
      assert pad[0] == pad[..4][0] && pad[1] == pad[..4][1] && pad[2] == pad[..4][2] && pad[3] == pad[..4][3];
    }
  }

  // An options template: so many scope fields, then others.  A v9 set gives the lengths of both lists in bytes;
  // an IPFIX set gives the length of both together, and of the scope, in fields.
  datatype Scoped = Scoped(scopes: nat, spec: Spec)

  predicate ScopedOk(d: Dialect, t: Scoped) {
    && SpecOk(d, t.spec) && t.spec.fields != [] && t.scopes <= |t.spec.fields|
    && (d.V9? ==> 4 * |t.spec.fields| < 0x1_0000)
  }

  predicate ScopedsOk(d: Dialect, ts: seq<Scoped>) {
    forall i | 0 <= i < |ts| :: ScopedOk(d, ts[i])
  }

  function EncodeScoped(d: Dialect, t: Scoped): Bytes
    requires ScopedOk(d, t)
  {
    var n, specs := |t.spec.fields|, EncodeSpecs(d, t.spec.fields, t.spec.numbers);
    if d.V9? then Put16(t.spec.id) + Put16(4 * t.scopes) + Put16(4 * (n - t.scopes)) + specs
    else Put16(t.spec.id) + Put16(n) + Put16(t.scopes) + specs
  }

  function EncodeScopeds(d: Dialect, ts: seq<Scoped>): Bytes
    requires ScopedsOk(d, ts)
    decreases |ts|
  {
    if ts == [] then [] else EncodeScoped(d, ts[0]) + EncodeScopeds(d, ts[1..])
  }

  // It says that records of this number are no flows.
  function ScopedItem(d: Dialect, t: Scoped): Item {
    Define(t.spec.id, Template([], if d.V9? then TotalLen(t.spec.fields) else 0, false, true))
  }

  function TotalLen(fields: seq<Field>): nat {
    if fields == [] then 0 else fields[0].length + TotalLen(fields[1..])
  }

  function ScopedItems(d: Dialect, ts: seq<Scoped>): seq<Item> {
    if ts == [] then [] else [ScopedItem(d, ts[0])] + ScopedItems(d, ts[1..])
  }

  lemma {:induction false} TotalRead(fields: seq<Field>, numbers: seq<nat>, specs: Bytes)
    requires FieldsOk(V9, fields) && NumbersOk(fields, numbers) && specs == EncodeSpecs(V9, fields, numbers)
    ensures |specs| == 4 * |fields| && SumLengths(specs) == TotalLen(fields)
    decreases |fields|
  {
    if fields != [] {
      var f, rest := fields[0], EncodeSpecs(V9, fields[1..], numbers[1..]);
      assert FieldOk(V9, f);
      TotalRead(fields[1..], numbers[1..], rest);
      SpecParsed(V9, f, numbers[0], rest);
      assert specs[4..] == rest;
    }
  }

  lemma ScopedHead(a: nat, b: nat, c: nat, specs: Bytes, rest: Bytes)
    requires a < 0x1_0000 && b < 0x1_0000 && c < 0x1_0000
    ensures var x := Put16(a) + Put16(b) + Put16(c) + specs + rest;
      |x| == 6 + |specs| + |rest| && U16(x, 0) == a && U16(x, 2) == b && U16(x, 4) == c && x[6..] == specs + rest
      && x[6..6 + |specs|] == specs && x[6 + |specs|..] == rest
  {
    var x := Put16(a) + Put16(b) + Put16(c) + specs + rest;
    assert x[0] == Put16(a)[0] && x[1] == Put16(a)[1] && x[2] == Put16(b)[0] && x[3] == Put16(b)[1]
      && x[4] == Put16(c)[0] && x[5] == Put16(c)[1];
    assert U16(x, 0) == U16(Put16(a), 0) && U16(x, 2) == U16(Put16(b), 0) && U16(x, 4) == U16(Put16(c), 0);
  }

  // A v9 set holds one options template; what follows it is not read.
  lemma ScopedReadV9(t: Scoped, rest: Bytes)
    requires ScopedOk(V9, t)
    ensures ParseOptions(V9, EncodeScoped(V9, t) + rest) == [ScopedItem(V9, t)]
  {
    var specs, n := EncodeSpecs(V9, t.spec.fields, t.spec.numbers), |t.spec.fields|;
    TotalRead(t.spec.fields, t.spec.numbers, specs);
    ScopedHead(t.spec.id, 4 * t.scopes, 4 * (n - t.scopes), specs, rest);
  }

  // An IPFIX set holds any number.
  lemma {:induction false} ScopedsRead(ts: seq<Scoped>, pad: Bytes)
    requires ScopedsOk(Ipfix, ts) && PadOk(pad)
    ensures ParseOptions(Ipfix, EncodeScopeds(Ipfix, ts) + pad) == ScopedItems(Ipfix, ts)
    decreases |ts|
  {
    if ts == [] {
      assert [] + pad == pad;
      if |pad| >= 4 { assert pad[0] == pad[..4][0] && pad[1] == pad[..4][1]; }
    } else {
      var t, others := ts[0], EncodeScopeds(Ipfix, ts[1..]);
      var specs := EncodeSpecs(Ipfix, t.spec.fields, t.spec.numbers);
      ScopedHead(t.spec.id, |t.spec.fields|, t.scopes, specs, others + pad);
      SpecsParsed(Ipfix, t.spec.fields, t.spec.numbers, specs, others + pad);
      ScopedsRead(ts[1..], pad);
      Associate(EncodeScoped(Ipfix, t), others, pad);
    }
  }

  // ---- records ----

  datatype Record = Record(heads: seq<Bytes>, values: seq<Bytes>)

  predicate RecordOk(d: Dialect, fields: seq<Field>, rec: Record) {
    HeadsOk(d, fields, rec.heads, rec.values)
  }

  predicate RecordsOk(d: Dialect, fields: seq<Field>, recs: seq<Record>) {
    forall i | 0 <= i < |recs| :: RecordOk(d, fields, recs[i])
  }

  function EncodeRecord(d: Dialect, fields: seq<Field>, rec: Record): Bytes
    requires RecordOk(d, fields, rec)
  {
    Lay(rec.heads, rec.values)
  }

  function EncodeRecords(d: Dialect, fields: seq<Field>, recs: seq<Record>): Bytes
    requires RecordsOk(d, fields, recs)
    decreases |recs|
  {
    if recs == [] then [] else EncodeRecord(d, fields, recs[0]) + EncodeRecords(d, fields, recs[1..])
  }

  // The flows that the records stand for, by the values written in them.
  function FlowsOf(d: Dialect, fields: seq<Field>, recs: seq<Record>, ctx: Context): (fs: seq<Flow>)
    requires RecordsOk(d, fields, recs)
    ensures |fs| == |recs|
    decreases |recs|
  {
    if recs == [] then [] else [FlowOf(d, fields, recs[0].values, ctx)] + FlowsOf(d, fields, recs[1..], ctx)
  }

  lemma {:induction false} FlowsAt(d: Dialect, fields: seq<Field>, recs: seq<Record>, ctx: Context, i: nat)
    requires RecordsOk(d, fields, recs) && i < |recs|
    ensures RecordOk(d, fields, recs[i])
      && FlowsOf(d, fields, recs, ctx)[i] == FlowOf(d, fields, recs[i].values, ctx)
    decreases i
  {
    if i > 0 { FlowsAt(d, fields, recs[1..], ctx, i - 1); }
  }

  // Records have some length: a template of zero-length fields describes none.
  predicate Sized(d: Dialect, fields: seq<Field>) {
    HasVar(d, fields) || FixedLen(d, fields) > 0
  }

  lemma {:induction false} LaidLength(d: Dialect, fields: seq<Field>, heads: seq<Bytes>, values: seq<Bytes>)
    requires HeadsOk(d, fields, heads, values)
    ensures |Lay(heads, values)| >= FixedLen(d, fields)
    ensures HasVar(d, fields) ==> |Lay(heads, values)| > 0
    ensures !HasVar(d, fields) ==> |Lay(heads, values)| == FixedLen(d, fields)
    decreases |fields|
  {
    if fields != [] {
      assert HeadOk(d, fields[0], heads[0], values[0]);
      LaidLength(d, fields[1..], heads[1..], values[1..]);
      HasVarCons(d, fields);
    }
  }

  lemma HasVarCons(d: Dialect, fields: seq<Field>)
    requires fields != []
    ensures HasVar(d, fields) <==> d.Ipfix? && (fields[0].length == VARLEN || HasVar(d, fields[1..]))
  {
    assert forall i | 0 <= i < |fields| - 1 :: fields[1..][i] == fields[i + 1];
    assert fields == [fields[0]] + fields[1..];
  }

  lemma FirstDecoded(d: Dialect, fields: seq<Field>, rec: Record, bytes: Bytes, rest: Bytes, ctx: Context)
    requires RecordOk(d, fields, rec) && bytes == EncodeRecord(d, fields, rec)
    ensures DecodeRecord(d, bytes + rest, fields, ctx) == Some((FlowOf(d, fields, rec.values, ctx), |bytes|))
  {
    RecordRead(d, fields, rec.values, ctx);
    WalkLaid(d, fields, rec.heads, rec.values, bytes, rest);
  }

  // What a record takes at least: a variable field has a byte for its length.
  function LeastLen(d: Dialect, fields: seq<Field>): nat {
    if fields == [] then 0
    else (if d.Ipfix? && fields[0].length == 0xFFFF then 1 else fields[0].length) + LeastLen(d, fields[1..])
  }

  lemma {:induction false} LeastIsFixed(d: Dialect, fields: seq<Field>)
    requires !HasVar(d, fields)
    ensures LeastLen(d, fields) == FixedLen(d, fields)
  {
    if fields != [] {
      HasVarCons(d, fields);
      LeastIsFixed(d, fields[1..]);
    }
  }

  lemma {:induction false} SizedTakes(d: Dialect, fields: seq<Field>)
    requires Sized(d, fields)
    ensures LeastLen(d, fields) > 0
  {
    HasVarCons(d, fields);
    if fields[0].length == 0 { SizedTakes(d, fields[1..]); }
  }

  lemma {:induction false} TooShort(d: Dialect, fields: seq<Field>, b: Bytes)
    requires |b| < LeastLen(d, fields)
    ensures Walk(d, b, fields) == None
    decreases |fields|
  {
    match Locate(d, b, fields[0])
    case None =>
    case Some(s) => TooShort(d, fields[1..], b[s.off + s.len..]);
  }

  lemma PadEmitsNothing(d: Dialect, fields: seq<Field>, pad: Bytes, limit: nat, ctx: Context)
    requires |pad| < LeastLen(d, fields)
    ensures Emit(d, MakeTemplate(d, fields), pad, limit, ctx) == []
  {
    if HasVar(d, fields) { TooShort(d, fields, pad); } else { LeastIsFixed(d, fields); }
  }

  lemma EmitFirst(d: Dialect, fields: seq<Field>, rec: Record, first: Bytes, rest: Bytes, limit: nat, ctx: Context)
    requires RecordOk(d, fields, rec) && Sized(d, fields) && first == EncodeRecord(d, fields, rec) && limit > 0
    ensures var t := MakeTemplate(d, fields);
      Emit(d, t, first + rest, limit, ctx) == [FlowOf(d, fields, rec.values, ctx)] + Emit(d, t, rest, limit - 1, ctx)
  {
    LaidLength(d, fields, rec.heads, rec.values);
    FirstDecoded(d, fields, rec, first, rest, ctx);
    FirstDecoded(d, fields, rec, first, [], ctx);
    assert first + [] == first && (first + rest)[..|first|] == first && (first + rest)[|first|..] == rest;
  }

  // A data set yields the records written in it, whatever padding follows them, as far as it is wanted.
  lemma {:induction false} EmitsWritten(d: Dialect, fields: seq<Field>, recs: seq<Record>, pad: Bytes, body: Bytes,
                                        limit: nat, ctx: Context)
    requires RecordsOk(d, fields, recs) && Sized(d, fields) && |pad| < LeastLen(d, fields)
      && body == EncodeRecords(d, fields, recs) + pad
    ensures Emit(d, MakeTemplate(d, fields), body, limit, ctx) == Take(limit, FlowsOf(d, fields, recs, ctx))
    decreases |recs|
  {
    if recs == [] {
      assert body == pad;
      PadEmitsNothing(d, fields, pad, limit, ctx);
    } else if limit > 0 {
      var first, others := EncodeRecord(d, fields, recs[0]), EncodeRecords(d, fields, recs[1..]);
      Associate(first, others, pad);
      EmitsWritten(d, fields, recs[1..], pad, others + pad, limit - 1, ctx);
      EmitFirst(d, fields, recs[0], first, others + pad, limit, ctx);
      TakeCons(limit, FlowOf(d, fields, recs[0].values, ctx), FlowsOf(d, fields, recs[1..], ctx));
    }
  }

  // ---- datagrams ----

  function SetBytes(id: nat, body: Bytes): Bytes
    requires id < 0x1_0000 && 4 + |body| < 0x1_0000
  {
    Put16(id) + Put16(4 + |body|) + body
  }

  lemma SetRead(id: nat, body: Bytes, rest: Bytes)
    requires id < 0x1_0000 && 4 + |body| < 0x1_0000
    ensures var b := SetBytes(id, body) + rest;
      WholeSet(b) && U16(b, 0) == id && SetBody(b) == body && b[U16(b, 2)..] == rest
  {
    var b := SetBytes(id, body) + rest;
    assert b[0] == Put16(id)[0] && b[1] == Put16(id)[1];
    assert b[2] == Put16(4 + |body|)[0] && b[3] == Put16(4 + |body|)[1];
    assert U16(b, 0) == U16(Put16(id), 0) && U16(b, 2) == U16(Put16(4 + |body|), 0);
  }

  // One written set, read by any reader.
  lemma SetDecoded(rd: Reader, c: Cache, id: nat, body: Bytes, rest: Bytes, budget: nat)
    requires id < 0x1_0000 && 4 + |body| < 0x1_0000
    ensures id < DATA_MIN ==>
      DecodeSets(rd, c, SetBytes(id, body) + rest, budget) == DecodeSets(rd, rd.learn(c, id, body), rest, budget)
    ensures id >= DATA_MIN ==> var out := rd.data(c, id, body, budget);
      DecodeSets(rd, c, SetBytes(id, body) + rest, budget)
      == if |out.flows| >= budget then out else Then(out, DecodeSets(rd, out.cache, rest, budget - |out.flows|))
  {
    SetRead(id, body, rest);
  }

  // What a datagram is made of: template sets, options template sets, data sets, and sets with a
  // reserved number.
  datatype Block =
    | Defines(ts: seq<Spec>, pad: Bytes)
    | Options(body: Bytes)
    | Rows(id: nat, recs: seq<Record>, pad: Bytes)
    | Reserved(id: nat, body: Bytes)

  // The templates of one exporter and domain by number.
  type Book = map<nat, Template>

  function Enter(book: Book, item: Item): Book {
    match item
    case Define(id, t) => book[id := t]
    case Withdraw(id) => book - {id}
  }

  function EnterAll(book: Book, items: seq<Item>): Book
    decreases |items|
  {
    if items == [] then book else EnterAll(Enter(book, items[0]), items[1..])
  }

  function BlockItems(d: Dialect, b: Block): seq<Item> {
    match b
    case Defines(ts, _) => ItemsOf(d, ts)
    case Options(body) => ParseOptions(d, body)
    case _ => []
  }

  // A template that describes flow records of some length.
  predicate Describes(d: Dialect, t: Template, fields: seq<Field>) {
    t == MakeTemplate(d, fields) && Sized(d, fields)
  }

  function BlockId(d: Dialect, b: Block): nat {
    match b
    case Defines(_, _) => if d.V9? then 0 else 2
    case Options(_) => if d.V9? then 1 else 3
    case Rows(id, _, _) => id
    case Reserved(id, _) => id
  }

  // Records follow the template that their number has at that point of the datagram; under an options template
  // there are none, whatever the bytes.
  predicate BlockOk(d: Dialect, book: Book, b: Block) {
    match b
    case Defines(ts, pad) => SpecsOk(d, ts) && PadOk(pad)
    case Options(_) => true
    case Rows(id, recs, pad) =>
      256 <= id < 0x1_0000 && id in book && if book[id].isOptions then recs == [] else
        && Describes(d, book[id], book[id].fields) && RecordsOk(d, book[id].fields, recs)
        && |pad| < LeastLen(d, book[id].fields)
    case Reserved(id, _) => id < 256 && if d.V9? then id > 1 else id != 2 && id != 3
  }

  function BlockBody(d: Dialect, book: Book, b: Block): Bytes
    requires BlockOk(d, book, b)
  {
    match b
    case Defines(ts, pad) => EncodeTemplates(d, ts) + pad
    case Options(body) => body
    case Rows(id, recs, pad) => EncodeRecords(d, book[id].fields, recs) + pad
    case Reserved(_, body) => body
  }

  function BlockFlows(d: Dialect, book: Book, b: Block, ctx: Context): seq<Flow>
    requires BlockOk(d, book, b)
  {
    if b.Rows? then FlowsOf(d, book[b.id].fields, b.recs, ctx) else []
  }

  // What one set does to the cache.
  function AfterBlock(d: Dialect, a: Arrival, b: Block, c: Cache, sweeps: Sweeps): Cache {
    if !b.Rows? then Store(c, a.exporter, a.domain, BlockItems(d, b), a.now, sweeps)
    else if Key(a.exporter, a.domain, b.id) in c.entries then Touch(c, Key(a.exporter, a.domain, b.id), a.now)
    else c
  }

  // One set takes the book and the cache on; folded.
  ghost predicate Turns(d: Dialect, b: Block, book: Book, book1: Book) {
    forall x: int {:trigger Folded(x)} :: Folded(x) ==> book1 == EnterAll(book, BlockItems(d, b))
  }

  ghost predicate Moves(d: Dialect, a: Arrival, b: Block, c: Cache, c1: Cache, sweeps: Sweeps) {
    forall x: int {:trigger Folded(x)} :: Folded(x) ==> c1 == AfterBlock(d, a, b, c, sweeps)
  }

  // `books[k]` is what the templates are before the k-th set.
  ghost predicate BookChain(d: Dialect, bs: seq<Block>, books: seq<Book>) {
    |books| == |bs| + 1 && forall k {:trigger bs[k]} | 0 <= k < |bs| :: Turns(d, bs[k], books[k], books[k + 1])
  }

  // And `caches[k]` what the decoder has.
  ghost predicate CacheChain(d: Dialect, a: Arrival, bs: seq<Block>, caches: seq<Cache>, sweeps: Sweeps) {
    |caches| == |bs| + 1 && forall k {:trigger bs[k]} | 0 <= k < |bs| ::
      Moves(d, a, bs[k], caches[k], caches[k + 1], sweeps)
  }

  ghost predicate Unfolds(d: Dialect, a: Arrival, bs: seq<Block>, books: seq<Book>, caches: seq<Cache>,
                          sweeps: Sweeps) {
    BookChain(d, bs, books) && CacheChain(d, a, bs, caches, sweeps)
  }

  lemma {:induction false} ChainExists(d: Dialect, a: Arrival, bs: seq<Block>, c: Cache, sweeps: Sweeps)
      returns (caches: seq<Cache>)
    ensures CacheChain(d, a, bs, caches, sweeps) && caches[0] == c
    decreases |bs|
  {
    if bs == [] {
      caches := [c];
    } else {
      var n := |bs| - 1;
      var front := ChainExists(d, a, bs[..n], c, sweeps);
      caches := front + [AfterBlock(d, a, bs[n], front[n], sweeps)];
      forall k | 0 <= k < |bs| ensures Moves(d, a, bs[k], caches[k], caches[k + 1], sweeps) {
        if k < n { assert bs[..n][k] == bs[k]; }
      }
    }
  }

  predicate BlocksOk(d: Dialect, books: seq<Book>, bs: seq<Block>) {
    |books| == |bs| + 1 && forall k {:trigger bs[k]} | 0 <= k < |bs| ::
      BlockOk(d, books[k], bs[k]) && 4 + |BlockBody(d, books[k], bs[k])| < 0x1_0000
  }

  // A set as bytes, and the flows it stands for.
  datatype Step = Step(id: nat, body: Bytes, flows: seq<Flow>)

  predicate Fits(steps: seq<Step>) {
    forall i | 0 <= i < |steps| :: steps[i].id < 0x1_0000 && 4 + |steps[i].body| < 0x1_0000
  }

  function StepBytes(steps: seq<Step>): Bytes
    requires Fits(steps)
    decreases |steps|
  {
    if steps == [] then [] else SetBytes(steps[0].id, steps[0].body) + StepBytes(steps[1..])
  }

  function StepFlows(steps: seq<Step>): seq<Flow> {
    if steps == [] then [] else steps[0].flows + StepFlows(steps[1..])
  }

  function StepFor(d: Dialect, book: Book, b: Block, ctx: Context): Step
    requires BlockOk(d, book, b)
  {
    Step(BlockId(d, b), BlockBody(d, book, b), BlockFlows(d, book, b, ctx))
  }

  function StepsOf(d: Dialect, books: seq<Book>, bs: seq<Block>, ctx: Context): (steps: seq<Step>)
    requires BlocksOk(d, books, bs)
    ensures Fits(steps)
  {
    seq(|bs|, k requires 0 <= k < |bs| => StepFor(d, books[k], bs[k], ctx))
  }

  // A set as it is written; folded.
  ghost predicate Stands(d: Dialect, book: Book, b: Block, step: Step, ctx: Context)
    requires BlockOk(d, book, b)
  {
    forall x: int {:trigger Folded(x)} :: Folded(x) ==> step == StepFor(d, book, b, ctx)
  }

  lemma StandsAt(d: Dialect, books: seq<Book>, bs: seq<Block>, ctx: Context, steps: seq<Step>, k: nat)
    requires BlocksOk(d, books, bs) && steps == StepsOf(d, books, bs, ctx) && k < |bs|
    ensures BlockOk(d, books[k], bs[k]) && Stands(d, books[k], bs[k], steps[k], ctx)
    ensures steps[k].id < 0x1_0000 && 4 + |steps[k].body| < 0x1_0000
  {
  }

  function EncodeBlocks(d: Dialect, books: seq<Book>, bs: seq<Block>): Bytes
    requires BlocksOk(d, books, bs)
  {
    StepBytes(StepsOf(d, books, bs, Context([], 0)))
  }

  // The bytes do not depend on what the flows will be.
  lemma {:induction false} SameBytes(a: seq<Step>, b: seq<Step>)
    requires Fits(a) && Fits(b) && |a| == |b| && forall i | 0 <= i < |a| :: a[i].id == b[i].id && a[i].body == b[i].body
    ensures StepBytes(a) == StepBytes(b)
    decreases |a|
  {
    if a != [] { SameBytes(a[1..], b[1..]); }
  }

  function BlocksFlows(d: Dialect, books: seq<Book>, bs: seq<Block>, ctx: Context): seq<Flow>
    requires BlocksOk(d, books, bs)
  {
    StepFlows(StepsOf(d, books, bs, ctx))
  }

  // ---- the cache and the book ----

  predicate Has(a: Arrival, c: Cache, id: nat, t: Template) {
    var key := Key(a.exporter, a.domain, id);
    key in c.entries && c.entries[key].t == t
  }

  predicate Knows(a: Arrival, book: Book, c: Cache) {
    forall id | id in book :: Has(a, c, id, book[id])
  }

  // The sweep takes nothing that the datagram has in use.
  predicate Spared(a: Arrival, book: Book, gone: set<Key>) {
    forall id | id in book :: Key(a.exporter, a.domain, id) !in gone
  }

  // ... nor does any sweep while these items are stored, the next one being the n-th.
  predicate SparesItems(a: Arrival, book: Book, items: seq<Item>, sweeps: Sweeps, n: nat)
    decreases |items|
  {
    items == [] ||
    var book' := Enter(book, items[0]);
    if items[0].Withdraw? then SparesItems(a, book', items[1..], sweeps, n)
    else Spared(a, book', sweeps(n)) && SparesItems(a, book', items[1..], sweeps, n + 1)
  }

  function PutsOf(items: seq<Item>): nat {
    if items == [] then 0 else (if items[0].Withdraw? then 0 else 1) + PutsOf(items[1..])
  }

  predicate Spares(d: Dialect, a: Arrival, bs: seq<Block>, books: seq<Book>, caches: seq<Cache>, sweeps: Sweeps)
    requires |books| == |caches| == |bs| + 1
  {
    forall k {:trigger bs[k]} | 0 <= k < |bs| :: SparesItems(a, books[k], BlockItems(d, bs[k]), sweeps, caches[k].puts)
  }

  lemma OneStored(a: Arrival, book: Book, item: Item, c: Cache, sweeps: Sweeps, c': Cache, book': Book)
    requires Knows(a, book, c) && c' == StoreOne(c, a.exporter, a.domain, item, a.now, sweeps)
      && book' == Enter(book, item)
    requires item.Define? ==> Spared(a, book', sweeps(c.puts))
    ensures Knows(a, book', c') && c'.puts == c.puts + if item.Withdraw? then 0 else 1
  {
    forall id | id in book' ensures Has(a, c', id, book'[id]) {
      if id != item.id { assert Has(a, c, id, book[id]); }
    }
  }

  lemma {:induction false} AllStored(a: Arrival, book: Book, items: seq<Item>, c: Cache, sweeps: Sweeps,
                                     c': Cache, book': Book)
    requires Knows(a, book, c) && SparesItems(a, book, items, sweeps, c.puts)
    requires c' == Store(c, a.exporter, a.domain, items, a.now, sweeps) && book' == EnterAll(book, items)
    ensures Knows(a, book', c') && c'.puts == c.puts + PutsOf(items)
    decreases |items|
  {
    if items != [] {
      var c1, book1 := FirstStored(a, book, items, c, sweeps);
      AllStored(a, book1, items[1..], c1, sweeps, c', book');
    }
  }

  lemma FirstStored(a: Arrival, book: Book, items: seq<Item>, c: Cache, sweeps: Sweeps) returns (c1: Cache, book1: Book)
    requires items != [] && Knows(a, book, c) && SparesItems(a, book, items, sweeps, c.puts)
    ensures Knows(a, book1, c1) && SparesItems(a, book1, items[1..], sweeps, c1.puts)
    ensures EnterAll(book, items) == EnterAll(book1, items[1..])
      && c.puts + PutsOf(items) == c1.puts + PutsOf(items[1..])
    ensures Store(c, a.exporter, a.domain, items, a.now, sweeps)
            == Store(c1, a.exporter, a.domain, items[1..], a.now, sweeps)
  {
    c1, book1 := StoreOne(c, a.exporter, a.domain, items[0], a.now, sweeps), Enter(book, items[0]);
    SparesUnfold(a, book, items, sweeps, c.puts, book1);
    StoreUnfold(c, a, items, sweeps, c1);
    OneStored(a, book, items[0], c, sweeps, c1, book1);
  }

  lemma SparesUnfold(a: Arrival, book: Book, items: seq<Item>, sweeps: Sweeps, n: nat, book1: Book)
    requires items != [] && SparesItems(a, book, items, sweeps, n) && book1 == Enter(book, items[0])
    ensures items[0].Define? ==> Spared(a, book1, sweeps(n))
    ensures SparesItems(a, book1, items[1..], sweeps, n + if items[0].Withdraw? then 0 else 1)
    ensures EnterAll(book, items) == EnterAll(book1, items[1..])
  {
  }

  lemma StoreUnfold(c: Cache, a: Arrival, items: seq<Item>, sweeps: Sweeps, c1: Cache)
    requires items != [] && c1 == StoreOne(c, a.exporter, a.domain, items[0], a.now, sweeps)
    ensures Store(c, a.exporter, a.domain, items, a.now, sweeps)
            == Store(c1, a.exporter, a.domain, items[1..], a.now, sweeps)
    ensures PutsOf(items) == PutsOf(items[1..]) + if items[0].Withdraw? then 0 else 1
  {
  }

  lemma BlockLearned(d: Dialect, a: Arrival, book: Book, b: Block, c: Cache, sweeps: Sweeps)
    requires BlockOk(d, book, b) && !b.Rows?
    ensures LearnSet(d, c, a, BlockId(d, b), BlockBody(d, book, b), sweeps)
            == Store(c, a.exporter, a.domain, BlockItems(d, b), a.now, sweeps)
  {
    if b.Defines? { TemplatesParsed(d, b.ts, b.pad); }
  }

  lemma {:induction false} ParsedLast(ts: seq<Spec>, d: Dialect)
    requires ts != []
    ensures ItemsOf(d, ts) == ItemsOf(d, ts[..|ts| - 1]) + [ItemOf(d, ts[|ts| - 1])]
  {
    if |ts| > 1 {
      ParsedLast(ts[1..], d);
      assert ts[1..][..|ts| - 2] == ts[..|ts| - 1][1..];
    }
  }

  lemma {:induction false} StoreLast(c: Cache, a: Arrival, items: seq<Item>, item: Item, sweeps: Sweeps)
    ensures Store(c, a.exporter, a.domain, items + [item], a.now, sweeps)
            == StoreOne(Store(c, a.exporter, a.domain, items, a.now, sweeps), a.exporter, a.domain, item, a.now, sweeps)
    decreases |items|
  {
    if items == [] {
      assert [item][1..] == [];
    } else {
      StoreLast(StoreOne(c, a.exporter, a.domain, items[0], a.now, sweeps), a, items[1..], item, sweeps);
      assert (items + [item])[1..] == items[1..] + [item];
    }
  }

  // A template that is withdrawn is known no longer, and data sets of its number give nothing.
  lemma {:induction false} WithdrawnSilent(a: Arrival, ts: seq<Spec>, pad: Bytes, id: nat, c: Cache, sweeps: Sweeps,
                                           c1: Cache,
                        body: Bytes, limit: nat)
    requires SpecsOk(Ipfix, ts) && PadOk(pad) && ts != [] && ts[|ts| - 1] == Spec(id, [], [])
    requires c1 == LearnSet(Ipfix, c, a, 2, EncodeTemplates(Ipfix, ts) + pad, sweeps)
    ensures Key(a.exporter, a.domain, id) !in c1.entries && DataFlows(Ipfix, c1, a, id, body, limit) == Out([], c1)
  {
    TemplatesParsed(Ipfix, ts, pad);
    ParsedLast(ts, Ipfix);
    StoreLast(c, a, ItemsOf(Ipfix, ts[..|ts| - 1]), Withdraw(id), sweeps);
  }

  lemma RowsRead(d: Dialect, a: Arrival, book: Book, b: Block, c: Cache, limit: nat, out: Out)
    requires BlockOk(d, book, b) && b.Rows? && Knows(a, book, c)
      && out == DataFlows(d, c, a, b.id, BlockBody(d, book, b), limit)
    ensures out.flows == Take(limit, BlockFlows(d, book, b, a.ctx)) && Knows(a, book, out.cache)
      && out.cache.puts == c.puts
  {
    assert Has(a, c, b.id, book[b.id]);
    if !book[b.id].isOptions {
      EmitsWritten(d, book[b.id].fields, b.recs, b.pad, BlockBody(d, book, b), limit, a.ctx);
    }
    forall id | id in book ensures Has(a, out.cache, id, book[id]) { assert Has(a, c, id, book[id]); }
  }

  // The first set and the rest.
  lemma LearnedThenRest(rd: Reader, c: Cache, id: nat, body: Bytes, rest: Bytes, budget: nat, c1: Cache,
                        flows: seq<Flow>)
    requires id < DATA_MIN && 4 + |body| < 0x1_0000 && c1 == rd.learn(c, id, body)
    requires DecodeSets(rd, c1, rest, budget).flows == flows
    ensures DecodeSets(rd, c, SetBytes(id, body) + rest, budget).flows == flows
  {
    SetDecoded(rd, c, id, body, rest, budget);
  }

  lemma ReadThenRest(rd: Reader, c: Cache, id: nat, body: Bytes, rest: Bytes, budget: nat, out: Out,
                     flows: seq<Flow>, more: seq<Flow>)
    requires DATA_MIN <= id < 0x1_0000 && 4 + |body| < 0x1_0000 && out == rd.data(c, id, body, budget)
      && out.flows == Take(budget, flows)
    requires |flows| < budget ==>
      DecodeSets(rd, out.cache, rest, budget - |flows|).flows
           == Take(budget - |flows|, more)
    ensures DecodeSets(rd, c, SetBytes(id, body) + rest, budget).flows == Take(budget, flows + more)
  {
    SetDecoded(rd, c, id, body, rest, budget);
    TakeAppend(budget, flows, more);
  }

  // ---- any reader, set by set ----

  // From a cache that is good before the k-th set, with b records to go, the reader gets the set's flows and a
  // cache that is good after it.
  ghost predicate Takes(rd: Reader, good: (nat, Cache, nat) -> bool, step: Step, k: nat, c: Cache, b: nat) {
    if step.id < DATA_MIN then step.flows == [] && good(k + 1, rd.learn(c, step.id, step.body), b)
    else
      && rd.data(c, step.id, step.body, b).flows == Take(b, step.flows)
      && (|step.flows| < b ==> good(k + 1, rd.data(c, step.id, step.body, b).cache, b - |step.flows|))
  }

  ghost predicate Follows(rd: Reader, good: (nat, Cache, nat) -> bool, steps: seq<Step>) {
    forall k: nat, c, b: nat | k < |steps| && good(k, c, b) :: Takes(rd, good, steps[k], k, c, b)
  }

  // The same; folded.
  ghost predicate Following(rd: Reader, good: (nat, Cache, nat) -> bool, steps: seq<Step>) {
    forall x: int {:trigger Folded(x)} :: Folded(x) ==> Follows(rd, good, steps)
  }

  lemma TakesAt(rd: Reader, good: (nat, Cache, nat) -> bool, all: seq<Step>, k: nat, c: Cache, b: nat)
    requires Following(rd, good, all) && k < |all| && good(k, c, b)
    ensures Takes(rd, good, all[k], k, c, b)
  {
    assert Folded(0);
  }

  lemma {:induction false} StepsDecoded(rd: Reader, good: (nat, Cache, nat) -> bool, all: seq<Step>, k: nat,
                                        steps: seq<Step>, c: Cache, budget: nat)
    requires Following(rd, good, all) && k <= |all| && good(k, c, budget) && steps == all[k..] && Fits(steps)
      && budget > 0
    ensures DecodeSets(rd, c, StepBytes(steps), budget).flows == Take(budget, StepFlows(steps))
    decreases |all| - k
  {
    if steps != [] {
      var step, rest := steps[0], steps[1..];
      assert step == all[k] && rest == all[k + 1..];
      TakesAt(rd, good, all, k, c, budget);
      var c1 := AfterStep(rd, step, c, budget);
      if step.id < DATA_MIN || |step.flows| < budget {
        StepsDecoded(rd, good, all, k + 1, rest, c1, budget - |step.flows|);
      }
      StepThenRest(rd, step, c, c1, budget, StepBytes(rest), StepFlows(rest));
    }
  }

  function AfterStep(rd: Reader, step: Step, c: Cache, budget: nat): Cache {
    if step.id < DATA_MIN then rd.learn(c, step.id, step.body) else rd.data(c, step.id, step.body, budget).cache
  }

  lemma StepThenRest(rd: Reader, step: Step, c: Cache, c1: Cache, budget: nat, rest: Bytes, flows: seq<Flow>)
    requires step.id < 0x1_0000 && 4 + |step.body| < 0x1_0000 && c1 == AfterStep(rd, step, c, budget)
    requires if step.id < DATA_MIN then step.flows == []
      else rd.data(c, step.id, step.body, budget).flows == Take(budget, step.flows)
    requires step.id < DATA_MIN || |step.flows| < budget ==>
      DecodeSets(rd, c1, rest, budget - |step.flows|).flows == Take(budget - |step.flows|, flows)
    ensures DecodeSets(rd, c, SetBytes(step.id, step.body) + rest, budget).flows == Take(budget, step.flows + flows)
  {
    if step.id < DATA_MIN {
      LearnedThenRest(rd, c, step.id, step.body, rest, budget, c1, Take(budget, flows));
      NoFlows(step.flows, flows);
    } else {
      ReadThenRest(rd, c, step.id, step.body, rest, budget, rd.data(c, step.id, step.body, budget), step.flows, flows);
    }
  }

  lemma NoFlows(none: seq<Flow>, flows: seq<Flow>)
    requires none == []
    ensures none + flows == flows
  {
  }

  // One set is read as written and leaves the cache as the book has it.
  lemma RowsTaken(d: Dialect, a: Arrival, book: Book, b: Block, step: Step, c: Cache, sweeps: Sweeps, n: nat,
                  rd: Reader, out: Out)
    requires BlockOk(d, book, b) && b.Rows? && Knows(a, book, c) && step == StepFor(d, book, b, a.ctx)
    requires rd == ReaderOf(d, a, sweeps) && out == rd.data(c, step.id, step.body, n)
    ensures out.flows == Take(n, step.flows) && out.cache == AfterBlock(d, a, b, c, sweeps) && Knows(a, book, out.cache)
  {
    assert Has(a, c, b.id, book[b.id]);
    RowsRead(d, a, book, b, c, n, out);
  }

  lemma BlockKnown(d: Dialect, a: Arrival, book: Book, b: Block, items: seq<Item>, c: Cache, sweeps: Sweeps, c1: Cache)
    requires BlockOk(d, book, b) && items == BlockItems(d, b) && c1 == AfterBlock(d, a, b, c, sweeps)
    requires Knows(a, book, c) && SparesItems(a, book, items, sweeps, c.puts)
    ensures Knows(a, EnterAll(book, items), c1)
  {
    if b.Rows? {
      RowsTaken(d, a, book, b, StepFor(d, book, b, a.ctx), c, sweeps, 0, ReaderOf(d, a, sweeps),
                DataFlows(d, c, a, b.id, BlockBody(d, book, b), 0));
    } else {
      AllStored(a, book, items, c, sweeps, c1, EnterAll(book, items));
    }
  }

  lemma {:induction false} KnownAt(d: Dialect, a: Arrival, bs: seq<Block>, books: seq<Book>, caches: seq<Cache>,
                                   sweeps: Sweeps, k: nat)
    requires Unfolds(d, a, bs, books, caches, sweeps) && BlocksOk(d, books, bs)
      && Spares(d, a, bs, books, caches, sweeps)
    requires Knows(a, books[0], caches[0]) && k <= |bs|
    ensures Knows(a, books[k], caches[k])
  {
    if k > 0 {
      KnownAt(d, a, bs, books, caches, sweeps, k - 1);
      KnownNext(d, a, bs, books, caches, sweeps, k - 1);
    }
  }

  lemma KnownNext(d: Dialect, a: Arrival, bs: seq<Block>, books: seq<Book>, caches: seq<Cache>, sweeps: Sweeps, k: nat)
    requires Unfolds(d, a, bs, books, caches, sweeps) && BlocksOk(d, books, bs)
      && Spares(d, a, bs, books, caches, sweeps)
    requires k < |bs| && Knows(a, books[k], caches[k])
    ensures Knows(a, books[k + 1], caches[k + 1])
  {
    TakenOn(d, a, books[k], bs[k], caches[k], sweeps, caches[k + 1], books[k + 1]);
  }

  lemma TakenOn(d: Dialect, a: Arrival, book: Book, b: Block, c: Cache, sweeps: Sweeps, c1: Cache, book1: Book)
    requires BlockOk(d, book, b) && Moves(d, a, b, c, c1, sweeps) && Turns(d, b, book, book1)
    requires Knows(a, book, c) && SparesItems(a, book, BlockItems(d, b), sweeps, c.puts)
    ensures Knows(a, book1, c1)
  {
    assert Folded(0);
    BlockKnown(d, a, book, b, BlockItems(d, b), c, sweeps, c1);
  }

  lemma BlockFollowed(d: Dialect, a: Arrival, book: Book, b: Block, c: Cache, c1: Cache, sweeps: Sweeps, rd: Reader,
                      step: Step, n: nat)
    requires BlockOk(d, book, b) && Knows(a, book, c) && c1 == AfterBlock(d, a, b, c, sweeps)
      && rd == ReaderOf(d, a, sweeps)
    requires step == StepFor(d, book, b, a.ctx)
    ensures if b.Rows? then DATA_MIN <= step.id && rd.data(c, step.id, step.body, n) == Out(Take(n, step.flows), c1)
            else step.id < DATA_MIN && step.flows == [] && rd.learn(c, step.id, step.body) == c1
  {
    if b.Rows? {
      RowsTaken(d, a, book, b, step, c, sweeps, n, rd, rd.data(c, step.id, step.body, n));
    } else {
      BlockLearned(d, a, book, b, c, sweeps);
    }
  }

  lemma BlocksDecoded(d: Dialect, a: Arrival, bs: seq<Block>, books: seq<Book>, caches: seq<Cache>,
                      sweeps: Sweeps, steps: seq<Step>)
    requires Unfolds(d, a, bs, books, caches, sweeps) && BlocksOk(d, books, bs)
      && Spares(d, a, bs, books, caches, sweeps)
    requires Knows(a, books[0], caches[0]) && steps == StepsOf(d, books, bs, a.ctx)
    ensures DecodeSets(ReaderOf(d, a, sweeps), caches[0], StepBytes(steps), MAX_RECORDS).flows
            == Take(MAX_RECORDS, StepFlows(steps))
  {
    var rd, good := ReaderOf(d, a, sweeps), OnCourse(caches);
    BlocksFollowed(d, a, bs, books, caches, sweeps, steps, rd, good);
    StepsDecoded(rd, good, steps, 0, steps, caches[0], MAX_RECORDS);
  }

  function OnCourse(caches: seq<Cache>): (nat, Cache, nat) -> bool {
    (k: nat, c: Cache, b: nat) => k < |caches| && c == caches[k]
  }

  lemma BlocksFollowed(d: Dialect, a: Arrival, bs: seq<Block>, books: seq<Book>, caches: seq<Cache>,
                       sweeps: Sweeps, steps: seq<Step>, rd: Reader, good: (nat, Cache, nat) -> bool)
    requires Unfolds(d, a, bs, books, caches, sweeps) && BlocksOk(d, books, bs)
      && Spares(d, a, bs, books, caches, sweeps)
    requires Knows(a, books[0], caches[0]) && steps == StepsOf(d, books, bs, a.ctx)
    requires rd == ReaderOf(d, a, sweeps) && good == OnCourse(caches)
    ensures Follows(rd, good, steps)
  {
    forall k: nat, c, b: nat | k < |steps| && good(k, c, b) ensures Takes(rd, good, steps[k], k, c, b) {
      OneFollowed(d, a, bs, books, caches, sweeps, steps, rd, good, k, b);
    }
  }

  lemma OneFollowed(d: Dialect, a: Arrival, bs: seq<Block>, books: seq<Book>, caches: seq<Cache>, sweeps: Sweeps,
                    steps: seq<Step>, rd: Reader, good: (nat, Cache, nat) -> bool, k: nat, b: nat)
    requires Unfolds(d, a, bs, books, caches, sweeps) && BlocksOk(d, books, bs)
      && Spares(d, a, bs, books, caches, sweeps)
    requires Knows(a, books[0], caches[0]) && steps == StepsOf(d, books, bs, a.ctx) && k < |bs|
    requires rd == ReaderOf(d, a, sweeps) && good == OnCourse(caches)
    ensures Takes(rd, good, steps[k], k, caches[k], b)
  {
    KnownAt(d, a, bs, books, caches, sweeps, k);
    StandsAt(d, books, bs, a.ctx, steps, k);
    BlockTakes(d, a, books[k], bs[k], caches[k], caches[k + 1], sweeps, rd, steps[k], k, b, good);
  }

  lemma BlockTakes(d: Dialect, a: Arrival, book: Book, b: Block, c: Cache, c1: Cache, sweeps: Sweeps, rd: Reader,
                   step: Step, k: nat, n: nat, good: (nat, Cache, nat) -> bool)
    requires BlockOk(d, book, b) && Knows(a, book, c) && Moves(d, a, b, c, c1, sweeps) && rd == ReaderOf(d, a, sweeps)
    requires Stands(d, book, b, step, a.ctx)
    requires if b.Rows? then |step.flows| < n ==> good(k + 1, c1, n - |step.flows|) else good(k + 1, c1, n)
    ensures Takes(rd, good, step, k, c, n)
  {
    assert Folded(0);
    BlockFollowed(d, a, book, b, c, c1, sweeps, rd, step, n);
  }

  lemma BytesFrom(steps: seq<Step>, k: nat)
    requires Fits(steps) && k < |steps|
    ensures Fits(steps[k..]) && Fits(steps[k + 1..])
    ensures StepBytes(steps[k..]) == SetBytes(steps[k].id, steps[k].body) + StepBytes(steps[k + 1..])
  {
    assert steps[k..][0] == steps[k] && steps[k..][1..] == steps[k + 1..];
  }

  // A header the decoder accepts for a payload of this length.
  predicate HeaderOk(d: Dialect, header: Bytes, length: nat) {
    && |header| == HeaderLen(d) && U16(header, 0) == Version(d)
    && (d.Ipfix? ==> U16(header, 2) == length)
  }

  lemma PayloadRead(d: Dialect, header: Bytes, sets: Bytes)
    requires HeaderOk(d, header, HeaderLen(d) + |sets|)
    ensures var p := header + sets;
      && |p| >= HeaderLen(d) && U16(p, 0) == Version(d) && EndOf(d, p) == |p| && p[HeaderLen(d)..EndOf(d, p)] == sets
      && DomainOf(d, p) == DomainOf(d, header) && BaseOf(d, p) == BaseOf(d, header)
  {
    var p := header + sets;
    assert forall i | 0 <= i < HeaderLen(d) :: p[i] == header[i];
  }

  // Nothing else is refused outright.
  lemma TakenIff(d: Dialect, c: Cache, payload: Bytes, exporter: Bytes, now: int, sweeps: Sweeps)
    ensures var res, size := DecodePacket(d, c, payload, exporter, now, sweeps), if d.V9? then 20 else 16;
      && (res.ShortPacket? <==> |payload| < size)
      && (res.Decoded? <==> |payload| >= size && payload[..2] == if d.V9? then [0, 9] else [0, 10])
  {
    if |payload| >= 2 { assert payload[..2] == [payload[0], payload[1]]; }
  }

  // The header as it is written: by v9 with the system's uptime in milliseconds, by IPFIX with the length of all.
  datatype Heading = Heading(count: nat, uptime: nat, seconds: nat, sequence: nat, domain: nat)

  predicate Wide(h: Heading) {
    && h.count < 0x1_0000 && h.uptime < 0x1_0000_0000 && h.seconds < 0x1_0000_0000
    && h.sequence < 0x1_0000_0000 && h.domain < 0x1_0000_0000
  }

  function EncodeHeader(d: Dialect, h: Heading, length: nat): Bytes
    requires Wide(h) && (d.Ipfix? ==> length < 0x1_0000)
  {
    match d
    case V9 => [0, 9] + Put16(h.count) + Put32(h.uptime) + Put32(h.seconds) + Put32(h.sequence) + Put32(h.domain)
    case Ipfix => [0, 10] + Put16(length) + Put32(h.seconds) + Put32(h.sequence) + Put32(h.domain)
  }

  // Relative times count from the boot of a v9 exporter and from the export of an IPFIX message.
  function ArrivalFor(d: Dialect, h: Heading, exporter: Bytes, now: int): Arrival {
    var since := if d.V9? then h.seconds * 1000 - h.uptime else h.seconds * 1000;
    Arrival(exporter, h.domain, now, Context(exporter, since))
  }

  function Enclose(d: Dialect, h: Heading, sets: Bytes): Bytes
    requires Wide(h) && (d.Ipfix? ==> 16 + |sets| < 0x1_0000)
  {
    EncodeHeader(d, h, 16 + |sets|) + sets
  }

  lemma NumberBehind(before: Bytes, n: nat, behind: Bytes)
    requires n < 0x1_0000_0000
    ensures |before + Put32(n)| == |before| + 4 && U32(before + Put32(n) + behind, |before|) == n
  {
    var b, i := before + Put32(n) + behind, |before|;
    assert b[i] == Put32(n)[0] && b[i + 1] == Put32(n)[1] && b[i + 2] == Put32(n)[2] && b[i + 3] == Put32(n)[3];
    assert U16(b, i) == U16(Put32(n), 0) && U16(b, i + 2) == U16(Put32(n), 2);
  }

  lemma HeaderEncoded(d: Dialect, h: Heading, length: nat, exporter: Bytes, now: int)
    requires Wide(h) && (d.Ipfix? ==> length < 0x1_0000)
    ensures var b := EncodeHeader(d, h, length);
      HeaderOk(d, b, length)
      && ArrivalFor(d, h, exporter, now) == Arrival(exporter, DomainOf(d, b), now, Context(exporter, BaseOf(d, b)))
  {
    if d.V9? {
      var b0 := [0, 9] + Put16(h.count);
      var b1 := b0 + Put32(h.uptime);
      var b2 := b1 + Put32(h.seconds);
      var b3 := b2 + Put32(h.sequence);
      NumberBehind(b0, h.uptime, Put32(h.seconds) + Put32(h.sequence) + Put32(h.domain));
      NumberBehind(b1, h.seconds, Put32(h.sequence) + Put32(h.domain));
      NumberBehind(b3, h.domain, []);
      assert b0 + Put32(h.uptime) + (Put32(h.seconds) + Put32(h.sequence) + Put32(h.domain)) == b3 + Put32(h.domain);
      assert b1 + Put32(h.seconds) + (Put32(h.sequence) + Put32(h.domain)) == b3 + Put32(h.domain);
      assert b3 + Put32(h.domain) + [] == b3 + Put32(h.domain);
    } else {
      var b0 := [0, 10] + Put16(length);
      var b1 := b0 + Put32(h.seconds);
      var b2 := b1 + Put32(h.sequence);
      NumberBehind(b0, h.seconds, Put32(h.sequence) + Put32(h.domain));
      NumberBehind(b2, h.domain, []);
      assert b0 + Put32(h.seconds) + (Put32(h.sequence) + Put32(h.domain)) == b2 + Put32(h.domain);
      assert b2 + Put32(h.domain) + [] == b2 + Put32(h.domain);
      assert b2[2] == Put16(length)[0] && b2[3] == Put16(length)[1];
    }
  }

  // A written datagram is opened as it was enclosed.
  lemma Opened(d: Dialect, h: Heading, data: Bytes, exporter: Bytes, now: int, p: Bytes, a: Arrival)
    requires Wide(h) && (d.Ipfix? ==> 16 + |data| < 0x1_0000) && a == ArrivalFor(d, h, exporter, now)
      && p == Enclose(d, h, data)
    ensures |p| >= HeaderLen(d) && U16(p, 0) == Version(d) && p[HeaderLen(d)..EndOf(d, p)] == data
    ensures a == Arrival(exporter, DomainOf(d, p), now, Context(exporter, BaseOf(d, p)))
  {
    HeaderEncoded(d, h, 16 + |data|, exporter, now);
    PayloadRead(d, EncodeHeader(d, h, 16 + |data|), data);
  }

  lemma SetsRead(d: Dialect, p: Bytes, data: Bytes, exporter: Bytes, now: int, a: Arrival, c: Cache, sweeps: Sweeps)
    requires |p| >= HeaderLen(d) && U16(p, 0) == Version(d) && p[HeaderLen(d)..EndOf(d, p)] == data
    requires a == Arrival(exporter, DomainOf(d, p), now, Context(exporter, BaseOf(d, p)))
    ensures DecodePacket(d, c, p, exporter, now, sweeps)
            == Decoded(DecodeSets(ReaderOf(d, a, sweeps), c, data, MAX_RECORDS))
  {
  }

  // Main result: a datagram of any template, options and data sets yields the records written in it, each
  // read by the template its number had where it was written, in order, cut at the per-datagram cap.
  // The first book is what is known beforehand, and no sweep takes a template that is in use.
  lemma DatagramDecoded(d: Dialect, h: Heading, bs: seq<Block>, books: seq<Book>, caches: seq<Cache>,
                        data: Bytes, exporter: Bytes, now: int, a: Arrival, sweeps: Sweeps)
    requires Unfolds(d, a, bs, books, caches, sweeps) && BlocksOk(d, books, bs)
      && Spares(d, a, bs, books, caches, sweeps)
    requires data == EncodeBlocks(d, books, bs) && Knows(a, books[0], caches[0])
    requires Wide(h) && (d.Ipfix? ==> 16 + |data| < 0x1_0000) && a == ArrivalFor(d, h, exporter, now)
    ensures var res := DecodePacket(d, caches[0], Enclose(d, h, data), exporter, now, sweeps);
      res.Decoded? && res.out.flows == Take(8192, BlocksFlows(d, books, bs, a.ctx))
  {
    var p := Enclose(d, h, data);
    Opened(d, h, data, exporter, now, p, a);
    SetsRead(d, p, data, exporter, now, a, caches[0], sweeps);
    SameBytes(StepsOf(d, books, bs, Context([], 0)), StepsOf(d, books, bs, a.ctx));
    BlocksDecoded(d, a, bs, books, caches, sweeps, StepsOf(d, books, bs, a.ctx));
  }
}
