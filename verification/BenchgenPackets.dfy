/** The packet builders of the load generator, and the flows a collector gets from its stream.  */
module BenchgenPackets {
  import opened Prelude
  import opened Wire
  import opened Decode
  import opened Records
  import opened RoundTrip
  import opened Benchgen
  import D = Decoder
  import T = DecoderTheorems

  const MAX_FLOWS := 30

  // ---- what the packets are ----

  lemma {:induction false} SpecsLength(d: Dialect, fields: seq<Field>, specs: Bytes)
    requires FieldsOk(d, fields) && (forall i | 0 <= i < |fields| :: !fields[i].enterprise)
      && specs == EncodeSpecs(d, fields, Zeros(|fields|))
    ensures |specs| == 4 * |fields|
    decreases |fields|
  {
    if fields != [] {
      assert Zeros(|fields|)[1..] == Zeros(|fields| - 1);
      SpecsLength(d, fields[1..], EncodeSpecs(d, fields[1..], Zeros(|fields| - 1)));
    }
  }

  lemma {:induction false} RecordsLength(d: Dialect, fields: seq<Field>, recs: seq<Record>, bytes: Bytes)
    requires RecordsOk(d, fields, recs) && !HasVar(d, fields) && bytes == EncodeRecords(d, fields, recs)
    ensures |bytes| == |recs| * FixedLen(d, fields)
    decreases |recs|
  {
    if recs != [] {
      assert RecordOk(d, fields, recs[0]);
      LaidLength(d, fields, recs[0].heads, recs[0].values);
      RecordsLength(d, fields, recs[1..], EncodeRecords(d, fields, recs[1..]));
      Distribute(|recs| - 1, FixedLen(d, fields));
    }
  }

  lemma Distribute(n: nat, x: nat)
    ensures x + n * x == (n + 1) * x
  {
  }

  function TemplateBody(d: Dialect): (body: Bytes)
    ensures |body| == 40
  {
    SpecsLength(d, FieldsOf(d), EncodeSpecs(d, FieldsOf(d), Zeros(|FieldsOf(d)|)));
    EncodeTemplate(d, TemplateSpec(d))
  }

  function DataBody(d: Dialect, samples: seq<Sample>): (body: Bytes)
    requires SamplesOk(d, samples)
    ensures |body| == |samples| * RecordLen(d)
  {
    TemplateSized(d, FieldsOf(d));
    RecordsLength(d, FieldsOf(d), RecordsOf(d, samples), EncodeRecords(d, FieldsOf(d), RecordsOf(d, samples)));
    EncodeRecords(d, FieldsOf(d), RecordsOf(d, samples))
  }

  datatype Clock = Clock(now: nat, sysUptime: nat)

  predicate ClockOk(k: Clock) { k.now < 0x1_0000_0000 && k.sysUptime < 0x1_0000_0000 }

  // A packet of one set; v9 counts its records, IPFIX its bytes.
  function Packet(d: Dialect, id: nat, body: Bytes, count: nat, k: Clock): Bytes
    requires id < 0x1_0000 && |body| < 0xFFE8 && count < 0x1_0000 && ClockOk(k)
  {
    Header(d, count, HeaderLen(d) + 4 + |body|, k.now, k.sysUptime) + SetBytes(id, body)
  }

  function TemplatePacket(d: Dialect, k: Clock): Bytes
    requires ClockOk(k)
  {
    Packet(d, TemplateSet(d), TemplateBody(d), 1, k)
  }

  lemma DataFits(d: Dialect, samples: seq<Sample>)
    requires SamplesOk(d, samples) && |samples| <= MAX_FLOWS
    ensures |DataBody(d, samples)| < 0xFFE8
  {
  }

  function DataPacket(d: Dialect, samples: seq<Sample>, k: Clock): Bytes
    requires SamplesOk(d, samples) && |samples| <= MAX_FLOWS && ClockOk(k)
  {
    DataFits(d, samples);
    Packet(d, TEMPLATE_ID, DataBody(d, samples), |samples|, k)
  }

  // ---- what a collector makes of them ----

  function BaseAt(d: Dialect, k: Clock): int { if d.V9? then k.now * 1000 - k.sysUptime else k.now * 1000 }

  function ArrivalOf(d: Dialect, exporter: Bytes, k: Clock, now: int): Arrival {
    Arrival(exporter, 1, now, Context(exporter, BaseAt(d, k)))
  }

  lemma PacketRead(d: Dialect, id: nat, body: Bytes, count: nat, k: Clock, c: Cache, exporter: Bytes, now: int,
                   sweeps: Sweeps)
    requires id < 0x1_0000 && |body| < 0xFFE8 && count < 0x1_0000 && ClockOk(k)
    ensures DecodePacket(d, c, Packet(d, id, body, count, k), exporter, now, sweeps)
      == Decoded(DecodeSets(ReaderOf(d, ArrivalOf(d, exporter, k, now), sweeps), c, SetBytes(id, body), MAX_RECORDS))
  {
    var length := HeaderLen(d) + 4 + |body|;
    var h := Header(d, count, length, k.now, k.sysUptime);
    HeaderRead(d, count, length, k.now, k.sysUptime, h);
    PayloadRead(d, h, SetBytes(id, body));
  }

  // A datagram of one set.
  lemma LearnOnly(rd: Reader, c: Cache, id: nat, body: Bytes, budget: nat)
    requires id < DATA_MIN && 4 + |body| < 0x1_0000
    ensures DecodeSets(rd, c, SetBytes(id, body), budget) == Out([], rd.learn(c, id, body))
  {
    SetDecoded(rd, c, id, body, [], budget);
    assert SetBytes(id, body) + [] == SetBytes(id, body);
    assert DecodeSets(rd, rd.learn(c, id, body), [], budget) == Out([], rd.learn(c, id, body));
  }

  lemma DataOnly(rd: Reader, c: Cache, id: nat, body: Bytes, budget: nat)
    requires DATA_MIN <= id < 0x1_0000 && 4 + |body| < 0x1_0000
    ensures DecodeSets(rd, c, SetBytes(id, body), budget).flows == rd.data(c, id, body, budget).flows
  {
    SetDecoded(rd, c, id, body, [], budget);
    assert SetBytes(id, body) + [] == SetBytes(id, body);
    var out := rd.data(c, id, body, budget);
    assert out.flows + [] == out.flows;
  }

  lemma DataFlowsWritten(d: Dialect, c: Cache, a: Arrival, fields: seq<Field>, recs: seq<Record>, body: Bytes)
    requires RecordsOk(d, fields, recs) && Sized(d, fields) && body == EncodeRecords(d, fields, recs)
    requires Has(a, c, TEMPLATE_ID, MakeTemplate(d, fields)) && |recs| <= MAX_RECORDS
    ensures DataFlows(d, c, a, TEMPLATE_ID, body, MAX_RECORDS).flows == FlowsOf(d, fields, recs, a.ctx)
  {
    SizedTakes(d, fields);
    assert body + [] == body;
    EmitsWritten(d, fields, recs, [], body, MAX_RECORDS, a.ctx);
  }

  // A data packet leaves the cache as it was but for the time its template was last used.
  lemma DataTouches(d: Dialect, samples: seq<Sample>, k: Clock, c: Cache, exporter: Bytes, now: int, sweeps: Sweeps)
      returns (c1: Cache)
    requires SamplesOk(d, samples) && |samples| <= MAX_FLOWS && ClockOk(k) && Key(exporter, 1, TEMPLATE_ID) in c.entries
    ensures var res := DecodePacket(d, c, DataPacket(d, samples, k), exporter, now, sweeps);
      res.Decoded? && res.out.cache == c1 == Touch(c, Key(exporter, 1, TEMPLATE_ID), now)
  {
    var a, body := ArrivalOf(d, exporter, k, now), DataBody(d, samples);
    DataFits(d, samples);
    PacketRead(d, TEMPLATE_ID, body, |samples|, k, c, exporter, now, sweeps);
    SetDecoded(ReaderOf(d, a, sweeps), c, TEMPLATE_ID, body, [], MAX_RECORDS);
    assert SetBytes(TEMPLATE_ID, body) + [] == SetBytes(TEMPLATE_ID, body);
    c1 := Touch(c, Key(exporter, 1, TEMPLATE_ID), now);
  }

  lemma DataPacketRead(d: Dialect, samples: seq<Sample>, k: Clock, c: Cache, exporter: Bytes, now: int, sweeps: Sweeps)
    requires SamplesOk(d, samples) && |samples| <= MAX_FLOWS && ClockOk(k)
    requires Has(ArrivalOf(d, exporter, k, now), c, TEMPLATE_ID, MakeTemplate(d, FieldsOf(d)))
    ensures var res := DecodePacket(d, c, DataPacket(d, samples, k), exporter, now, sweeps);
      res.Decoded? && res.out.flows == ExpectedFlows(d, samples, Context(exporter, BaseAt(d, k)))
  {
    var a, fields, recs, body := ArrivalOf(d, exporter, k, now), FieldsOf(d), RecordsOf(d, samples),
        DataBody(d, samples);
    var rd := ReaderOf(d, a, sweeps);
    DataFits(d, samples);
    PacketRead(d, TEMPLATE_ID, body, |samples|, k, c, exporter, now, sweeps);
    DataOnly(rd, c, TEMPLATE_ID, body, MAX_RECORDS);
    TemplateSized(d, fields);
    DataFlowsWritten(d, c, a, fields, recs, body);
    SamplesDecoded(d, samples, recs, fields, a.ctx);
  }

  // ---- the whole stream ----

  // The generator repeats its template now and then; `now` is when the collector gets the packet.
  datatype Sent = TemplateAt(k: Clock, now: int) | DataAt(samples: seq<Sample>, k: Clock, now: int)

  predicate SentOk(d: Dialect, p: Sent) {
    ClockOk(p.k) && (p.DataAt? ==> SamplesOk(d, p.samples) && |p.samples| <= MAX_FLOWS)
  }

  predicate AllOk(d: Dialect, ps: seq<Sent>) { forall i | 0 <= i < |ps| :: SentOk(d, ps[i]) }

  function BytesOf(d: Dialect, p: Sent): Bytes
    requires SentOk(d, p)
  {
    match p
    case TemplateAt(k, _) => TemplatePacket(d, k)
    case DataAt(samples, k, _) => DataPacket(d, samples, k)
  }

  function FlowsOfSent(d: Dialect, p: Sent, exporter: Bytes): seq<Flow> {
    if p.TemplateAt? then [] else ExpectedFlows(d, p.samples, Context(exporter, BaseAt(d, p.k)))
  }

  // The collector gets these flows from the packet, and then has this cache; folded.
  ghost predicate Gets(d: Dialect, c: Cache, p: Sent, exporter: Bytes, sweeps: Sweeps, c1: Cache)
    requires SentOk(d, p)
  {
    forall x: int {:trigger Folded(x)} :: Folded(x) ==>
      DecodePacket(d, c, BytesOf(d, p), exporter, p.now, sweeps) == Decoded(Out(FlowsOfSent(d, p, exporter), c1))
  }

  // The cache after a packet, whatever becomes of it; folded.
  ghost predicate Leaves(d: Dialect, c: Cache, p: Sent, exporter: Bytes, sweeps: Sweeps, c1: Cache)
    requires SentOk(d, p)
  {
    forall x: int {:trigger Folded(x)} :: Folded(x) ==>
      var res := DecodePacket(d, c, BytesOf(d, p), exporter, p.now, sweeps);
      res.Decoded? ==> c1 == res.out.cache
  }

  // What it evicts obeys the rule; folded.
  ghost predicate Obeys(d: Dialect, c: Cache, p: Sent, exporter: Bytes, sweeps: Sweeps)
    requires SentOk(d, p)
  {
    forall x: int {:trigger Folded(x)} :: Folded(x) ==> D.LawfulPacket(d, c, BytesOf(d, p), exporter, p.now, sweeps)
  }

  // The generator's template; folded.
  ghost predicate Generated(d: Dialect, t: Template) {
    forall x: int {:trigger Folded(x)} :: Folded(x) ==> t == MakeTemplate(d, FieldsOf(d))
  }

  // The cache has the generator's template, or room for it.
  predicate Room(c: Cache, key: Key, now: int) {
    |c.entries| <= MAX_TEMPLATES
    && (key in c.entries || |c.entries| < MAX_TEMPLATES || exists k :: k in c.entries && c.entries[k].lastSeen < now)
  }

  predicate Primed(t: Template, c: Cache, key: Key) {
    |c.entries| <= MAX_TEMPLATES && key in c.entries && c.entries[key].t == t
  }

  // A lawful sweep spares a template that has just come.
  lemma PutSpared(c: Cache, key: Key, t: Template, now: int, sweeps: Sweeps, entries: map<Key, Entry>)
    requires D.LawfulPut(c, key, t, now, sweeps) && Room(c, key, now) && entries == c.entries[key := Entry(t, now)]
    ensures key !in sweeps(c.puts)
  {
    assert entries.Keys == c.entries.Keys + {key};
    if SweepDue(c, entries, now) {
      if key !in c.entries && |c.entries| == MAX_TEMPLATES {
        var k :| k in c.entries && c.entries[k].lastSeen < now;
        assert k in entries && entries[k].lastSeen < now;
      }
      D.FreshSurvives(entries, key, sweeps(c.puts), now);
    }
  }

  // A packet of one template set is lawful if its put is.
  lemma LawfulSet(d: Dialect, a: Arrival, c: Cache, body: Bytes, id: nat, t: Template, sweeps: Sweeps)
    requires 4 + |body| < 0x1_0000 && ParseTemplates(d, body) == [Define(id, t)]
    requires D.LawfulSets(d, a, c, SetBytes(TemplateSet(d), body), MAX_RECORDS, sweeps)
    ensures D.LawfulPut(c, Key(a.exporter, a.domain, id), t, a.now, sweeps)
  {
    var rest := SetBytes(TemplateSet(d), body);
    assert rest + [] == rest;
    SetRead(TemplateSet(d), body, []);
    var items := [Define(id, t)];
    assert D.ItemsIn(d, TemplateSet(d), body) == items;
    assert D.LawfulItems(c, a, items, sweeps);
  }

  lemma StoredSet(d: Dialect, a: Arrival, c: Cache, body: Bytes, id: nat, t: Template, sweeps: Sweeps)
    requires 4 + |body| < 0x1_0000 && ParseTemplates(d, body) == [Define(id, t)]
    ensures DecodeSets(ReaderOf(d, a, sweeps), c, SetBytes(TemplateSet(d), body), MAX_RECORDS)
      == Out([], Put(c, Key(a.exporter, a.domain, id), t, a.now, sweeps))
  {
    LearnOnly(ReaderOf(d, a, sweeps), c, TemplateSet(d), body, MAX_RECORDS);
    var items, c1 := [Define(id, t)], Put(c, Key(a.exporter, a.domain, id), t, a.now, sweeps);
    assert items[1..] == [];
    assert Store(c, a.exporter, a.domain, items, a.now, sweeps)
           == Store(c1, a.exporter, a.domain, items[1..], a.now, sweeps) == c1;
  }

  // The generator's template set says what its template is.
  lemma TemplateSaid(d: Dialect, t: Template, body: Bytes)
    requires Generated(d, t) && body == TemplateBody(d)
    ensures ParseTemplates(d, body) == [Define(TEMPLATE_ID, t)]
  {
    assert Folded(0);
    TemplateParsed(d, TemplateSpec(d), []);
    assert body + [] == body;
  }

  // Where a packet's set is, and whom it is from.
  lemma PacketLaid(d: Dialect, id: nat, body: Bytes, count: nat, k: Clock, p: Bytes, exporter: Bytes, now: int,
                   a: Arrival)
    requires id < 0x1_0000 && |body| < 0xFFE8 && count < 0x1_0000 && ClockOk(k) && p == Packet(d, id, body, count, k)
    requires a == ArrivalOf(d, exporter, k, now)
    ensures |p| >= HeaderLen(d) && U16(p, 0) == Version(d) && p[HeaderLen(d)..EndOf(d, p)] == SetBytes(id, body)
    ensures a == Arrival(exporter, DomainOf(d, p), now, Context(exporter, BaseOf(d, p)))
  {
    var length := HeaderLen(d) + 4 + |body|;
    var h := Header(d, count, length, k.now, k.sysUptime);
    HeaderRead(d, count, length, k.now, k.sysUptime, h);
    PayloadRead(d, h, SetBytes(id, body));
  }

  lemma TemplateTaken(d: Dialect, p: Sent, c: Cache, exporter: Bytes, sweeps: Sweeps, t: Template, key: Key)
      returns (c1: Cache)
    requires SentOk(d, p) && p.TemplateAt? && Obeys(d, c, p, exporter, sweeps) && Generated(d, t)
    requires key == Key(exporter, 1, TEMPLATE_ID) && Room(c, key, p.now)
    ensures Gets(d, c, p, exporter, sweeps, c1) && Primed(t, c1, key)
  {
    var a, body, packet := ArrivalOf(d, exporter, p.k, p.now), TemplateBody(d), TemplatePacket(d, p.k);
    TemplateSaid(d, t, body);
    PacketLaid(d, TemplateSet(d), body, 1, p.k, packet, exporter, p.now, a);
    c1 := Put(c, key, t, p.now, sweeps);
    LawfulHere(d, c, p, exporter, sweeps, a, body, packet);
    LawfulSet(d, a, c, body, TEMPLATE_ID, t, sweeps);
    StoredSet(d, a, c, body, TEMPLATE_ID, t, sweeps);
    PutSpared(c, key, t, p.now, sweeps, c.entries[key := Entry(t, p.now)]);
    T.PutSize(c, key, t, p.now, sweeps, c.entries[key := Entry(t, p.now)], c1.entries);
  }

  lemma LawfulHere(d: Dialect, c: Cache, p: Sent, exporter: Bytes, sweeps: Sweeps, a: Arrival, body: Bytes,
                   packet: Bytes)
    requires SentOk(d, p) && p.TemplateAt? && Obeys(d, c, p, exporter, sweeps) && packet == TemplatePacket(d, p.k)
    requires |body| == 40 && |packet| >= HeaderLen(d) && U16(packet, 0) == Version(d)
      && packet[HeaderLen(d)..EndOf(d, packet)] == SetBytes(TemplateSet(d), body)
    requires a == Arrival(exporter, DomainOf(d, packet), p.now, Context(exporter, BaseOf(d, packet)))
    ensures D.LawfulSets(d, a, c, SetBytes(TemplateSet(d), body), MAX_RECORDS, sweeps)
  {
    assert Folded(0);
  }

  lemma DataTaken(d: Dialect, p: Sent, c: Cache, exporter: Bytes, sweeps: Sweeps, t: Template, key: Key)
      returns (c1: Cache)
    requires SentOk(d, p) && p.DataAt? && Generated(d, t) && key == Key(exporter, 1, TEMPLATE_ID) && Primed(t, c, key)
    ensures Gets(d, c, p, exporter, sweeps, c1) && Primed(t, c1, key)
  {
    c1 := Touch(c, key, p.now);
    assert c1.entries.Keys == c.entries.Keys;
    DataGot(d, p, c, exporter, sweeps, t, key, c1);
  }

  lemma DataGot(d: Dialect, p: Sent, c: Cache, exporter: Bytes, sweeps: Sweeps, t: Template, key: Key, c1: Cache)
    requires SentOk(d, p) && p.DataAt? && Generated(d, t) && key == Key(exporter, 1, TEMPLATE_ID) && Primed(t, c, key)
    requires c1 == Touch(c, key, p.now)
    ensures Gets(d, c, p, exporter, sweeps, c1)
  {
    assert Folded(0);
    var a := ArrivalOf(d, exporter, p.k, p.now);
    assert Has(a, c, TEMPLATE_ID, MakeTemplate(d, FieldsOf(d)));
    DataPacketRead(d, p.samples, p.k, c, exporter, p.now, sweeps);
    var c2 := DataTouches(d, p.samples, p.k, c, exporter, p.now, sweeps);
  }

  // Main result: a collector that gets the generator's template, and then any sequence of its packets, gets
  // exactly the generated flows of each, whatever it knew before, as long as it had room for one template
  // and evicts by its rule.
  lemma {:induction false} StreamDecoded(d: Dialect, ps: seq<Sent>, caches: seq<Cache>, exporter: Bytes,
                                         sweeps: Sweeps, i: nat)
    requires AllOk(d, ps) && |caches| == |ps| + 1 && i < |ps|
    requires forall j | 0 <= j < |ps| ::
      Obeys(d, caches[j], ps[j], exporter, sweeps) && Leaves(d, caches[j], ps[j], exporter, sweeps, caches[j + 1])
    requires ps[0].TemplateAt? && Room(caches[0], Key(exporter, 1, TEMPLATE_ID), ps[0].now)
    ensures Gets(d, caches[i], ps[i], exporter, sweeps, caches[i + 1])
    ensures exists t :: Generated(d, t) && Primed(t, caches[i + 1], Key(exporter, 1, TEMPLATE_ID))
    decreases i
  {
    var t, key := MakeTemplate(d, FieldsOf(d)), Key(exporter, 1, TEMPLATE_ID);
    assert Generated(d, t);
    if i > 0 {
      StreamDecoded(d, ps, caches, exporter, sweeps, i - 1);
      SameTemplate(d, t, caches[i], key);
    }
    var c1: Cache;
    if ps[i].TemplateAt? {
      c1 := TemplateTaken(d, ps[i], caches[i], exporter, sweeps, t, key);
    } else {
      c1 := DataTaken(d, ps[i], caches[i], exporter, sweeps, t, key);
    }
    OnlyOne(d, caches[i], ps[i], exporter, sweeps, c1, caches[i + 1]);
  }

  lemma SameTemplate(d: Dialect, t: Template, c: Cache, key: Key)
    requires Generated(d, t) && exists u :: Generated(d, u) && Primed(u, c, key)
    ensures Primed(t, c, key)
  {
    assert Folded(0);
  }

  lemma OnlyOne(d: Dialect, c: Cache, p: Sent, exporter: Bytes, sweeps: Sweeps, c1: Cache, c2: Cache)
    requires SentOk(d, p) && Gets(d, c, p, exporter, sweeps, c1) && Leaves(d, c, p, exporter, sweeps, c2)
    ensures c1 == c2
  {
    assert Folded(0);
  }

  lemma GetsMeans(d: Dialect, c: Cache, p: Sent, exporter: Bytes, sweeps: Sweeps, c1: Cache)
    requires SentOk(d, p) && Gets(d, c, p, exporter, sweeps, c1)
    ensures DecodePacket(d, c, BytesOf(d, p), exporter, p.now, sweeps) == Decoded(Out(FlowsOfSent(d, p, exporter), c1))
  {
    assert Folded(0);
  }
}
