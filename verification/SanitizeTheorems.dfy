/** Whole payloads: a sanitized payload decodes to the original's flows with their addresses mapped, so
    that no flow decoded from it has an address outside 10.0.0.0/8.  This is about what a decoder reads;
    `SanitizeBytes` is about every byte.  */
module SanitizeTheorems {
  import opened Prelude
  import opened Wire
  import opened Decode
  import opened Sanitize
  import opened Commute

  // Which key of the sanitizer's names the same template as which of the decoder's: an exporter's address is itself
  // renamed in a sanitized frame.
  type Pairing = (Key, Key) -> bool

  ghost predicate OneToOne(pair: Pairing) {
    && (forall k, k1, k2 | pair(k, k1) && pair(k, k2) :: k1 == k2)
    && (forall k, k1, k2 | pair(k1, k) && pair(k2, k) :: k1 == k2)
  }

  // The sanitizer knows as `exporter` whom the decoder knows as `alias`.
  ghost predicate Joins(pair: Pairing, exporter: Bytes, alias: Bytes, domain: nat) {
    OneToOne(pair) && forall id: nat :: pair(Key(exporter, domain, id), Key(alias, domain, id))
  }

  // Where both know a flow template, they know the same one.
  ghost predicate Agree(known: Templates, c: Cache, pair: Pairing) {
    forall k, k' | pair(k, k') && k in known && k' in c.entries ::
      known[k].isOptions || c.entries[k'].t.isOptions || known[k] == c.entries[k'].t
  }

  ghost predicate CacheOk(d: Dialect, c: Cache) {
    forall key | key in c.entries :: TemplateOk(d, c.entries[key].t)
  }

  ghost predicate TemplatesOk(d: Dialect, known: Templates) {
    forall key | key in known :: TemplateOk(d, known[key])
  }

  ghost predicate ItemsOk(d: Dialect, items: seq<Item>) {
    forall i | 0 <= i < |items| && items[i].Define? :: TemplateOk(d, items[i].t)
  }

  lemma {:induction false} ParsedTemplatesOk(d: Dialect, body: Bytes)
    ensures ItemsOk(d, ParseTemplates(d, body))
    ensures forall i | 0 <= i < |ParseTemplates(d, body)| && ParseTemplates(d, body)[i].Define? ::
      !ParseTemplates(d, body)[i].t.isOptions
    decreases |body|
  {
    if |body| >= 4 && !(d.Ipfix? && U16(body, 0) == 0) {
      if U16(body, 2) == 0 {
        if d.Ipfix? { ParsedTemplatesOk(d, body[4..]); }
      } else if ParseSpecs(d, body[4..], U16(body, 2)).Some? {
        ParsedTemplatesOk(d, body[4 + ParseSpecs(d, body[4..], U16(body, 2)).value.1..]);
      }
    }
  }

  lemma {:induction false} ParsedOptionsOk(d: Dialect, body: Bytes)
    ensures forall i | 0 <= i < |ParseOptions(d, body)| ::
      ParseOptions(d, body)[i].Define? && ParseOptions(d, body)[i].t.isOptions
    decreases |body|
  {
    if |body| >= 6 && d.Ipfix? && U16(body, 0) != 0 && ParseSpecs(d, body[6..], U16(body, 2)).Some? {
      ParsedOptionsOk(d, body[6 + ParseSpecs(d, body[6..], U16(body, 2)).value.1..]);
    }
  }

  lemma {:induction false} StoreKeepsOk(d: Dialect, c: Cache, exporter: Bytes, domain: nat, items: seq<Item>,
                                        now: int, sweeps: Sweeps)
    requires CacheOk(d, c) && ItemsOk(d, items)
    ensures CacheOk(d, Store(c, exporter, domain, items, now, sweeps))
    decreases |items|
  {
    if items != [] {
      var key := Key(exporter, domain, items[0].id);
      var c1 := if items[0].Define? then Put(c, key, items[0].t, now, sweeps) else c.(entries := c.entries - {key});
      assert ItemsOk(d, items[1..]);
      StoreKeepsOk(d, c1, exporter, domain, items[1..], now, sweeps);
    }
  }

  // Both learn the same flow templates from a template set.
  lemma {:induction false} AgreeAfterTemplates(known: Templates, c: Cache, pair: Pairing, exporter: Bytes, alias: Bytes,
                                               domain: nat, items: seq<Item>, now: int, sweeps: Sweeps)
    requires Agree(known, c, pair) && Joins(pair, exporter, alias, domain)
    ensures Agree(Learn(known, exporter, domain, items), Store(c, alias, domain, items, now, sweeps), pair)
    decreases |items|
  {
    if items != [] {
      var key, key' := Key(exporter, domain, items[0].id), Key(alias, domain, items[0].id);
      var c1 := if items[0].Define? then Put(c, key', items[0].t, now, sweeps) else c.(entries := c.entries - {key'});
      var known1 := if items[0].Define? then known[key := items[0].t] else known;
      assert pair(key, key');
      assert Agree(known1, c1, pair);
      AgreeAfterTemplates(known1, c1, pair, exporter, alias, domain, items[1..], now, sweeps);
    }
  }

  // An options template is a flow template to neither.
  lemma {:induction false} AgreeAfterOptions(known: Templates, c: Cache, pair: Pairing, alias: Bytes, domain: nat,
                                             items: seq<Item>, now: int, sweeps: Sweeps)
    requires Agree(known, c, pair) && forall i | 0 <= i < |items| :: items[i].Define? && items[i].t.isOptions
    ensures Agree(known, Store(c, alias, domain, items, now, sweeps), pair)
    decreases |items|
  {
    if items != [] {
      var c1 := Put(c, Key(alias, domain, items[0].id), items[0].t, now, sweeps);
      assert Agree(known, c1, pair);
      AgreeAfterOptions(known, c1, pair, alias, domain, items[1..], now, sweeps);
    }
  }

  lemma {:induction false} LearnKeepsOk(d: Dialect, known: Templates, exporter: Bytes, domain: nat, items: seq<Item>)
    requires TemplatesOk(d, known) && ItemsOk(d, items)
    ensures TemplatesOk(d, Learn(known, exporter, domain, items))
    decreases |items|
  {
    if items != [] {
      assert ItemsOk(d, items[1..]);
      LearnKeepsOk(d, if items[0].Define? then known[Key(exporter, domain, items[0].id) := items[0].t]
        else known, exporter, domain, items[1..]);
    }
  }

  // Sanitizer and decoder fit together.
  ghost predicate Ready(d: Dialect, known: Templates, c: Cache, pair: Pairing) {
    Agree(known, c, pair) && CacheOk(d, c) && TemplatesOk(d, known)
  }

  lemma ControlSetReady(d: Dialect, known: Templates, c: Cache, pair: Pairing, exporter: Bytes, a: Arrival, id: nat,
                        body: Bytes, sweeps: Sweeps)
    requires Ready(d, known, c, pair) && Joins(pair, exporter, a.exporter, a.domain)
    ensures Ready(d, NoteSet(d, known, exporter, a.domain, id, body), LearnSet(d, c, a, id, body, sweeps), pair)
  {
    if id == TemplateSet(d) {
      var items := ParseTemplates(d, body);
      ParsedTemplatesOk(d, body);
      LearnKeepsOk(d, known, exporter, a.domain, items);
      StoreKeepsOk(d, c, a.exporter, a.domain, items, a.now, sweeps);
      AgreeAfterTemplates(known, c, pair, exporter, a.exporter, a.domain, items, a.now, sweeps);
    } else if id == OptionsSet(d) {
      var items := ParseOptions(d, body);
      ParsedOptionsOk(d, body);
      StoreKeepsOk(d, c, a.exporter, a.domain, items, a.now, sweeps);
      AgreeAfterOptions(known, c, pair, a.exporter, a.domain, items, a.now, sweeps);
    }
  }

  function MapOut(r: Renaming, out: Out): Out {
    Out(MapFlows(r, out.flows), out.cache)
  }

  lemma DataSetCommutes(d: Dialect, r: Renaming, known: Templates, c: Cache, pair: Pairing, exporter: Bytes, a: Arrival,
                        id: nat, body: Bytes, limit: nat)
    requires Ready(d, known, c, pair) && Joins(pair, exporter, a.exporter, a.domain) && |body| < VARLEN
    requires ScrubSet(r, known, exporter, a.domain, id, body).Some?
    ensures var body' := ScrubSet(r, known, exporter, a.domain, id, body).value;
      DataFlows(d, c, a, id, body', limit) == MapOut(r, DataFlows(d, c, a, id, body, limit))
    ensures AllPlain(DataFlows(d, c, a, id, body, limit).flows)
    ensures Ready(d, known, DataFlows(d, c, a, id, body, limit).cache, pair)
  {
    var key, key' := Key(exporter, a.domain, id), Key(a.exporter, a.domain, id);
    DataCommutes(d, r, known[key], body, limit, a.ctx);
    assert pair(key, key');
    if key' in c.entries && !c.entries[key'].t.isOptions {
      assert known[key] == c.entries[key'].t;
    }
  }

  // ---- all sets of a datagram, for any reader and cleaner that fit ----

  ghost predicate Fits(rel: (Templates, Cache) -> bool, r: Renaming, cl: Cleaner, rd: Reader) {
    && (forall known, c, id: nat, body | rel(known, c) :: rel(cl.learn(known, id, body), rd.learn(c, id, body)))
    && (forall known, id: nat, body | cl.scrub(known, id, body).Some? :: |cl.scrub(known, id, body).value| == |body|)
    && (forall known, c, id: nat, body, n: nat | rel(known, c) && |body| < VARLEN && cl.scrub(known, id, body).Some? ::
          && rd.data(c, id, cl.scrub(known, id, body).value, n) == MapOut(r, rd.data(c, id, body, n))
          && AllPlain(rd.data(c, id, body, n).flows)
          && rel(known, rd.data(c, id, body, n).cache))
  }

  lemma {:induction false} MapFlowsAppend(r: Renaming, fs: seq<Flow>, gs: seq<Flow>)
    ensures MapFlows(r, fs + gs) == MapFlows(r, fs) + MapFlows(r, gs)
  {
    if fs == [] {
      assert fs + gs == gs;
    } else {
      assert (fs + gs)[1..] == fs[1..] + gs;
      MapFlowsAppend(r, fs[1..], gs);
    }
  }

  // The header of a set and what follows it do not depend on its body.
  lemma SameSet(rest: Bytes, body: Bytes, next: Bytes)
    requires WholeSet(rest) && |body| == |SetBody(rest)|
    ensures var t := rest[..4] + body + next;
      && WholeSet(t) && U16(t, 0) == U16(rest, 0) && U16(t, 2) == U16(rest, 2)
      && SetBody(t) == body && t[U16(t, 2)..] == next
  {
    var t := rest[..4] + body + next;
    assert forall i | 0 <= i < 4 :: t[i] == rest[i];
  }

  lemma {:induction false} SanitizeKeepsLength(cl: Cleaner, known: Templates, rest: Bytes)
    requires SanitizeSets(cl, known, rest).ok
    requires forall k, id: nat, body | cl.scrub(k, id, body).Some? :: |cl.scrub(k, id, body).value| == |body|
    ensures |SanitizeSets(cl, known, rest).bytes| == |rest|
    decreases |rest|
  {
    if WholeSet(rest) {
      var id, body, next := U16(rest, 0), SetBody(rest), rest[U16(rest, 2)..];
      SanitizeKeepsLength(cl, if id < DATA_MIN then cl.learn(known, id, body) else known, next);
    }
  }

  // One set of a datagram, given what follows it in both forms.
  lemma ControlStep(r: Renaming, rd: Reader, c: Cache, rest: Bytes, next': Bytes, budget: nat)
    requires WholeSet(rest) && U16(rest, 0) < DATA_MIN
    requires var c1 := rd.learn(c, U16(rest, 0), SetBody(rest));
      DecodeSets(rd, c1, next', budget) == MapOut(r, DecodeSets(rd, c1, rest[U16(rest, 2)..], budget))
    ensures DecodeSets(rd, c, rest[..4] + SetBody(rest) + next', budget) == MapOut(r, DecodeSets(rd, c, rest, budget))
  {
    SameSet(rest, SetBody(rest), next');
  }

  lemma DataStep(r: Renaming, rd: Reader, c: Cache, rest: Bytes, body': Bytes, next': Bytes, budget: nat)
    requires WholeSet(rest) && U16(rest, 0) >= DATA_MIN && |body'| == |SetBody(rest)|
    requires rd.data(c, U16(rest, 0), body', budget) == MapOut(r, rd.data(c, U16(rest, 0), SetBody(rest), budget))
    requires var out := rd.data(c, U16(rest, 0), SetBody(rest), budget);
      |out.flows| < budget ==>
        DecodeSets(rd, out.cache, next', budget - |out.flows|)
        == MapOut(r, DecodeSets(rd, out.cache, rest[U16(rest, 2)..], budget - |out.flows|))
    ensures DecodeSets(rd, c, rest[..4] + body' + next', budget) == MapOut(r, DecodeSets(rd, c, rest, budget))
  {
    SameSet(rest, body', next');
    var out := rd.data(c, U16(rest, 0), SetBody(rest), budget);
    if |out.flows| < budget {
      MapFlowsAppend(r, out.flows, DecodeSets(rd, out.cache, rest[U16(rest, 2)..], budget - |out.flows|).flows);
    }
  }

  // One set of a kept payload: what is known behind it, its new body, and the rest.
  lemma SanitizeStep(cl: Cleaner, known: Templates, rest: Bytes)
      returns (known1: Templates, body': Bytes, next: Sanitized)
    requires WholeSet(rest) && SanitizeSets(cl, known, rest).ok
    ensures next == SanitizeSets(cl, known1, rest[U16(rest, 2)..]) && next.ok
    ensures SanitizeSets(cl, known, rest) == Sanitized(true, rest[..4] + body' + next.bytes, next.known)
    ensures if U16(rest, 0) < DATA_MIN then known1 == cl.learn(known, U16(rest, 0), SetBody(rest))
      && body' == SetBody(rest)
            else known1 == known && cl.scrub(known, U16(rest, 0), SetBody(rest)) == Some(body')
  {
    var id, body := U16(rest, 0), SetBody(rest);
    known1 := if id < DATA_MIN then cl.learn(known, id, body) else known;
    body' := if id < DATA_MIN then body else cl.scrub(known, id, body).value;
    next := SanitizeSets(cl, known1, rest[U16(rest, 2)..]);
  }

  lemma FitsControl(rel: (Templates, Cache) -> bool, r: Renaming, cl: Cleaner, rd: Reader, known: Templates,
                    c: Cache, id: nat, body: Bytes)
    requires Fits(rel, r, cl, rd) && rel(known, c)
    ensures rel(cl.learn(known, id, body), rd.learn(c, id, body))
  {
  }

  lemma FitsData(rel: (Templates, Cache) -> bool, r: Renaming, cl: Cleaner, rd: Reader, known: Templates, c: Cache,
                 id: nat, body: Bytes, body': Bytes, n: nat)
    requires Fits(rel, r, cl, rd) && rel(known, c) && |body| < VARLEN && cl.scrub(known, id, body) == Some(body')
    ensures |body'| == |body| && rd.data(c, id, body', n) == MapOut(r, rd.data(c, id, body, n))
    ensures rel(known, rd.data(c, id, body, n).cache) && AllPlain(rd.data(c, id, body, n).flows)
  {
  }

  lemma {:induction false} SetsCommute(rel: (Templates, Cache) -> bool, r: Renaming, cl: Cleaner, rd: Reader,
                                       known: Templates, c: Cache, rest: Bytes, budget: nat, s: Sanitized)
    requires Fits(rel, r, cl, rd) && rel(known, c) && budget > 0 && s == SanitizeSets(cl, known, rest) && s.ok
    ensures DecodeSets(rd, c, s.bytes, budget) == MapOut(r, DecodeSets(rd, c, rest, budget))
    ensures AllPlain(DecodeSets(rd, c, rest, budget).flows)
    decreases |rest|
  {
    if WholeSet(rest) {
      var known1, body', next := SanitizeStep(cl, known, rest);
      if U16(rest, 0) < DATA_MIN {
        var c1 := rd.learn(c, U16(rest, 0), SetBody(rest));
        assert rel(known1, c1) by { FitsControl(rel, r, cl, rd, known, c, U16(rest, 0), SetBody(rest)); }
        SetsCommute(rel, r, cl, rd, known1, c1, rest[U16(rest, 2)..], budget, next);
        ControlStep(r, rd, c, rest, next.bytes, budget);
      } else {
        var out := rd.data(c, U16(rest, 0), SetBody(rest), budget);
        FitsData(rel, r, cl, rd, known, c, U16(rest, 0), SetBody(rest), body', budget);
        if |out.flows| < budget {
          SetsCommute(rel, r, cl, rd, known, out.cache, rest[U16(rest, 2)..], budget - |out.flows|, next);
        }
        DataStep(r, rd, c, rest, body', next.bytes, budget);
      }
    }
  }

  // A datagram read to its end leaves sanitizer and decoder in agreement.
  lemma {:induction false} SetsKeepAgreement(rel: (Templates, Cache) -> bool, r: Renaming, cl: Cleaner, rd: Reader,
                                             known: Templates, c: Cache, rest: Bytes, budget: nat)
    requires Fits(rel, r, cl, rd) && rel(known, c) && SanitizeSets(cl, known, rest).ok
    requires |DecodeSets(rd, c, rest, budget).flows| < budget
    ensures rel(SanitizeSets(cl, known, rest).known, DecodeSets(rd, c, rest, budget).cache)
    decreases |rest|
  {
    if WholeSet(rest) {
      var known1, body', s := SanitizeStep(cl, known, rest);
      var id, body, next := U16(rest, 0), SetBody(rest), rest[U16(rest, 2)..];
      if id < DATA_MIN {
        SetsKeepAgreement(rel, r, cl, rd, known1, rd.learn(c, id, body), next, budget);
      } else {
        var out := rd.data(c, id, body, budget);
        assert rel(known, out.cache);
        SetsKeepAgreement(rel, r, cl, rd, known, out.cache, next, budget - |out.flows|);
      }
    }
  }

  // ---- one payload ----

  function MapResult(r: Renaming, res: Result): Result {
    if res.Decoded? then Decoded(MapOut(r, res.out)) else res
  }

  lemma ReaderFits(d: Dialect, r: Renaming, pair: Pairing, exporter: Bytes, a: Arrival, sweeps: Sweeps,
                   rel: (Templates, Cache) -> bool)
    requires Joins(pair, exporter, a.exporter, a.domain)
      && forall known, c :: rel(known, c) <==> Ready(d, known, c, pair)
    ensures Fits(rel, r, CleanerOf(d, r, exporter, a.domain), ReaderOf(d, a, sweeps))
  {
    var cl, rd := CleanerOf(d, r, exporter, a.domain), ReaderOf(d, a, sweeps);
    forall known, c, id: nat, body | rel(known, c) ensures rel(cl.learn(known, id, body), rd.learn(c, id, body)) {
      ControlSetReady(d, known, c, pair, exporter, a, id, body, sweeps);
    }
    forall known, c, id: nat, body, n: nat | rel(known, c) && |body| < VARLEN && cl.scrub(known, id, body).Some?
      ensures rd.data(c, id, cl.scrub(known, id, body).value, n) == MapOut(r, rd.data(c, id, body, n))
      ensures AllPlain(rd.data(c, id, body, n).flows)
      ensures rel(known, rd.data(c, id, body, n).cache)
    {
      DataSetCommutes(d, r, known, c, pair, exporter, a, id, body, n);
    }
  }

  // The parts of a payload the header and the set loop see.
  lemma SamePayload(d: Dialect, payload: Bytes, sets: Bytes)
    requires |payload| >= HeaderLen(d) && |sets| == EndOf(d, payload) - HeaderLen(d)
    ensures var p := payload[..HeaderLen(d)] + sets + payload[EndOf(d, payload)..];
      && |p| == |payload| && U16(p, 0) == U16(payload, 0) && EndOf(d, p) == EndOf(d, payload)
      && DomainOf(d, p) == DomainOf(d, payload) && BaseOf(d, p) == BaseOf(d, payload)
      && p[HeaderLen(d)..EndOf(d, p)] == sets
  {
    var p := payload[..HeaderLen(d)] + sets + payload[EndOf(d, payload)..];
    assert forall i | 0 <= i < HeaderLen(d) :: p[i] == payload[i];
  }

  // Main result: a kept payload decodes to the original's flows, each IPv4 address replaced, and
  // leaves the decoder with the same templates; no kept flow carries any other kind of address.
  lemma SanitizedDecodesMapped(d: Dialect, r: Renaming, known: Templates, c: Cache, pair: Pairing, exporter: Bytes,
                               alias: Bytes, payload: Bytes, now: int, sweeps: Sweeps, s: Sanitized)
    requires s == SanitizePacket(d, r, known, exporter, payload) && s.ok && Ready(d, known, c, pair)
    requires |payload| >= HeaderLen(d) ==> Joins(pair, exporter, alias, DomainOf(d, payload))
    ensures |s.bytes| == |payload|
    ensures DecodePacket(d, c, s.bytes, alias, now, sweeps)
            == MapResult(r, DecodePacket(d, c, payload, alias, now, sweeps))
    ensures var res := DecodePacket(d, c, payload, alias, now, sweeps); res.Decoded? ==> AllPlain(res.out.flows)
    ensures var res := DecodePacket(d, c, payload, alias, now, sweeps);
      res.Decoded? && |res.out.flows| < MAX_RECORDS ==> Ready(d, s.known, res.out.cache, pair)
  {
    if |payload| >= HeaderLen(d) {
      var domain, rest := DomainOf(d, payload), payload[HeaderLen(d)..EndOf(d, payload)];
      var a := Arrival(alias, domain, now, Context(alias, BaseOf(d, payload)));
      var cl, rd := CleanerOf(d, r, exporter, domain), ReaderOf(d, a, sweeps);
      var sets := SanitizeSets(cl, known, rest);
      ghost var rel := (k: Templates, e: Cache) => Ready(d, k, e, pair);
      ReaderFits(d, r, pair, exporter, a, sweeps, rel);
      SetsCommute(rel, r, cl, rd, known, c, rest, MAX_RECORDS, sets);
      SanitizeKeepsLength(cl, known, rest);
      if |DecodeSets(rd, c, rest, MAX_RECORDS).flows| < MAX_RECORDS {
        SetsKeepAgreement(rel, r, cl, rd, known, c, rest, MAX_RECORDS);
      }
      SamePayload(d, payload, sets.bytes);
    }
  }

  // Every address a decoder gets out of a kept payload lies in 10.0.0.0/8.
  predicate Masked(a: Bytes) {
    a == [] || (|a| == 4 && a[0] == 10)
  }

  predicate AllMasked(fs: seq<Flow>) {
    forall i | 0 <= i < |fs| ::
      Masked(fs[i].ip.src) && Masked(fs[i].ip.dst) && Masked(fs[i].ip.natPublic) && Masked(fs[i].ip.natDest)
  }

  lemma {:induction false} MappedIsMasked(r: Renaming, fs: seq<Flow>)
    requires AllPlain(fs)
    ensures AllMasked(MapFlows(r, fs))
  {
    if fs != [] {
      assert Plain(fs[0]);
      assert AllPlain(fs[1..]);
      MappedIsMasked(r, fs[1..]);
    }
  }

  lemma NoAddressLeaks(d: Dialect, r: Renaming, known: Templates, c: Cache, pair: Pairing, exporter: Bytes,
                       alias: Bytes,
                       payload: Bytes, now: int, sweeps: Sweeps)
    requires SanitizePacket(d, r, known, exporter, payload).ok && Ready(d, known, c, pair)
    requires |payload| >= HeaderLen(d) ==> Joins(pair, exporter, alias, DomainOf(d, payload))
    ensures var res := DecodePacket(d, c, SanitizePacket(d, r, known, exporter, payload).bytes, alias, now, sweeps);
      res.Decoded? ==> AllMasked(res.out.flows)
  {
    var s := SanitizePacket(d, r, known, exporter, payload);
    SanitizedDecodesMapped(d, r, known, c, pair, exporter, alias, payload, now, sweeps, s);
    var res := DecodePacket(d, c, payload, alias, now, sweeps);
    if res.Decoded? { MappedIsMasked(r, res.out.flows); }
  }
}
