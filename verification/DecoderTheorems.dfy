/** What holds of the template cache over a datagram: other exporters and domains are left alone but for
    evictions by the rule, a datagram's flows are capped, and a saved cache loads back.  */
module DecoderTheorems {
  import opened Prelude
  import opened Wire
  import opened Decode
  import opened Parsing
  import opened Records
  import opened RoundTrip
  import D = Decoder

  // ---- isolation ----

  predicate Foreign(k: Key, a: Arrival) { k.exporter != a.exporter || k.domain != a.domain }

  // A template that had not expired went because the cache was too full, and none of the others' that
  // stayed had been out of use for longer.
  ghost predicate Crowded(c: Cache, c': Cache, a: Arrival, k: Key)
    requires k in c.entries
  {
    && |c.entries| + (c'.puts - c.puts) > 65536
    && forall k' | k' in c'.entries && Foreign(k', a) :: c.entries[k].lastSeen <= c'.entries[k'].lastSeen
  }

  // Templates of other exporters or domains are as they were, expired, or crowded out.
  ghost predicate Fair(c: Cache, c': Cache, a: Arrival) {
    && c.puts <= c'.puts && |c'.entries| <= |c.entries| + (c'.puts - c.puts)
    && (forall k | k in c'.entries && Foreign(k, a) :: k in c.entries && c'.entries[k] == c.entries[k])
    && (forall k | k in c.entries && k !in c'.entries && Foreign(k, a) && !D.Expired(c.entries[k], a.now) ::
       Crowded(c, c', a, k))
  }

  lemma FairTwice(c: Cache, c1: Cache, c2: Cache, a: Arrival)
    requires Fair(c, c1, a) && Fair(c1, c2, a)
    ensures Fair(c, c2, a)
  {
    forall k | k in c.entries && k !in c2.entries && Foreign(k, a) && !D.Expired(c.entries[k], a.now)
      ensures Crowded(c, c2, a, k)
    {
      if k in c1.entries { assert Crowded(c1, c2, a, k); } else { assert Crowded(c, c1, a, k); }
    }
  }

  lemma PutFair(c: Cache, key: Key, t: Template, a: Arrival, sweeps: Sweeps, c': Cache)
    requires !Foreign(key, a) && D.LawfulPut(c, key, t, a.now, sweeps) && c' == Put(c, key, t, a.now, sweeps)
    ensures Fair(c, c', a)
  {
    var after, gone := c.entries[key := Entry(t, a.now)], sweeps(c.puts);
    assert after.Keys == c.entries.Keys + {key};
    assert c'.entries == after - gone && c'.entries.Keys == after.Keys - gone;
    SubsetSmaller(c'.entries.Keys, after.Keys);
    forall k | k in c.entries && k !in c'.entries && Foreign(k, a) && !D.Expired(c.entries[k], a.now)
      ensures Crowded(c, c', a, k)
    {
      CrowdedOut(c, after, gone, c', a, k);
    }
  }

  lemma CrowdedOut(c: Cache, after: map<Key, Entry>, gone: set<Key>, c': Cache, a: Arrival, k: Key)
    requires k in c.entries && k in after && after[k] == c.entries[k] && k in gone && !D.Expired(after[k], a.now)
    requires D.SweepOk(after, gone, a.now) && c'.entries == after - gone && c'.puts == c.puts + 1
      && |after| <= |c.entries| + 1
    ensures Crowded(c, c', a, k)
  {
    var kept := after.Keys - gone;
    assert |kept| == MAX_TEMPLATES && D.OldestOf(after, kept, after[k].lastSeen);
    SubsetSmaller(kept + {k}, after.Keys);
  }

  lemma OneFair(c: Cache, item: Item, a: Arrival, sweeps: Sweeps, c': Cache)
    requires D.LawfulOne(c, a, item, sweeps) && c' == StoreOne(c, a.exporter, a.domain, item, a.now, sweeps)
    ensures Fair(c, c', a)
  {
    var key := Key(a.exporter, a.domain, item.id);
    if item.Define? {
      PutFair(c, key, item.t, a, sweeps, c');
    } else {
      assert c'.entries.Keys == c.entries.Keys - {key};
      SubsetSmaller(c'.entries.Keys, c.entries.Keys);
    }
  }

  lemma FairItself(c: Cache, a: Arrival)
    ensures Fair(c, c, a)
  {
  }

  lemma {:induction false} ItemsFair(c: Cache, items: seq<Item>, a: Arrival, sweeps: Sweeps, c': Cache)
    requires D.LawfulItems(c, a, items, sweeps) && c' == Store(c, a.exporter, a.domain, items, a.now, sweeps)
    ensures Fair(c, c', a)
    decreases |items|
  {
    if items == [] {
      FairItself(c, a);
    } else {
      var c1 := StoreOne(c, a.exporter, a.domain, items[0], a.now, sweeps);
      OneFair(c, items[0], a, sweeps, c1);
      ItemsFair(c1, items[1..], a, sweeps, c');
      FairTwice(c, c1, c', a);
    }
  }

  lemma LearnIsStore(d: Dialect, c: Cache, a: Arrival, id: nat, body: Bytes, sweeps: Sweeps)
    ensures LearnSet(d, c, a, id, body, sweeps) == Store(c, a.exporter, a.domain, D.ItemsIn(d, id, body), a.now, sweeps)
  {
  }

  lemma DataFair(d: Dialect, c: Cache, a: Arrival, id: nat, body: Bytes, n: nat, out: Out)
    requires out == DataFlows(d, c, a, id, body, n)
    ensures Fair(c, out.cache, a) && |out.flows| <= n
  {
    var key := Key(a.exporter, a.domain, id);
    if key in c.entries {
      EmitCapped(d, c.entries[key].t, body, n, a.ctx);
      assert out.cache.entries.Keys == c.entries.Keys;
    }
  }

  // The first set of a lawful rest, and what comes then.
  lemma LearnFair(d: Dialect, a: Arrival, c: Cache, rest: Bytes, budget: nat, sweeps: Sweeps, next: Bytes, c1: Cache,
                  law: Law)
    requires Says(d, a, sweeps, law) && law(c, rest, budget) && WholeSet(rest) && U16(rest, 0) < DATA_MIN
    requires next == rest[U16(rest, 2)..] && c1 == LearnSet(d, c, a, U16(rest, 0), SetBody(rest), sweeps)
    ensures Fair(c, c1, a) && law(c1, next, budget)
  {
    assert Here(c, rest, budget) && Here(c1, next, budget);
    LearnIsStore(d, c, a, U16(rest, 0), SetBody(rest), sweeps);
    ItemsFair(c, D.ItemsIn(d, U16(rest, 0), SetBody(rest)), a, sweeps, c1);
  }

  lemma ReadFair(d: Dialect, a: Arrival, c: Cache, rest: Bytes, budget: nat, sweeps: Sweeps, next: Bytes, one: Out,
                 law: Law)
    requires Says(d, a, sweeps, law) && law(c, rest, budget) && WholeSet(rest) && U16(rest, 0) >= DATA_MIN
    requires next == rest[U16(rest, 2)..] && one == DataFlows(d, c, a, U16(rest, 0), SetBody(rest), budget)
    ensures Fair(c, one.cache, a) && |one.flows| <= budget
    ensures |one.flows| < budget ==> law(one.cache, next, budget - |one.flows|)
  {
    assert Here(c, rest, budget);
    if |one.flows| < budget { assert Here(one.cache, next, budget - |one.flows|); }
    DataFair(d, c, a, U16(rest, 0), SetBody(rest), budget, one);
  }

  // Where a law is unfolded, and nowhere else.
  predicate Here(c: Cache, rest: Bytes, n: nat) { true }

  type Law = (Cache, Bytes, nat) -> bool

  // The law says that the rest of a datagram is lawful.
  ghost predicate Says(d: Dialect, a: Arrival, sweeps: Sweeps, law: Law) {
    forall c, rest, n: nat {:trigger Here(c, rest, n)} :: Here(c, rest, n) ==>
      law(c, rest, n) == D.LawfulSets(d, a, c, rest, n, sweeps)
  }

  lemma LawOf(d: Dialect, a: Arrival, sweeps: Sweeps, c: Cache, rest: Bytes, n: nat) returns (law: Law)
    ensures Says(d, a, sweeps, law) && law(c, rest, n) == D.LawfulSets(d, a, c, rest, n, sweeps)
  {
    law := (e: Cache, more: Bytes, m: nat) => D.LawfulSets(d, a, e, more, m, sweeps);
  }

  // Whatever relation each set keeps between the caches before and after it, the datagram keeps.
  type Relation = (Cache, Cache) -> bool

  predicate Via(x: Cache, y: Cache, z: Cache) { true }

  ghost predicate Chains(rel: Relation) {
    && (forall x {:trigger rel(x, x)} :: rel(x, x))
    && (forall x, y, z {:trigger Via(x, y, z)} :: Via(x, y, z) && rel(x, y) && rel(y, z) ==> rel(x, z))
  }

  ghost predicate KeepsOne(rd: Reader, law: Law, rel: Relation, c: Cache, rest: Bytes, n: nat)
    requires WholeSet(rest)
  {
    var id, body, next := U16(rest, 0), SetBody(rest), rest[U16(rest, 2)..];
    if id < DATA_MIN then rel(c, rd.learn(c, id, body)) && law(rd.learn(c, id, body), next, n)
    else
      var one := rd.data(c, id, body, n);
      rel(c, one.cache) && |one.flows| <= n && (|one.flows| < n ==> law(one.cache, next, n - |one.flows|))
  }

  ghost predicate Keeps(rd: Reader, law: Law, rel: Relation) {
    forall c, rest, n: nat {:trigger Here(c, rest, n)} :: Here(c, rest, n) && law(c, rest, n) && WholeSet(rest) ==>
      KeepsOne(rd, law, rel, c, rest, n)
  }

  lemma {:induction false} SetsKeep(rd: Reader, law: Law, rel: Relation, c: Cache, rest: Bytes, n: nat, out: Out)
    requires Chains(rel) && Keeps(rd, law, rel) && law(c, rest, n) && out == DecodeSets(rd, c, rest, n)
    ensures rel(c, out.cache) && |out.flows| <= n
    decreases |rest|
  {
    if WholeSet(rest) {
      assert Here(c, rest, n);
      var id, body, next := U16(rest, 0), SetBody(rest), rest[U16(rest, 2)..];
      if id < DATA_MIN {
        var c1 := rd.learn(c, id, body);
        SetsKeep(rd, law, rel, c1, next, n, DecodeSets(rd, c1, next, n));
        assert Via(c, c1, out.cache);
      } else {
        var one := rd.data(c, id, body, n);
        if |one.flows| < n {
          var more := DecodeSets(rd, one.cache, next, n - |one.flows|);
          SetsKeep(rd, law, rel, one.cache, next, n - |one.flows|, more);
          assert Via(c, one.cache, more.cache);
        }
      }
    }
  }

  lemma FairKept(d: Dialect, a: Arrival, sweeps: Sweeps, rd: Reader, law: Law, rel: Relation)
    requires rd == ReaderOf(d, a, sweeps) && Says(d, a, sweeps, law) && forall x, y :: rel(x, y) == Fair(x, y, a)
    ensures Chains(rel) && Keeps(rd, law, rel)
  {
    forall x ensures rel(x, x) { FairItself(x, a); }
    forall x, y, z | rel(x, y) && rel(y, z) ensures rel(x, z) { FairTwice(x, y, z, a); }
    forall c, rest, n: nat | law(c, rest, n) && WholeSet(rest) ensures KeepsOne(rd, law, rel, c, rest, n) {
      var id, body, next := U16(rest, 0), SetBody(rest), rest[U16(rest, 2)..];
      if id < DATA_MIN {
        LearnFair(d, a, c, rest, n, sweeps, next, rd.learn(c, id, body), law);
      } else {
        ReadFair(d, a, c, rest, n, sweeps, next, rd.data(c, id, body, n), law);
      }
    }
  }

  lemma {:induction false} EmitCapped(d: Dialect, t: Template, body: Bytes, limit: nat, ctx: Context)
    ensures |EmitFixed(d, t, body, limit, ctx)| <= limit && |EmitVar(d, t, body, limit, ctx)| <= limit
    decreases limit
  {
    if limit > 0 {
      if 0 < t.recordLen <= |body| { EmitCapped(d, t, body[t.recordLen..], limit - 1, ctx); }
      var r := DecodeRecord(d, body, t.fields, ctx);
      if r.Some? { EmitCapped(d, t, body[r.value.1..], limit - 1, ctx); }
    }
  }

  // Main result: a datagram, whatever its bytes, never yields more than the cap, and touches another
  // exporter's or domain's template only by evicting it: because it has expired, or because the cache was
  // too full and no other of theirs that stayed had been out of use for longer.
  lemma DatagramConfined(d: Dialect, c: Cache, payload: Bytes, exporter: Bytes, now: int, sweeps: Sweeps, res: Result)
    requires res == DecodePacket(d, c, payload, exporter, now, sweeps) && res.Decoded?
    requires D.LawfulPacket(d, c, payload, exporter, now, sweeps)
    ensures |res.out.flows| <= 8192
    ensures |payload| >= HeaderLen(d)
    ensures Fair(c, res.out.cache, Arrival(exporter, DomainOf(d, payload), now, Context(exporter, BaseOf(d, payload))))
  {
    var a := Arrival(exporter, DomainOf(d, payload), now, Context(exporter, BaseOf(d, payload)));
    var rest := payload[HeaderLen(d)..EndOf(d, payload)];
    var law := LawOf(d, a, sweeps, c, rest, MAX_RECORDS);
    var rel: Relation := (x, y) => Fair(x, y, a);
    FairKept(d, a, sweeps, ReaderOf(d, a, sweeps), law, rel);
    SetsKeep(ReaderOf(d, a, sweeps), law, rel, c, rest, MAX_RECORDS, res.out);
  }

  // A template of the exporter and domain that a payload is from.
  predicate Own(k: Key, d: Dialect, payload: Bytes, exporter: Bytes) {
    |payload| >= HeaderLen(d) && k.exporter == exporter && k.domain == DomainOf(d, payload)
  }

  // Main result: the same of the decoder in place, in terms of its own templates.
  method DecodeIsolated(dec: D.Decoder, dst: seq<Flow>, payload: Bytes, exporter: Bytes, now: int)
      returns (flows: seq<Flow>)
    requires dec.Valid() && now < D.MAX_INT64
    modifies dec
    ensures dec.Valid() && dst <= flows && |flows| <= |dst| + 8192
    ensures forall k | k in dec.templates && !Own(k, dec.d, payload, exporter) ::
      k in old(dec.templates) && dec.templates[k] == old(dec.templates)[k]
    ensures forall k | k in old(dec.templates) && k !in dec.templates && !Own(k, dec.d, payload, exporter) ::
      || now - old(dec.templates)[k].lastSeen > 1_800_000_000_000
      || (&& |old(dec.templates)| + (|dec.removed| - |old(dec.removed)|) > 65536
          && forall k' | k' in dec.templates && !Own(k', dec.d, payload, exporter) ::
               old(dec.templates)[k].lastSeen <= dec.templates[k'].lastSeen)
  {
    ghost var c := dec.State();
    ghost var res;
    flows, res := dec.Decode(dst, payload, exporter, now);
    ghost var sweeps := D.OracleExists(dec.removed);
    if res.Decoded? {
      DatagramConfined(dec.d, c, payload, exporter, now, sweeps, res);
      ghost var a := Arrival(exporter, DomainOf(dec.d, payload), now, Context(exporter, BaseOf(dec.d, payload)));
      forall k ensures Own(k, dec.d, payload, exporter) <==> !Foreign(k, a) { }
      forall k | k in c.entries && k !in dec.templates && Foreign(k, a) && !D.Expired(c.entries[k], now)
        ensures Crowded(c, dec.State(), a, k) { }
    }
  }

  // ---- the templates a datagram defines ----

  function OurKey(a: Arrival, id: nat): Key { Key(a.exporter, a.domain, id) }

  function StoredOne(c: Cache, a: Arrival, item: Item, sweeps: Sweeps): Cache {
    StoreOne(c, a.exporter, a.domain, item, a.now, sweeps)
  }

  // What one set stores; folded.
  ghost predicate Uses(d: Dialect, b: Block, before: nat, after: nat) {
    forall x: int {:trigger Folded(x)} :: Folded(x) ==> before == PutsOf(BlockItems(d, b)) + after
  }

  // `left[k]` templates are stored by the sets from the k-th on.
  ghost predicate Counts(d: Dialect, bs: seq<Block>, left: seq<nat>) {
    && |left| == |bs| + 1 && left[|bs|] == 0
    && forall k {:trigger bs[k]} | 0 <= k < |bs| :: Uses(d, bs[k], left[k], left[k + 1])
  }

  // Templates seen now or later.
  function Recent(entries: map<Key, Entry>, now: int): set<Key> {
    set k | k in entries && entries[k].lastSeen >= now
  }

  predicate InUse(a: Arrival, book: Book, entries: map<Key, Entry>) {
    forall id | id in book :: OurKey(a, id) in entries && entries[OurKey(a, id)].lastSeen == a.now
  }

  // The templates in use were seen now, and there is room for `more` besides all recent ones.
  ghost predicate Roomy(a: Arrival, book: Book, c: Cache, more: nat) {
    InUse(a, book, c.entries) && |c.entries| <= MAX_TEMPLATES && |Recent(c.entries, a.now)| + more <= MAX_TEMPLATES
  }

  lemma RecentGrows(entries: map<Key, Entry>, key: Key, t: Template, now: int, after: map<Key, Entry>)
    requires after == entries[key := Entry(t, now)]
    ensures |Recent(after, now)| <= |Recent(entries, now)| + 1 && |after| <= |entries| + 1
    ensures |after| > |Recent(after, now)| ==> exists k :: k in after && after[k].lastSeen < now
  {
    SubsetSmaller(Recent(after, now), Recent(entries, now) + {key});
    assert after.Keys == entries.Keys + {key};
    if forall k | k in after :: after[k].lastSeen >= now { assert Recent(after, now) == after.Keys; }
  }

  lemma RecentShrinks(entries: map<Key, Entry>, gone: set<Key>, now: int)
    ensures |Recent(entries - gone, now)| <= |Recent(entries, now)| && (entries - gone).Keys == entries.Keys - gone
    ensures |entries - gone| <= |entries|
  {
    SubsetSmaller(Recent(entries - gone, now), Recent(entries, now));
    SubsetSmaller((entries - gone).Keys, entries.Keys);
  }

  // A lawful put spares what is in use, as long as not everything is recent.
  lemma PutSpares(a: Arrival, book: Book, id: nat, t: Template, c: Cache, sweeps: Sweeps, more: nat,
                  after: map<Key, Entry>)
    requires Roomy(a, book, c, more + 1) && D.LawfulPut(c, OurKey(a, id), t, a.now, sweeps)
    requires after == c.entries[OurKey(a, id) := Entry(t, a.now)]
    ensures Spared(a, book[id := t], sweeps(c.puts))
  {
    RecentGrows(c.entries, OurKey(a, id), t, a.now, after);
    forall i | i in book[id := t] ensures OurKey(a, i) !in sweeps(c.puts) {
      assert OurKey(a, i) in after && after[OurKey(a, i)].lastSeen == a.now;
      if SweepDue(c, after, a.now) { D.FreshSurvives(after, OurKey(a, i), sweeps(c.puts), a.now); }
    }
  }

  lemma PutKeepsRoom(a: Arrival, book: Book, id: nat, t: Template, c: Cache, sweeps: Sweeps, more: nat,
                     after: map<Key, Entry>, c1: Cache)
    requires Roomy(a, book, c, more + 1) && D.LawfulPut(c, OurKey(a, id), t, a.now, sweeps)
    requires after == c.entries[OurKey(a, id) := Entry(t, a.now)] && c1 == Put(c, OurKey(a, id), t, a.now, sweeps)
    requires Spared(a, book[id := t], sweeps(c.puts))
    ensures Roomy(a, book[id := t], c1, more)
  {
    PutSize(c, OurKey(a, id), t, a.now, sweeps, after, c1.entries);
    PutInUse(a, book, id, t, c.entries, after, sweeps(c.puts), c1.entries);
  }

  lemma PutInUse(a: Arrival, book: Book, id: nat, t: Template, before: map<Key, Entry>, after: map<Key, Entry>,
                 gone: set<Key>, left: map<Key, Entry>)
    requires InUse(a, book, before) && after == before[OurKey(a, id) := Entry(t, a.now)] && left == after - gone
      && Spared(a, book[id := t], gone)
    ensures InUse(a, book[id := t], left)
  {
    forall i | i in book[id := t] ensures OurKey(a, i) in left && left[OurKey(a, i)].lastSeen == a.now {
      assert OurKey(a, i) !in gone;
    }
  }

  lemma PutSize(c: Cache, key: Key, t: Template, now: int, sweeps: Sweeps, after: map<Key, Entry>,
                entries: map<Key, Entry>)
    requires |c.entries| <= MAX_TEMPLATES && D.LawfulPut(c, key, t, now, sweeps)
      && after == c.entries[key := Entry(t, now)]
    requires entries == Put(c, key, t, now, sweeps).entries
    ensures entries == after - sweeps(c.puts) && |entries| <= MAX_TEMPLATES
      && |Recent(entries, now)| <= |Recent(c.entries, now)| + 1
  {
    RecentGrows(c.entries, key, t, now, after);
    RecentShrinks(after, sweeps(c.puts), now);
    assert entries == after - sweeps(c.puts);
    assert |entries| == |entries.Keys|;
  }

  lemma WithdrawKeepsRoom(a: Arrival, book: Book, id: nat, c: Cache, more: nat, c1: Cache)
    requires Roomy(a, book, c, more) && c1 == c.(entries := c.entries - {OurKey(a, id)})
    ensures Roomy(a, book - {id}, c1, more)
  {
    RecentShrinks(c.entries, {OurKey(a, id)}, a.now);
  }

  lemma {:induction false} ItemsKeepRoom(a: Arrival, book: Book, items: seq<Item>, c: Cache, sweeps: Sweeps,
                                         more: nat, c': Cache)
    requires Roomy(a, book, c, PutsOf(items) + more) && D.LawfulItems(c, a, items, sweeps)
    requires c' == Store(c, a.exporter, a.domain, items, a.now, sweeps)
    ensures SparesItems(a, book, items, sweeps, c.puts)
    ensures Roomy(a, EnterAll(book, items), c', more) && c'.puts == c.puts + PutsOf(items)
    decreases |items|
  {
    if items != [] {
      var c1, book1 := StoredOne(c, a, items[0], sweeps), Enter(book, items[0]);
      LawfulUnfold(c, a, items, sweeps, c1);
      ItemKeepsRoom(a, book, items[0], c, sweeps, PutsOf(items[1..]) + more, c1, book1);
      ItemsKeepRoom(a, book1, items[1..], c1, sweeps, more, c');
      SparesCons(a, book, items, sweeps, c.puts, book1, c1.puts);
    }
  }

  lemma LawfulUnfold(c: Cache, a: Arrival, items: seq<Item>, sweeps: Sweeps, c1: Cache)
    requires items != [] && D.LawfulItems(c, a, items, sweeps) && c1 == StoredOne(c, a, items[0], sweeps)
    ensures (items[0].Define? ==> D.LawfulPut(c, OurKey(a, items[0].id), items[0].t, a.now, sweeps))
      && D.LawfulItems(c1, a, items[1..], sweeps)
    ensures PutsOf(items) == PutsOf(items[1..]) + if items[0].Withdraw? then 0 else 1
    ensures Store(c, a.exporter, a.domain, items, a.now, sweeps)
            == Store(c1, a.exporter, a.domain, items[1..], a.now, sweeps)
  {
  }

  lemma SparesCons(a: Arrival, book: Book, items: seq<Item>, sweeps: Sweeps, n: nat, book1: Book, n1: nat)
    requires items != [] && book1 == Enter(book, items[0]) && n1 == n + if items[0].Withdraw? then 0 else 1
    requires (items[0].Define? ==> Spared(a, book1, sweeps(n))) && SparesItems(a, book1, items[1..], sweeps, n1)
    ensures SparesItems(a, book, items, sweeps, n) && EnterAll(book, items) == EnterAll(book1, items[1..])
  {
  }

  lemma ItemKeepsRoom(a: Arrival, book: Book, item: Item, c: Cache, sweeps: Sweeps, left: nat, c1: Cache, book1: Book)
    requires Roomy(a, book, c, left + if item.Withdraw? then 0 else 1)
    requires item.Define? ==> D.LawfulPut(c, OurKey(a, item.id), item.t, a.now, sweeps)
    requires c1 == StoredOne(c, a, item, sweeps) && book1 == Enter(book, item)
    ensures Roomy(a, book1, c1, left) && c1.puts == c.puts + if item.Withdraw? then 0 else 1
    ensures item.Define? ==> Spared(a, book1, sweeps(c.puts))
  {
    if item.Define? {
      var after := c.entries[OurKey(a, item.id) := Entry(item.t, a.now)];
      PutSpares(a, book, item.id, item.t, c, sweeps, left, after);
      PutKeepsRoom(a, book, item.id, item.t, c, sweeps, left, after, c1);
    } else {
      WithdrawKeepsRoom(a, book, item.id, c, left, c1);
    }
  }

  lemma TouchKeepsRoom(a: Arrival, book: Book, id: nat, c: Cache, more: nat, c1: Cache)
    requires Roomy(a, book, c, more) && id in book && c1 == Touch(c, OurKey(a, id), a.now)
    ensures Roomy(a, book, c1, more)
  {
    assert c1.entries == c.entries;
  }

  lemma BlockKeepsRoom(d: Dialect, a: Arrival, book: Book, b: Block, c: Cache, sweeps: Sweeps, more: nat, c': Cache)
    requires BlockOk(d, book, b) && Roomy(a, book, c, PutsOf(BlockItems(d, b)) + more)
      && D.LawfulItems(c, a, BlockItems(d, b), sweeps)
    requires c' == AfterBlock(d, a, b, c, sweeps)
    ensures SparesItems(a, book, BlockItems(d, b), sweeps, c.puts)
    ensures Roomy(a, EnterAll(book, BlockItems(d, b)), c', more) && c'.puts == c.puts + PutsOf(BlockItems(d, b))
  {
    if b.Rows? {
      TouchKeepsRoom(a, book, b.id, c, more, c');
    } else {
      ItemsKeepRoom(a, book, BlockItems(d, b), c, sweeps, more, c');
    }
  }

  // What is left of a lawful datagram after its first set is lawful.
  lemma AfterLearning(d: Dialect, a: Arrival, c: Cache, id: nat, body: Bytes, rest: Bytes, n: nat,
                      sweeps: Sweeps, law: Law, c1: Cache)
    requires id < DATA_MIN && 4 + |body| < 0x1_0000 && Says(d, a, sweeps, law) && law(c, SetBytes(id, body) + rest, n)
    requires c1 == LearnSet(d, c, a, id, body, sweeps)
    ensures D.LawfulItems(c, a, D.ItemsIn(d, id, body), sweeps) && law(c1, rest, n)
  {
    SetRead(id, body, rest);
    assert Here(c, SetBytes(id, body) + rest, n) && Here(c1, rest, n);
  }

  lemma AfterReading(d: Dialect, a: Arrival, c: Cache, id: nat, body: Bytes, rest: Bytes, n: nat,
                     sweeps: Sweeps, law: Law, out: Out)
    requires DATA_MIN <= id < 0x1_0000 && 4 + |body| < 0x1_0000 && Says(d, a, sweeps, law)
      && law(c, SetBytes(id, body) + rest, n)
    requires out == DataFlows(d, c, a, id, body, n) && |out.flows| < n
    ensures law(out.cache, rest, n - |out.flows|)
  {
    SetRead(id, body, rest);
    assert Here(c, SetBytes(id, body) + rest, n) && Here(out.cache, rest, n - |out.flows|);
  }

  // A written set says what its block does.
  lemma BlockSays(d: Dialect, book: Book, b: Block)
    requires BlockOk(d, book, b) && !b.Rows?
    ensures BlockId(d, b) < DATA_MIN && D.ItemsIn(d, BlockId(d, b), BlockBody(d, book, b)) == BlockItems(d, b)
  {
    if b.Defines? { TemplatesParsed(d, b.ts, b.pad); }
  }

  // Before a set, with n records to go: what is known, what there is room for, and that the rest is lawful.
  ghost predicate Ready(a: Arrival, book: Book, c: Cache, more: nat, rest: Bytes, n: nat, law: Law) {
    Knows(a, book, c) && Roomy(a, book, c, more) && law(c, rest, n)
  }

  // A template, options or reserved set.
  lemma ReadyLearned(d: Dialect, a: Arrival, book: Book, b: Block, step: Step, c: Cache, sweeps: Sweeps, rest: Bytes,
                     n: nat, more: nat, c1: Cache, law: Law)
    requires BlockOk(d, book, b) && !b.Rows? && step == StepFor(d, book, b, a.ctx) && Says(d, a, sweeps, law)
    requires step.id < 0x1_0000 && 4 + |step.body| < 0x1_0000 && c1 == AfterBlock(d, a, b, c, sweeps)
    requires Ready(a, book, c, PutsOf(BlockItems(d, b)) + more, SetBytes(step.id, step.body) + rest, n, law)
    ensures Ready(a, EnterAll(book, BlockItems(d, b)), c1, more, rest, n, law)
  {
    BlockSays(d, book, b);
    LearnIsStore(d, c, a, step.id, step.body, sweeps);
    AfterLearning(d, a, c, step.id, step.body, rest, n, sweeps, law, c1);
    BlockKeepsRoom(d, a, book, b, c, sweeps, more, c1);
    BlockKnown(d, a, book, b, BlockItems(d, b), c, sweeps, c1);
  }

  // A data set.
  lemma ReadyRead(d: Dialect, a: Arrival, book: Book, b: Block, step: Step, c: Cache, sweeps: Sweeps, rest: Bytes,
                  n: nat, more: nat, c1: Cache, out: Out, law: Law)
    requires BlockOk(d, book, b) && b.Rows? && step == StepFor(d, book, b, a.ctx)
      && c1 == AfterBlock(d, a, b, c, sweeps)
    requires 4 + |step.body| < 0x1_0000 && |step.flows| < n && out == DataFlows(d, c, a, step.id, step.body, n)
    requires Ready(a, book, c, more, SetBytes(step.id, step.body) + rest, n, law) && Says(d, a, sweeps, law)
    requires out == Out(Take(n, step.flows), c1)
    ensures Ready(a, book, c1, more, rest, n - |step.flows|, law)
  {
    AfterReading(d, a, c, step.id, step.body, rest, n, sweeps, law, out);
    ReadKeeps(d, a, book, b, c, sweeps, more, c1);
  }

  lemma ReadKeeps(d: Dialect, a: Arrival, book: Book, b: Block, c: Cache, sweeps: Sweeps, more: nat, c1: Cache)
    requires BlockOk(d, book, b) && b.Rows? && c1 == AfterBlock(d, a, b, c, sweeps) && Knows(a, book, c)
      && Roomy(a, book, c, more)
    ensures Knows(a, book, c1) && Roomy(a, book, c1, more)
  {
    assert Has(a, c, b.id, book[b.id]);
    TouchKeepsRoom(a, book, b.id, c, more, c1);
    StillKnown(a, book, c, b.id, c1);
  }

  lemma StillKnown(a: Arrival, book: Book, c: Cache, id: nat, c1: Cache)
    requires Knows(a, book, c) && id in book && OurKey(a, id) in c.entries && c1 == Touch(c, OurKey(a, id), a.now)
    ensures Knows(a, book, c1)
  {
    forall i | i in book ensures Has(a, c1, i, book[i]) { assert Has(a, c, i, book[i]); }
  }

  lemma ReadyNext(d: Dialect, a: Arrival, book: Book, b: Block, step: Step, c: Cache, sweeps: Sweeps, rest: Bytes,
                  n: nat, more: nat, more1: nat, c1: Cache, rd: Reader, book1: Book, law: Law)
    requires BlockOk(d, book, b) && Stands(d, book, b, step, a.ctx) && Moves(d, a, b, c, c1, sweeps)
    requires step.id < 0x1_0000 && 4 + |step.body| < 0x1_0000 && rd == ReaderOf(d, a, sweeps) && Says(d, a, sweeps, law)
    requires Uses(d, b, more, more1) && Turns(d, b, book, book1)
    requires Ready(a, book, c, more, SetBytes(step.id, step.body) + rest, n, law)
    ensures if !b.Rows? then Ready(a, book1, c1, more1, rest, n, law)
            else |step.flows| < n ==> Ready(a, book1, c1, more1, rest, n - |step.flows|, law)
  {
    assert Folded(0);
    if !b.Rows? {
      ReadyLearned(d, a, book, b, step, c, sweeps, rest, n, more1, c1, law);
    } else if |step.flows| < n {
      BlockFollowed(d, a, book, b, c, c1, sweeps, rd, step, n);
      ReadyRead(d, a, book, b, step, c, sweeps, rest, n, more, c1, rd.data(c, step.id, step.body, n), law);
    }
  }

  // The state of a lawful decoding, as the reader's progress needs it.
  ghost function GoodOf(a: Arrival, books: seq<Book>, caches: seq<Cache>, left: seq<nat>, rests: seq<Bytes>,
                        law: Law): (nat, Cache, nat) -> bool {
    (k: nat, c: Cache, n: nat) =>
      k < |caches| == |books| == |left| == |rests| && c == caches[k] && Ready(a, books[k], c, left[k], rests[k], n, law)
  }

  // `rests[k]` is the datagram from the k-th set on.
  predicate RestsOf(steps: seq<Step>, rests: seq<Bytes>) {
    && Fits(steps) && |rests| == |steps| + 1
    && forall k {:trigger rests[k]} | 0 <= k < |rests| :: rests[k] == StepBytes(steps[k..])
  }

  lemma GoodNext(d: Dialect, a: Arrival, bs: seq<Block>, books: seq<Book>, caches: seq<Cache>, sweeps: Sweeps,
                 left: seq<nat>, steps: seq<Step>, rests: seq<Bytes>, k: nat, n: nat, rd: Reader,
                 good: (nat, Cache, nat) -> bool, law: Law)
    requires Unfolds(d, a, bs, books, caches, sweeps) && BlocksOk(d, books, bs) && Counts(d, bs, left) && k < |bs|
    requires steps == StepsOf(d, books, bs, a.ctx) && rd == ReaderOf(d, a, sweeps) && Says(d, a, sweeps, law)
    requires |rests| == |bs| + 1 && rests[k] == SetBytes(steps[k].id, steps[k].body) + rests[k + 1]
    requires good == GoodOf(a, books, caches, left, rests, law) && good(k, caches[k], n)
    ensures Takes(rd, good, steps[k], k, caches[k], n)
  {
    StandsAt(d, books, bs, a.ctx, steps, k);
    var b, step, c, c1, book, book1 := bs[k], steps[k], caches[k], caches[k + 1], books[k], books[k + 1];
    assert Moves(d, a, b, c, c1, sweeps) && Turns(d, b, book, book1) && BlockOk(d, book, b);
    GoodLater(a, books, caches, left, rests, law, good, k + 1);
    ReadyNext(d, a, book, b, step, c, sweeps, rests[k + 1], n, left[k], left[k + 1], c1, rd, book1, law);
    BlockTakes(d, a, book, b, c, c1, sweeps, rd, step, k, n, good);
  }

  lemma GoodLater(a: Arrival, books: seq<Book>, caches: seq<Cache>, left: seq<nat>, rests: seq<Bytes>, law: Law,
                  good: (nat, Cache, nat) -> bool, k: nat)
    requires good == GoodOf(a, books, caches, left, rests, law) && k < |caches| == |books| == |left| == |rests|
    ensures forall n: nat :: good(k, caches[k], n) <==> Ready(a, books[k], caches[k], left[k], rests[k], n, law)
  {
  }

  lemma LawfulFollowed(d: Dialect, a: Arrival, bs: seq<Block>, books: seq<Book>, caches: seq<Cache>, sweeps: Sweeps,
                       left: seq<nat>, steps: seq<Step>, rests: seq<Bytes>, rd: Reader,
                       good: (nat, Cache, nat) -> bool, law: Law)
    requires Unfolds(d, a, bs, books, caches, sweeps) && BlocksOk(d, books, bs) && Counts(d, bs, left)
    requires steps == StepsOf(d, books, bs, a.ctx) && rd == ReaderOf(d, a, sweeps) && Says(d, a, sweeps, law)
    requires RestsOf(steps, rests) && good == GoodOf(a, books, caches, left, rests, law)
    ensures Follows(rd, good, steps)
  {
    forall k: nat, c, n: nat | k < |steps| && good(k, c, n) ensures Takes(rd, good, steps[k], k, c, n) {
      BytesFrom(steps, k);
      GoodNext(d, a, bs, books, caches, sweeps, left, steps, rests, k, n, rd, good, law);
    }
  }

  lemma LawfulDecoded(d: Dialect, a: Arrival, bs: seq<Block>, books: seq<Book>, caches: seq<Cache>,
                      sweeps: Sweeps, left: seq<nat>, steps: seq<Step>, rd: Reader, law: Law)
    requires Unfolds(d, a, bs, books, caches, sweeps) && BlocksOk(d, books, bs) && Counts(d, bs, left)
    requires steps == StepsOf(d, books, bs, a.ctx) && rd == ReaderOf(d, a, sweeps) && Says(d, a, sweeps, law)
    requires Ready(a, books[0], caches[0], left[0], StepBytes(steps), MAX_RECORDS, law)
    ensures DecodeSets(rd, caches[0], StepBytes(steps), MAX_RECORDS).flows == Take(MAX_RECORDS, StepFlows(steps))
  {
    var rests := seq(|steps| + 1, k requires 0 <= k <= |steps| => StepBytes(steps[k..]));
    var good := GoodOf(a, books, caches, left, rests, law);
    LawfulFollowed(d, a, bs, books, caches, sweeps, left, steps, rests, rd, good, law);
    assert steps[0..] == steps;
    StepsDecoded(rd, good, steps, 0, steps, caches[0], MAX_RECORDS);
  }

  // A written datagram, and where it comes from.
  ghost predicate Written(d: Dialect, h: Heading, bs: seq<Block>, books: seq<Book>, data: Bytes, a: Arrival) {
    && BookChain(d, bs, books) && books[0] == map[] && BlocksOk(d, books, bs) && data == EncodeBlocks(d, books, bs)
    && Wide(h) && (d.Ipfix? ==> 16 + |data| < 0x1_0000) && a == ArrivalFor(d, h, a.exporter, a.now)
  }

  lemma LawOpened(d: Dialect, p: Bytes, data: Bytes, a: Arrival, c: Cache, sweeps: Sweeps)
    requires |p| >= HeaderLen(d) && U16(p, 0) == Version(d) && p[HeaderLen(d)..EndOf(d, p)] == data
    requires a == Arrival(a.exporter, DomainOf(d, p), a.now, Context(a.exporter, BaseOf(d, p)))
    requires D.LawfulPacket(d, c, p, a.exporter, a.now, sweeps)
    ensures D.LawfulSets(d, a, c, data, MAX_RECORDS, sweeps)
  {
  }

  // Main result: round trip without conditions on evictions beyond the rule itself.  A datagram that
  // defines all the templates it uses yields the records written in it, whatever the decoder knew
  // before, as long as the templates seen at this very instant and those of the datagram fit the cap.
  lemma RoundTripDespiteSweep(d: Dialect, h: Heading, bs: seq<Block>, books: seq<Book>, data: Bytes, c: Cache,
                              a: Arrival,
                              sweeps: Sweeps, left: seq<nat>)
    requires Written(d, h, bs, books, data, a) && D.LawfulPacket(d, c, Enclose(d, h, data), a.exporter, a.now, sweeps)
    requires Counts(d, bs, left) && |c.entries| <= 65536 && |Recent(c.entries, a.now)| + left[0] <= 65536
    ensures var res := DecodePacket(d, c, Enclose(d, h, data), a.exporter, a.now, sweeps);
      res.Decoded? && res.out.flows == Take(8192, BlocksFlows(d, books, bs, a.ctx))
  {
    var p := Enclose(d, h, data);
    Opened(d, h, data, a.exporter, a.now, p, a);
    SetsRead(d, p, data, a.exporter, a.now, a, c, sweeps);
    LawOpened(d, p, data, a, c, sweeps);
    var steps := StepsOf(d, books, bs, a.ctx);
    SameBytes(StepsOf(d, books, bs, Context([], 0)), steps);
    var caches := ChainExists(d, a, bs, c, sweeps);
    var law := LawOf(d, a, sweeps, c, StepBytes(steps), MAX_RECORDS);
    LawfulDecoded(d, a, bs, books, caches, sweeps, left, steps, ReaderOf(d, a, sweeps), law);
  }

  // Main result: and so does the decoder in place.
  method DecodeWritten(dec: D.Decoder, dst: seq<Flow>, h: Heading, ghost bs: seq<Block>, ghost books: seq<Book>,
                       data: Bytes, a: Arrival, ghost left: seq<nat>) returns (flows: seq<Flow>)
    requires dec.Valid() && a.now < D.MAX_INT64 && Written(dec.d, h, bs, books, data, a)
    requires Counts(dec.d, bs, left) && |dec.templates| <= 65536 && |Recent(dec.templates, a.now)| + left[0] <= 65536
    modifies dec
    ensures dec.Valid() && flows == dst + Take(8192, BlocksFlows(dec.d, books, bs, a.ctx))
  {
    ghost var c := dec.State();
    ghost var res;
    flows, res := dec.Decode(dst, Enclose(dec.d, h, data), a.exporter, a.now);
    ghost var sweeps := D.OracleExists(dec.removed);
    RoundTripDespiteSweep(dec.d, h, bs, books, data, c, a, sweeps, left);
  }

  // ---- saved templates ----

  datatype Saved = Saved(key: Key, t: Template)

  // Each cached template once.
  ghost predicate Dumped(templates: map<Key, Entry>, list: seq<Saved>) {
    && (forall k | k in templates :: Saved(k, templates[k].t) in list)
    && (forall i | 0 <= i < |list| :: list[i].key in templates && list[i].t == templates[list[i].key].t)
  }

  function LoadAll(templates: map<Key, Entry>, list: seq<Saved>, now: int): map<Key, Entry>
    decreases |list|
  {
    if list == [] then templates
    else LoadAll(templates, list[..|list| - 1], now)[list[|list| - 1].key := Entry(list[|list| - 1].t, now)]
  }

  lemma {:induction false} LoadedAt(templates: map<Key, Entry>, saved: map<Key, Entry>, list: seq<Saved>, now: int)
    requires forall i | 0 <= i < |list| :: list[i].key in saved && list[i].t == saved[list[i].key].t
    ensures var r := LoadAll(templates, list, now);
      && (forall i | 0 <= i < |list| :: list[i].key in r && r[list[i].key] == Entry(list[i].t, now))
      && (forall k | k in r ::
        (exists i :: 0 <= i < |list| && list[i].key == k)
         || (k in templates && r[k] == templates[k]))
    decreases |list|
  {
    if list != [] {
      var n := |list| - 1;
      LoadedAt(templates, saved, list[..n], now);
      var before, r := LoadAll(templates, list[..n], now), LoadAll(templates, list, now);
      forall i | 0 <= i < |list| ensures list[i].key in r && r[list[i].key] == Entry(list[i].t, now) {
        if i < n { assert list[..n][i] == list[i]; }
      }
      forall k | k in r
        ensures (exists i :: 0 <= i < |list| && list[i].key == k) || (k in templates && r[k] == templates[k])
      {
        if k == list[n].key {
          assert list[n].key == k;
        } else if i :| 0 <= i < n && list[..n][i].key == k {
          assert list[i].key == k;
        }
      }
    }
  }

  // Main result: a restarted decoder knows the templates the old one saved, all seen now.
  lemma DumpThenLoad(saved: map<Key, Entry>, list: seq<Saved>, now: int, r: map<Key, Entry>)
    requires Dumped(saved, list) && r == LoadAll(map[], list, now)
    ensures r.Keys == saved.Keys && forall k | k in saved :: r[k] == Entry(saved[k].t, now)
  {
    LoadedAt(map[], saved, list, now);
    forall k | k in saved ensures k in r && r[k] == Entry(saved[k].t, now) {
      var i :| 0 <= i < |list| && list[i] == Saved(k, saved[k].t);
    }
  }

  method DumpTemplates(dec: D.Decoder) returns (list: seq<Saved>)
    ensures Dumped(dec.templates, list)
  {
    list := [];
    var todo := dec.templates.Keys;
    while todo != {}
      invariant todo <= dec.templates.Keys
      invariant forall k | k in dec.templates && k !in todo :: Saved(k, dec.templates[k].t) in list
      invariant forall i | 0 <= i < |list| :: list[i].key in dec.templates && list[i].t == dec.templates[list[i].key].t
      decreases |todo|
    {
      var k :| k in todo;
      list := list + [Saved(k, dec.templates[k].t)];
      todo := todo - {k};
    }
  }

  // Loading keeps the decoder able to follow its templates without running off a record.
  method LoadTemplates(dec: D.Decoder, list: seq<Saved>, now: int)
    requires dec.Valid() && now < D.MAX_INT64 && forall i | 0 <= i < |list| :: TemplateOk(dec.d, list[i].t)
    modifies dec
    ensures dec.Valid() && dec.templates == LoadAll(old(dec.templates), list, now)
    ensures dec.lastSweep == old(dec.lastSweep) && dec.removed == old(dec.removed)
  {
    for i := 0 to |list|
      invariant dec.Valid() && dec.templates == LoadAll(old(dec.templates), list[..i], now)
      invariant dec.lastSweep == old(dec.lastSweep) && dec.removed == old(dec.removed)
    {
      assert list[..i + 1][..i] == list[..i];
      dec.templates := dec.templates[list[i].key := Entry(list[i].t, now)];
    }
    assert list[..|list|] == list;
  }
}
