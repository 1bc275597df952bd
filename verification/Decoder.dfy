/** The decoder object: a template cache changed in place while a datagram is parsed.  Every call
    computes what `DecodePacket` says for the evictions that happened.  */
module Decoder {
  import opened Prelude
  import opened Wire
  import opened Decode
  import opened Parsing

  const MAX_INT64 := 0x7FFF_FFFF_FFFF_FFFF

  predicate Expired(e: Entry, now: int) { now - e.lastSeen > TEMPLATE_TTL }

  // What a sweep may remove: all expired templates, then the least recently used ones, and of
  // those only as many as the cap asks for.
  predicate SweepOk(entries: map<Key, Entry>, gone: set<Key>, now: int) {
    && gone <= entries.Keys
    && (forall k | k in entries && Expired(entries[k], now) :: k in gone)
    && |entries.Keys - gone| <= MAX_TEMPLATES
    && (forall k | k in gone && !Expired(entries[k], now) ::
          |entries.Keys - gone| == MAX_TEMPLATES && OldestOf(entries, entries.Keys - gone, entries[k].lastSeen))
  }

  // After a minute without a sweep, or above 65536 templates.
  predicate SweptNow(entries: map<Key, Entry>, since: int) { since > 60_000_000_000 || |entries| > 65536 }

  // A sweep leaves no template unused for more than half an hour, and takes others only down to 65536.
  predicate Swept(entries: map<Key, Entry>, left: map<Key, Entry>, since: int, now: int) {
    && |left| <= 65536
    && (!SweptNow(entries, since) ==> left == entries)
    && (SweptNow(entries, since) ==> forall k | k in left :: now - left[k].lastSeen <= 1_800_000_000_000)
    && (forall k | k in left :: k in entries && left[k] == entries[k])
    && (forall k | k in entries && k !in left && now - entries[k].lastSeen <= 1_800_000_000_000 ::
          |left| == 65536 && forall o | o in left :: entries[k].lastSeen <= left[o].lastSeen)
  }

  lemma SweepIsSwept(entries: map<Key, Entry>, gone: set<Key>, since: int, now: int)
    requires SweepOk(entries, gone, now) && SweptNow(entries, since)
    ensures Swept(entries, entries - gone, since, now)
  {
    assert (entries - gone).Keys == entries.Keys - gone;
  }

  predicate OldestOf(entries: map<Key, Entry>, keys: set<Key>, stamp: int)
    requires keys <= entries.Keys
  {
    forall k | k in keys :: stamp <= entries[k].lastSeen
  }

  // A sweep happens exactly when it is due, and evicts what the rule says.
  ghost predicate LawfulPut(c: Cache, key: Key, t: Template, now: int, sweeps: Sweeps) {
    var entries := c.entries[key := Entry(t, now)];
    if SweepDue(c, entries, now) then SweepOk(entries, sweeps(c.puts), now) else sweeps(c.puts) == {}
  }

  ghost predicate LawfulOne(c: Cache, a: Arrival, item: Item, sweeps: Sweeps) {
    item.Define? ==> LawfulPut(c, Key(a.exporter, a.domain, item.id), item.t, a.now, sweeps)
  }

  ghost predicate LawfulItems(c: Cache, a: Arrival, items: seq<Item>, sweeps: Sweeps)
    decreases |items|
  {
    items == [] ||
    (LawfulOne(c, a, items[0], sweeps)
     && LawfulItems(StoreOne(c, a.exporter, a.domain, items[0], a.now, sweeps), a, items[1..], sweeps))
  }

  // What a set numbered below 256 defines or withdraws.
  function ItemsIn(d: Dialect, id: nat, body: Bytes): seq<Item> {
    if id == TemplateSet(d) then ParseTemplates(d, body)
    else if id == OptionsSet(d) then ParseOptions(d, body)
    else []
  }

  // Every put on the way through the sets is lawful, as far as they are read.
  ghost predicate LawfulSets(d: Dialect, a: Arrival, c: Cache, rest: Bytes, budget: nat, sweeps: Sweeps)
    decreases |rest|
  {
    !WholeSet(rest) ||
    var id, body, next := U16(rest, 0), SetBody(rest), rest[U16(rest, 2)..];
    if id < DATA_MIN then
      LawfulItems(c, a, ItemsIn(d, id, body), sweeps)
        && LawfulSets(d, a, LearnSet(d, c, a, id, body, sweeps), next, budget, sweeps)
    else
      var out := DataFlows(d, c, a, id, body, budget);
      |out.flows| >= budget || LawfulSets(d, a, out.cache, next, budget - |out.flows|, sweeps)
  }

  ghost predicate LawfulPacket(d: Dialect, c: Cache, payload: Bytes, exporter: Bytes, now: int, sweeps: Sweeps) {
    |payload| >= HeaderLen(d) && U16(payload, 0) == Version(d) ==>
      LawfulSets(d, Arrival(exporter, DomainOf(d, payload), now, Context(exporter, BaseOf(d, payload))), c,
                 payload[HeaderLen(d)..EndOf(d, payload)], MAX_RECORDS, sweeps)
  }

  lemma OnlyOneEvicted(entries: map<Key, Entry>, key: Key, gone: set<Key>, now: int)
    requires SweepOk(entries, gone, now) && key in gone && !Expired(entries[key], now) && |entries| <= MAX_TEMPLATES + 1
    ensures |entries| == MAX_TEMPLATES + 1 && gone == {key}
      && OldestOf(entries, entries.Keys - {key}, entries[key].lastSeen)
  {
    var kept := entries.Keys - gone;
    assert |entries.Keys| == |kept| + |gone| by { assert entries.Keys == kept + gone && kept !! gone; }
    assert gone == {key} + (gone - {key});
    assert |gone - {key}| == |gone| - 1;
  }

  // A template stored just now survives its own sweep unless every other one is as recent.
  lemma FreshSurvives(entries: map<Key, Entry>, key: Key, gone: set<Key>, now: int)
    requires SweepOk(entries, gone, now) && key in entries && entries[key].lastSeen == now
      && |entries| <= MAX_TEMPLATES + 1
    requires |entries| <= MAX_TEMPLATES || exists k :: k in entries && entries[k].lastSeen < now
    ensures key !in gone
  {
    if key in gone { OnlyOneEvicted(entries, key, gone, now); }
  }

  // A cache over its cap never grows further.
  function Cap(size: nat): nat { if size > MAX_TEMPLATES then size else MAX_TEMPLATES }

  // The history of evictions agrees with an oracle for them.
  ghost predicate Agrees(sweeps: Sweeps, removed: seq<set<Key>>) {
    forall i: nat | i < |removed| :: sweeps(i) == removed[i]
  }

  lemma AgreesBefore(sweeps: Sweeps, was: seq<set<Key>>, removed: seq<set<Key>>)
    requires Agrees(sweeps, removed) && was <= removed
    ensures Agrees(sweeps, was)
  {
  }

  // There is always an oracle: the history itself.
  lemma OracleExists(removed: seq<set<Key>>) returns (sweeps: Sweeps)
    ensures Agrees(sweeps, removed)
  {
    sweeps := (n: nat) => if n < |removed| then removed[n] else {};
  }

  // ---- what is stored so far, and what is still to be ----

  ghost predicate Storing(start: Cache, all: seq<Item>, c: Cache, rest: seq<Item>, a: Arrival, removed: seq<set<Key>>) {
    forall sweeps | Agrees(sweeps, removed) ::
      && Store(start, a.exporter, a.domain, all, a.now, sweeps) == Store(c, a.exporter, a.domain, rest, a.now, sweeps)
      && (LawfulItems(c, a, rest, sweeps) ==> LawfulItems(start, a, all, sweeps))
  }

  ghost predicate StoresOne(c: Cache, item: Item, c': Cache, a: Arrival, removed: seq<set<Key>>) {
    forall sweeps | Agrees(sweeps, removed) ::
      c' == StoreOne(c, a.exporter, a.domain, item, a.now, sweeps) && LawfulOne(c, a, item, sweeps)
  }

  ghost predicate Stores(c: Cache, items: seq<Item>, c': Cache, a: Arrival, removed: seq<set<Key>>) {
    forall sweeps | Agrees(sweeps, removed) ::
      c' == Store(c, a.exporter, a.domain, items, a.now, sweeps) && LawfulItems(c, a, items, sweeps)
  }

  lemma StoreFirst(c: Cache, item: Item, rest: seq<Item>, a: Arrival, sweeps: Sweeps)
    ensures Store(c, a.exporter, a.domain, [item] + rest, a.now, sweeps)
         == Store(StoreOne(c, a.exporter, a.domain, item, a.now, sweeps), a.exporter, a.domain, rest, a.now, sweeps)
    ensures LawfulOne(c, a, item, sweeps)
      && LawfulItems(StoreOne(c, a.exporter, a.domain, item, a.now, sweeps), a, rest, sweeps)
      ==> LawfulItems(c, a, [item] + rest, sweeps)
  {
    assert ([item] + rest)[1..] == rest;
  }

  lemma StoringNext(start: Cache, all: seq<Item>, c: Cache, item: Item, rest: seq<Item>, a: Arrival, was: seq<set<Key>>,
                    c': Cache, removed: seq<set<Key>>)
    requires Storing(start, all, c, [item] + rest, a, was) && was <= removed && StoresOne(c, item, c', a, removed)
    ensures Storing(start, all, c', rest, a, removed)
  {
    forall sweeps | Agrees(sweeps, removed)
      ensures Store(start, a.exporter, a.domain, all, a.now, sweeps)
              == Store(c', a.exporter, a.domain, rest, a.now, sweeps)
      ensures LawfulItems(c', a, rest, sweeps) ==> LawfulItems(start, a, all, sweeps)
    {
      AgreesBefore(sweeps, was, removed);
      StoreFirst(c, item, rest, a, sweeps);
    }
  }

  lemma StoringEnds(start: Cache, all: seq<Item>, c: Cache, a: Arrival, removed: seq<set<Key>>)
    requires Storing(start, all, c, [], a, removed)
    ensures Stores(start, all, c, a, removed)
  {
  }

  // ---- the sets of a datagram ----

  // What the datagram gives is what it has given, followed by what its other sets will.  (Methods
  // compare this to `true` so that their proofs carry the fact without unfolding it.)
  ghost predicate Going(d: Dialect, a: Arrival, start: Cache, all: Bytes, done: seq<Flow>, c: Cache,
                        rest: Bytes, budget: nat, removed: seq<set<Key>>) {
    forall sweeps | Agrees(sweeps, removed) ::
      && DecodeSets(ReaderOf(d, a, sweeps), start, all, MAX_RECORDS)
         == Then(Out(done, c), DecodeSets(ReaderOf(d, a, sweeps), c, rest, budget))
      && (LawfulSets(d, a, c, rest, budget, sweeps) ==> LawfulSets(d, a, start, all, MAX_RECORDS, sweeps))
  }

  ghost predicate Gone(d: Dialect, a: Arrival, start: Cache, all: Bytes, done: seq<Flow>, c: Cache,
                       removed: seq<set<Key>>) {
    forall sweeps | Agrees(sweeps, removed) ::
      DecodeSets(ReaderOf(d, a, sweeps), start, all, MAX_RECORDS) == Out(done, c)
        && LawfulSets(d, a, start, all, MAX_RECORDS, sweeps)
  }

  ghost predicate Learns(d: Dialect, a: Arrival, c: Cache, id: nat, body: Bytes, c': Cache, removed: seq<set<Key>>) {
    forall sweeps | Agrees(sweeps, removed) ::
      c' == LearnSet(d, c, a, id, body, sweeps) && LawfulItems(c, a, ItemsIn(d, id, body), sweeps)
  }

  lemma GoingStarts(d: Dialect, a: Arrival, start: Cache, all: Bytes, removed: seq<set<Key>>)
    ensures Going(d, a, start, all, [], start, all, MAX_RECORDS, removed)
  {
    forall sweeps | Agrees(sweeps, removed)
      ensures DecodeSets(ReaderOf(d, a, sweeps), start, all, MAX_RECORDS)
           == Then(Out([], start), DecodeSets(ReaderOf(d, a, sweeps), start, all, MAX_RECORDS))
    {
      ThenNothing(DecodeSets(ReaderOf(d, a, sweeps), start, all, MAX_RECORDS), start);
    }
  }

  lemma ThenNothing(out: Out, c: Cache)
    ensures Then(Out([], c), out) == out
  {
    assert [] + out.flows == out.flows;
  }

  // One more set, whoever reads it.
  lemma LearnStep(rd: Reader, c: Cache, rest: Bytes, budget: nat, id: nat, body: Bytes, next: Bytes)
    requires WholeSet(rest) && id == U16(rest, 0) < DATA_MIN && body == SetBody(rest) && next == rest[U16(rest, 2)..]
    ensures DecodeSets(rd, c, rest, budget) == DecodeSets(rd, rd.learn(c, id, body), next, budget)
  {
  }

  lemma DataStep(rd: Reader, c: Cache, rest: Bytes, budget: nat, id: nat, body: Bytes, next: Bytes,
                 done: seq<Flow>, out: Out)
    requires WholeSet(rest) && id == U16(rest, 0) >= DATA_MIN && body == SetBody(rest) && next == rest[U16(rest, 2)..]
    requires out == rd.data(c, id, body, budget)
    ensures |out.flows| >= budget ==>
      Then(Out(done, c), DecodeSets(rd, c, rest, budget)) == Out(done + out.flows, out.cache)
    ensures |out.flows| < budget ==> (
      Then(Out(done, c), DecodeSets(rd, c, rest, budget))
      == Then(Out(done + out.flows, out.cache), DecodeSets(rd, out.cache, next, budget - |out.flows|)))
  {
    if |out.flows| < budget {
      var more := DecodeSets(rd, out.cache, next, budget - |out.flows|);
      assert done + (out.flows + more.flows) == done + out.flows + more.flows;
    }
  }

  lemma LawfulLearn(d: Dialect, a: Arrival, c: Cache, rest: Bytes, budget: nat, id: nat, body: Bytes, next: Bytes,
                    c': Cache, sweeps: Sweeps)
    requires WholeSet(rest) && id == U16(rest, 0) < DATA_MIN && body == SetBody(rest) && next == rest[U16(rest, 2)..]
    requires c' == LearnSet(d, c, a, id, body, sweeps) && LawfulItems(c, a, ItemsIn(d, id, body), sweeps)
    ensures LawfulSets(d, a, c', next, budget, sweeps) ==> LawfulSets(d, a, c, rest, budget, sweeps)
  {
  }

  lemma LawfulData(d: Dialect, a: Arrival, c: Cache, rest: Bytes, budget: nat, id: nat, body: Bytes, next: Bytes,
                   out: Out, sweeps: Sweeps)
    requires WholeSet(rest) && id == U16(rest, 0) >= DATA_MIN && body == SetBody(rest) && next == rest[U16(rest, 2)..]
    requires out == DataFlows(d, c, a, id, body, budget)
    ensures |out.flows| >= budget ==> LawfulSets(d, a, c, rest, budget, sweeps)
    ensures |out.flows| < budget && LawfulSets(d, a, out.cache, next, budget - |out.flows|, sweeps) ==>
      LawfulSets(d, a, c, rest, budget, sweeps)
  {
  }

  lemma GoingLearns(d: Dialect, a: Arrival, start: Cache, all: Bytes, done: seq<Flow>, c: Cache, rest: Bytes,
                    budget: nat, was: seq<set<Key>>,
                    id: nat, body: Bytes, next: Bytes, c': Cache, removed: seq<set<Key>>)
    requires Going(d, a, start, all, done, c, rest, budget, was) && was <= removed
      && Learns(d, a, c, id, body, c', removed)
    requires WholeSet(rest) && id == U16(rest, 0) < DATA_MIN && body == SetBody(rest) && next == rest[U16(rest, 2)..]
    ensures Going(d, a, start, all, done, c', next, budget, removed)
  {
    forall sweeps | Agrees(sweeps, removed)
      ensures DecodeSets(ReaderOf(d, a, sweeps), start, all, MAX_RECORDS)
              == Then(Out(done, c'), DecodeSets(ReaderOf(d, a, sweeps), c', next, budget))
      ensures LawfulSets(d, a, c', next, budget, sweeps) ==> LawfulSets(d, a, start, all, MAX_RECORDS, sweeps)
    {
      AgreesBefore(sweeps, was, removed);
      LearnStep(ReaderOf(d, a, sweeps), c, rest, budget, id, body, next);
      LawfulLearn(d, a, c, rest, budget, id, body, next, c', sweeps);
    }
  }

  lemma Grown(base: seq<Flow>, done: seq<Flow>, more: seq<Flow>, dst: seq<Flow>, done': seq<Flow>)
    requires dst == base + done && done' == done + more
    ensures dst + more == base + done'
  {
  }

  lemma GoingData(d: Dialect, a: Arrival, start: Cache, all: Bytes, done: seq<Flow>, c: Cache, rest: Bytes,
                  budget: nat, removed: seq<set<Key>>,
                  id: nat, body: Bytes, next: Bytes, out: Out, done': seq<Flow>)
    requires Going(d, a, start, all, done, c, rest, budget, removed)
      && out == DataFlows(d, c, a, id, body, budget) && done' == done + out.flows
    requires WholeSet(rest) && id == U16(rest, 0) >= DATA_MIN && body == SetBody(rest) && next == rest[U16(rest, 2)..]
    ensures |out.flows| >= budget ==> Gone(d, a, start, all, done', out.cache, removed)
    ensures |out.flows| < budget ==>
      Going(d, a, start, all, done', out.cache, next, budget - |out.flows|, removed)
  {
    forall sweeps | Agrees(sweeps, removed)
      ensures |out.flows| >= budget ==>
        DecodeSets(ReaderOf(d, a, sweeps), start, all, MAX_RECORDS) == Out(done + out.flows, out.cache)
      ensures |out.flows| < budget ==> (
        DecodeSets(ReaderOf(d, a, sweeps), start, all, MAX_RECORDS)
        == Then(Out(done + out.flows, out.cache),
                DecodeSets(ReaderOf(d, a, sweeps), out.cache, next, budget - |out.flows|)))
      ensures |out.flows| >= budget ==> LawfulSets(d, a, start, all, MAX_RECORDS, sweeps)
      ensures |out.flows| < budget && LawfulSets(d, a, out.cache, next, budget - |out.flows|, sweeps) ==>
        LawfulSets(d, a, start, all, MAX_RECORDS, sweeps)
    {
      DataStep(ReaderOf(d, a, sweeps), c, rest, budget, id, body, next, done, out);
      LawfulData(d, a, c, rest, budget, id, body, next, out, sweeps);
    }
  }

  lemma GoingEnds(d: Dialect, a: Arrival, start: Cache, all: Bytes, done: seq<Flow>, c: Cache, rest: Bytes,
                  budget: nat, removed: seq<set<Key>>)
    requires Going(d, a, start, all, done, c, rest, budget, removed) && !WholeSet(rest)
    ensures Gone(d, a, start, all, done, c, removed)
  {
    forall sweeps | Agrees(sweeps, removed)
      ensures DecodeSets(ReaderOf(d, a, sweeps), start, all, MAX_RECORDS) == Out(done, c)
      ensures LawfulSets(d, a, start, all, MAX_RECORDS, sweeps)
    {
      assert done + [] == done;
    }
  }

  class Decoder {
    const d: Dialect
    var templates: map<Key, Entry>
    var lastSweep: int
    ghost var removed: seq<set<Key>>

    constructor (d: Dialect)
      ensures this.d == d && templates == map[] && removed == [] && Valid()
    {
      this.d, templates, lastSweep, removed := d, map[], 0, [];
    }

    // Templates describe their own record lengths; clock readings are below the largest int64.
    ghost predicate Valid()
      reads this
    {
      forall k | k in templates :: TemplateOk(d, templates[k].t) && templates[k].lastSeen < MAX_INT64
    }

    ghost function State(): Cache
      reads this
    {
      Cache(templates, lastSweep, |removed|)
    }

    method Oldest() returns (key: Key)
      requires Valid() && |templates| > 0
      ensures key in templates && OldestOf(templates, templates.Keys, templates[key].lastSeen)
    {
      key := Key([], 0, 0);
      var oldest, todo := MAX_INT64, templates.Keys;
      while todo != {}
        invariant todo <= templates.Keys
        invariant OldestOf(templates, templates.Keys - todo, oldest)
        invariant if todo == templates.Keys then oldest == MAX_INT64
          else key in templates && templates[key].lastSeen == oldest
        decreases |todo|
      {
        var k :| k in todo;
        if templates[k].lastSeen < oldest { oldest, key := templates[k].lastSeen, k; }
        todo := todo - {k};
      }
    }

    method DropExpired(now: int) returns (ghost gone: set<Key>)
      requires Valid()
      modifies this`templates
      ensures Valid() && templates == old(templates) - gone
      ensures gone == set k | k in old(templates) && Expired(old(templates)[k], now)
    {
      gone := {};
      var todo := templates.Keys;
      while todo != {}
        invariant Valid() && todo <= templates.Keys && todo !! gone && gone <= old(templates).Keys
        invariant templates == old(templates) - gone
        invariant forall k | k in old(templates) && k !in todo :: k in gone <==> Expired(old(templates)[k], now)
        decreases |todo|
      {
        var k :| k in todo;
        if Expired(templates[k], now) {
          templates, gone := templates - {k}, gone + {k};
        }
        todo := todo - {k};
      }
    }

    method DropOldest(ghost entries: map<Key, Entry>, ghost expired: set<Key>) returns (ghost gone: set<Key>)
      requires Valid() && expired <= entries.Keys && templates == entries - expired
      modifies this`templates
      ensures Valid() && expired <= gone <= entries.Keys && templates == entries - gone
      ensures |templates| <= MAX_TEMPLATES && (gone != expired ==> |templates| == MAX_TEMPLATES)
      ensures forall k | k in gone && k !in expired :: OldestOf(entries, entries.Keys - gone, entries[k].lastSeen)
    {
      gone := expired;
      while |templates| > MAX_TEMPLATES
        invariant Valid() && expired <= gone <= entries.Keys && templates == entries - gone
        invariant gone != expired ==> |templates| >= MAX_TEMPLATES
        invariant forall k | k in gone && k !in expired :: OldestOf(entries, entries.Keys - gone, entries[k].lastSeen)
        decreases |templates|
      {
        var k := Oldest();
        assert templates.Keys - {k} == (templates - {k}).Keys;
        templates, gone := templates - {k}, gone + {k};
      }
    }

    method Sweep(now: int) returns (ghost gone: set<Key>)
      requires Valid()
      modifies this`templates, this`lastSweep
      ensures Valid() && lastSweep == now && templates == old(templates) - gone && SweepOk(old(templates), gone, now)
    {
      lastSweep := now;
      ghost var expired := DropExpired(now);
      gone := DropOldest(old(templates), expired);
      assert templates.Keys == old(templates).Keys - gone;
    }

    // Stores a template; the cache is then within its cap, whatever it held before.
    method PutTemplate(key: Key, t: Template, now: int)
      requires Valid() && TemplateOk(d, t) && now < MAX_INT64
      modifies this
      ensures Valid() && old(removed) <= removed && |templates| <= MAX_TEMPLATES
      ensures forall sweeps | Agrees(sweeps, removed) :: State() == Put(old(State()), key, t, now, sweeps)
      ensures |removed| == |old(removed)| + 1 && removed[..|old(removed)|] == old(removed)
      ensures forall sweeps | Agrees(sweeps, removed) :: LawfulPut(old(State()), key, t, now, sweeps)
      ensures Swept(old(templates)[key := Entry(t, now)], templates, now - old(lastSweep), now)
      ensures lastSweep == if SweptNow(old(templates)[key := Entry(t, now)], now - old(lastSweep)) then now
                           else old(lastSweep)
    {
      templates := templates[key := Entry(t, now)];
      ghost var gone := {};
      if now - lastSweep > SWEEP_EVERY || |templates| > MAX_TEMPLATES {
        gone := Sweep(now);
        SweepIsSwept(old(templates)[key := Entry(t, now)], gone, now - old(lastSweep), now);
      }
      removed := removed + [gone];
      assert removed[|old(removed)|] == gone;
    }

    method DeleteTemplate(key: Key)
      requires Valid()
      modifies this`templates
      ensures Valid() && State() == old(State()).(entries := old(templates) - {key})
    {
      templates := templates - {key};
    }

    // A template that is used counts as seen now.
    method GetTemplate(key: Key, now: int) returns (t: Option<Template>)
      requires Valid() && now < MAX_INT64
      modifies this`templates
      ensures Valid() && (t.Some? <==> key in old(templates))
      ensures t.Some? ==> templates == old(templates)[key := Entry(t.value, now)]
      ensures t.Some? ==>
        t.value == old(templates)[key].t && TemplateOk(d, t.value)
        && State() == Touch(old(State()), key, now)
      ensures t == None ==> State() == old(State())
    {
      if key !in templates { return None; }
      t := Some(templates[key].t);
      templates := templates[key := templates[key].(lastSeen := now)];
    }

    method StoreItem(item: Item, a: Arrival)
      requires Valid() && ItemOk(d, item) && a.now < MAX_INT64
      modifies this
      ensures Valid() && |templates| <= Cap(|old(templates)|) && old(removed) <= removed
        && StoresOne(old(State()), item, State(), a, removed)
    {
      var key := Key(a.exporter, a.domain, item.id);
      match item
      case Define(_, t) => PutTemplate(key, t, a.now);
      case Withdraw(_) => DeleteTemplate(key);
    }

    // A Template Set: definitions and withdrawals take effect one by one.
    method LearnTemplates(body: Bytes, a: Arrival)
      requires Valid() && a.now < MAX_INT64
      modifies this
      ensures Valid() && |templates| <= Cap(|old(templates)|) && old(removed) <= removed
        && Stores(old(State()), ParseTemplates(d, body), State(), a, removed)
    {
      ghost var start := State();
      ghost var at, items := TemplateLister(d, body);
      ghost var all := items(body);
      assert body[0..] == body;
      var p := 0;
      while p + 4 <= |body|
        invariant Valid() && |templates| <= Cap(|old(templates)|) && p <= |body| && old(removed) <= removed
        invariant Storing(start, all, State(), items(body[p..]), a, removed)
        decreases |body| - p
      {
        var item, next := NextTemplate(d, body, p);
        ListStep(at, items, body, p, item, next);
        if item == None {
          StoringEnds(start, all, State(), a, removed);
          return;
        }
        ghost var c, was := State(), removed;
        StoreItem(item.value, a);
        StoringNext(start, all, c, item.value, items(body[next..]), a, was, State(), removed);
        p := next;
      }
      ListEnds(d, at, items, body[p..]);
      StoringEnds(start, all, State(), a, removed);
    }

    method LearnOptions(body: Bytes, a: Arrival)
      requires Valid() && a.now < MAX_INT64
      modifies this
      ensures Valid() && |templates| <= Cap(|old(templates)|) && old(removed) <= removed
        && Stores(old(State()), ParseOptions(d, body), State(), a, removed)
    {
      ghost var start := State();
      ghost var at, items := OptionsLister(d, body);
      ghost var all := items(body);
      assert body[0..] == body;
      var p := 0;
      while p + 6 <= |body|
        invariant Valid() && |templates| <= Cap(|old(templates)|) && p <= |body| && old(removed) <= removed
        invariant Storing(start, all, State(), items(body[p..]), a, removed)
        decreases |body| - p
      {
        var item, next := NextOptions(d, body, p);
        ListStep(at, items, body, p, item, next);
        if item == None {
          StoringEnds(start, all, State(), a, removed);
          return;
        }
        ghost var c, was := State(), removed;
        StoreItem(item.value, a);
        StoringNext(start, all, c, item.value, items(body[next..]), a, was, State(), removed);
        p := next;
      }
      ListEnds(d, at, items, body[p..]);
      StoringEnds(start, all, State(), a, removed);
    }

    // A Data Set against its template; refreshes the template, appends at most `limit` flows.
    method DecodeData(id: nat, body: Bytes, a: Arrival, limit: nat, dst: seq<Flow>, ghost out: Out)
      returns (flows: seq<Flow>)
      requires Valid() && a.now < MAX_INT64 && out == DataFlows(d, State(), a, id, body, limit)
      modifies this`templates
      ensures Valid() && |templates| <= Cap(|old(templates)|) && flows == dst + out.flows && State() == out.cache
    {
      var t := GetTemplate(Key(a.exporter, a.domain, id), a.now);
      if t == None { return dst; }
      flows := EmitRecords(d, t.value, body, limit, a.ctx, dst);
    }

    // The same, with the flows of the datagram's earlier sets.
    method DecodeMore(id: nat, body: Bytes, a: Arrival, limit: nat, dst: seq<Flow>, ghost out: Out,
                      ghost base: seq<Flow>, ghost done: seq<Flow>, ghost done': seq<Flow>)
      returns (flows: seq<Flow>, left: nat)
      requires Valid() && a.now < MAX_INT64 && out == DataFlows(d, State(), a, id, body, limit)
      requires dst == base + done && done' == done + out.flows
      modifies this`templates
      ensures Valid() && |templates| <= Cap(|old(templates)|) && State() == out.cache
      ensures flows == base + done' && left == if |out.flows| < limit then limit - |out.flows| else 0
    {
      Grown(base, done, out.flows, dst, done');
      flows := DecodeData(id, body, a, limit, dst, out);
      left := if |flows| - |dst| < limit then limit - (|flows| - |dst|) else 0;
    }

    // A set numbered below 256.
    method LearnAny(id: nat, body: Bytes, a: Arrival)
      requires Valid() && a.now < MAX_INT64
      modifies this
      ensures Valid() && |templates| <= Cap(|old(templates)|) && old(removed) <= removed
        && Learns(d, a, old(State()), id, body, State(), removed)
    {
      if id == TemplateSet(d) { LearnTemplates(body, a); }
      else if id == OptionsSet(d) { LearnOptions(body, a); }
    }

    // One set; `rest` is the datagram from it on and `next` what follows it.
    method DecodeSet(id: nat, body: Bytes, a: Arrival, budget: nat, dst: seq<Flow>, ghost start: Cache,
                     ghost all: Bytes, ghost done: seq<Flow>,
                     ghost rest: Bytes, ghost next: Bytes, ghost base: seq<Flow>)
      returns (flows: seq<Flow>, left: nat, ghost done': seq<Flow>)
      requires Valid() && a.now < MAX_INT64 && budget > 0
        && Going(d, a, start, all, done, State(), rest, budget, removed)
      requires WholeSet(rest) && id == U16(rest, 0) && body == SetBody(rest) && next == rest[U16(rest, 2)..]
        && dst == base + done
      modifies this
      ensures Valid() && |templates| <= Cap(|old(templates)|) && old(removed) <= removed && flows == base + done'
      ensures left > 0 ==> Going(d, a, start, all, done', State(), next, left, removed)
      ensures left == 0 ==> Gone(d, a, start, all, done', State(), removed)
    {
      flows, done', left := dst, done, budget;
      if id < DATA_MIN {
        ghost var c, was := State(), removed;
        LearnAny(id, body, a);
        GoingLearns(d, a, start, all, done, c, rest, budget, was, id, body, next, State(), removed);
      } else {
        ghost var out := DataFlows(d, State(), a, id, body, budget);
        done' := done + out.flows;
        GoingData(d, a, start, all, done, State(), rest, budget, removed, id, body, next, out, done');
        flows, left := DecodeMore(id, body, a, budget, dst, out, base, done, done');
      }
    }

    // The loop over the sets of a datagram.
    method DecodeAll(payload: Bytes, end: nat, a: Arrival, dst: seq<Flow>)
        returns (flows: seq<Flow>, ghost done: seq<Flow>)
      requires Valid() && a.now < MAX_INT64 && HeaderLen(d) <= end <= |payload|
      modifies this
      ensures Valid() && |templates| <= Cap(|old(templates)|) && old(removed) <= removed
      ensures flows == dst + done
        && Gone(d, a, old(State()), payload[HeaderLen(d)..end], done, State(), removed)
    {
      flows := dst;
      ghost var start, all := State(), payload[HeaderLen(d)..end];
      done := [];
      ghost var rest := all;
      GoingStarts(d, a, start, all, removed);
      var off, budget: nat := HeaderLen(d), MAX_RECORDS;
      while off + 4 <= end && budget > 0
        invariant Valid() && |templates| <= Cap(|old(templates)|) && off <= end && old(removed) <= removed
          && flows == dst + done
        invariant rest == payload[off..end]
        invariant budget > 0 ==> Going(d, a, start, all, done, State(), rest, budget, removed)
        invariant budget == 0 ==> Gone(d, a, start, all, done, State(), removed)
        decreases end - off
      {
        ghost var rest';
        var id, body, next, ok;
        id, body, next, ok, rest' := ReadSet(payload, off, end, rest);
        if !ok { break; }
        flows, budget, done := DecodeSet(id, body, a, budget, flows, start, all, done, rest, rest', dst);
        off, rest := next, rest';
      }
      if budget > 0 { GoingEnds(d, a, start, all, done, State(), rest, budget, removed); }
    }

    // Main result: decoding in place is `DecodePacket`, errors included, and whatever it evicts on the way
    // obeys the eviction rule; `dst` stays a prefix.
    method Decode(dst: seq<Flow>, payload: Bytes, exporter: Bytes, now: int)
        returns (flows: seq<Flow>, ghost res: Result)
      requires Valid() && now < MAX_INT64
      modifies this
      ensures Valid() && |templates| <= Cap(|old(templates)|) && old(removed) <= removed && dst <= flows
      ensures forall sweeps | Agrees(sweeps, removed) ::
        && res == DecodePacket(d, old(State()), payload, exporter, now, sweeps)
        && LawfulPacket(d, old(State()), payload, exporter, now, sweeps)
      ensures if res.Decoded? then res.out == Out(flows[|dst|..], State()) else flows == dst && State() == old(State())
    {
      flows := dst;
      if |payload| < HeaderLen(d) { res := ShortPacket; return; }
      if U16(payload, 0) != Version(d) { res := WrongVersion; return; }
      var end := EndOf(d, payload);
      var a := Arrival(exporter, DomainOf(d, payload), now, Context(exporter, BaseOf(d, payload)));
      ghost var done;
      flows, done := DecodeAll(payload, end, a, dst);
      res := Decoded(Out(done, State()));
    }
  }
}
