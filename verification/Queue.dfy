/** The bounded queue in front of a writer shard: producers in three backpressure modes, one consumer
    that batches, and any schedule of their channel operations.  */
module Queue {
  import opened Prelude
  import opened Wire
  import opened Sanitize

  datatype FlowRecord = FlowRecord(exporter: Bytes, device: nat, data: nat)

  datatype Mode = Block | DropOld | DropNew

  // ---- the accepted records that were not evicted ----

  function Survivors(log: seq<FlowRecord>, evicted: set<nat>): seq<FlowRecord>
    decreases |log|
  {
    if log == [] then []
    else
      var n := |log| - 1;
      Survivors(log[..n], evicted) + if n in evicted then [] else [log[n]]
  }

  lemma SurvivorsAppend(log: seq<FlowRecord>, evicted: set<nat>, rec: FlowRecord)
    requires |log| !in evicted
    ensures Survivors(log + [rec], evicted) == Survivors(log, evicted) + [rec]
  {
    assert (log + [rec])[..|log|] == log;
  }

  lemma {:induction false} SurvivorsSame(log: seq<FlowRecord>, a: set<nat>, b: set<nat>)
    requires forall i: nat | i < |log| :: i in a <==> i in b
    ensures Survivors(log, a) == Survivors(log, b)
    decreases |log|
  {
    if log != [] { SurvivorsSame(log[..|log| - 1], a, b); }
  }

  // The k-th survivor has a place in the log; evicting it removes just that one.
  lemma {:induction false} EvictOne(log: seq<FlowRecord>, evicted: set<nat>, k: nat) returns (i: nat)
    requires k < |Survivors(log, evicted)|
    ensures i < |log| && i !in evicted && log[i] == Survivors(log, evicted)[k]
    ensures Survivors(log, evicted + {i}) == Survivors(log, evicted)[..k] + Survivors(log, evicted)[k + 1..]
    decreases |log|
  {
    var n := |log| - 1;
    var before := Survivors(log[..n], evicted);
    if k < |before| {
      i := EvictOne(log[..n], evicted, k);
      if n !in evicted { assert (before + [log[n]])[k + 1..] == before[k + 1..] + [log[n]]; }
    } else {
      i := n;
      SurvivorsSame(log[..n], evicted, evicted + {n});
      assert (before + [log[n]])[..k] == before;
    }
  }

  lemma {:induction false} SurvivorsCount(log: seq<FlowRecord>, evicted: set<nat>)
    requires forall i | i in evicted :: i < |log|
    ensures |Survivors(log, evicted)| + |evicted| == |log|
    decreases |log|
  {
    if log == [] {
      assert evicted == {};
    } else {
      var n := |log| - 1;
      SurvivorsSame(log[..n], evicted, evicted - {n});
      SurvivorsCount(log[..n], evicted - {n});
      if n in evicted { assert evicted == (evicted - {n}) + {n}; } else { assert evicted == evicted - {n}; }
    }
  }

  function Flat(batches: seq<seq<FlowRecord>>): seq<FlowRecord>
    decreases |batches|
  {
    if batches == [] then [] else Flat(batches[..|batches| - 1]) + batches[|batches| - 1]
  }

  datatype Answer = Accepted | Dropped | Waiting

  class Shard {
    const cap: nat
    var queue: seq<FlowRecord>
    var batch: seq<FlowRecord>
    var flushed: seq<seq<FlowRecord>>
    var quit: bool
    var dropped: nat

    // The records accepted so far, in order, and which of them were evicted; enqueue calls that
    // have returned, and how many of them were turned away.
    ghost var log: seq<FlowRecord>
    ghost var evicted: set<nat>
    ghost var offered: nat
    ghost var rejected: nat

    constructor (cap: nat)
      ensures this.cap == cap && Inv() && log == [] && offered == 0 && !quit
    {
      this.cap := cap;
      queue, batch, flushed, quit, dropped := [], [], [], false, 0;
      log, evicted, offered, rejected := [], {}, 0, 0;
    }

    ghost predicate Inv()
      reads this
    {
      && |queue| <= cap
      && Flat(flushed) + batch + queue == Survivors(log, evicted)
      && (forall i | i in evicted :: i < |log|)
      && offered == |log| + rejected && dropped == rejected + |evicted|
    }

    // Conservation: every record offered is queued, taken by the consumer, or counted as dropped.
    lemma Conserved()
      requires Inv()
      ensures offered == |queue| + (|Flat(flushed)| + |batch|) + dropped
    {
      SurvivorsCount(log, evicted);
    }

    // ---- channel operations ----

    method Send(rec: FlowRecord)
      requires Inv() && |queue| < cap
      modifies this`queue, this`log, this`offered
      ensures Inv() && queue == old(queue) + [rec] && log == old(log) + [rec] && offered == old(offered) + 1
    {
      SurvivorsAppend(log, evicted, rec);
      assert Flat(flushed) + batch + (queue + [rec]) == (Flat(flushed) + batch + queue) + [rec];
      queue, log, offered := queue + [rec], log + [rec], offered + 1;
    }

    method Drop()
      requires Inv()
      modifies this`dropped, this`offered, this`rejected
      ensures Inv() && offered == old(offered) + 1 && dropped == old(dropped) + 1 && rejected == old(rejected) + 1
    {
      dropped, offered, rejected := dropped + 1, offered + 1, rejected + 1;
    }

    // Takes the oldest record out of the queue and counts it as dropped.
    method Evict()
      requires Inv() && queue != []
      modifies this`queue, this`dropped, this`evicted
      ensures Inv() && queue == old(queue)[1..] && dropped == old(dropped) + 1 && |evicted| == |old(evicted)| + 1
    {
      ghost var taken := Flat(flushed) + batch;
      ghost var i := EvictOne(log, evicted, |taken|);
      RemoveAt(taken, queue);
      assert |evicted + {i}| == |evicted| + 1;
      queue, dropped, evicted := queue[1..], dropped + 1, evicted + {i};
    }

    method Receive()
      requires Inv() && queue != []
      modifies this`queue, this`batch
      ensures Inv() && queue == old(queue)[1..] && batch == old(batch) + [old(queue)[0]]
    {
      MoveOne(Flat(flushed), batch, queue);
      queue, batch := queue[1..], batch + [queue[0]];
    }

    method Flush()
      requires Inv()
      modifies this`flushed, this`batch
      ensures Inv() && batch == [] && flushed == if old(batch) == [] then old(flushed) else old(flushed) + [old(batch)]
      ensures Taken() == old(Taken())
    {
      if batch == [] { return; }
      assert (flushed + [batch])[..|flushed|] == flushed;
      assert Flat(flushed) + batch + queue == (Flat(flushed) + batch) + [] + queue;
      flushed, batch := flushed + [batch], [];
    }

    // ---- what may happen in between ----

    // History only grows; of the consumer's state, producers touch nothing.
    twostate predicate Later()
      reads this
    {
      old(log) <= log && old(flushed) <= flushed && old(offered) <= offered && old(rejected) <= rejected
        && (old(quit) ==> quit) && old(|evicted|) <= |evicted| && old(|Taken()|) <= |Taken()|
    }

    // The records the consumer has taken off the queue, in order.
    ghost function Taken(): seq<FlowRecord>
      reads this
    {
      Flat(flushed) + batch
    }

    method ProducerStep(step: nat, rec: FlowRecord)
      requires Inv()
      modifies this
      ensures Inv() && Later() && batch == old(batch) && flushed == old(flushed) && quit == old(quit)
    {
      if step == 0 && |queue| < cap { Send(rec); }
      else if step == 1 && queue != [] { Evict(); }
      else if step == 2 { Drop(); }
    }

    method Producers()
      requires Inv()
      modifies this
      ensures Inv() && Later() && batch == old(batch) && flushed == old(flushed) && quit == old(quit)
    {
      var steps: nat := *;
      while steps > 0
        invariant Inv() && Later() && batch == old(batch) && flushed == old(flushed) && quit == old(quit)
      {
        var step: nat, rec: FlowRecord := *, *;
        ProducerStep(step, rec);
        steps := steps - 1;
      }
    }

    // Other producers, the consumer, and whoever retires the pool.
    method Others()
      requires Inv()
      modifies this
      ensures Inv() && Later()
    {
      var steps: nat := *;
      while steps > 0
        invariant Inv() && Later()
      {
        var step: nat, rec: FlowRecord := *, *;
        if step == 3 && queue != [] { Receive(); }
        else if step == 4 { Flush(); }
        else if step == 5 { quit := true; }
        else { ProducerStep(step, rec); }
        steps := steps - 1;
      }
    }

    // ---- a producer ----

    // The record is in the log from here on, or was turned away; only Block may keep waiting.
    ghost predicate Answered(was: nat, turned: nat, rec: FlowRecord, mode: Mode, a: Answer)
      reads this
    {
      match a
      case Accepted => |log| > was && log[|log| - 1] == rec && queue != [] && queue[|queue| - 1] == rec
      case Dropped => rejected > turned && (quit || (mode != Block && |queue| >= cap))
      case Waiting => mode == Block && |queue| >= cap
    }

    // A call that finds room and is not told to quit puts its record last.
    twostate predicate Straight(rec: FlowRecord, a: Answer)
      reads this
    {
      old(|queue|) < cap && !old(quit) ==>
        a == Accepted && queue == old(queue) + [rec] && log == old(log) + [rec] && evicted == old(evicted)
        && Taken() == old(Taken())
    }

    method Enqueue(rec: FlowRecord, mode: Mode) returns (a: Answer)
      requires Inv()
      modifies this
      ensures Inv() && Later() && Answered(|old(log)|, old(rejected), rec, mode, a)
    {
      Others();
      match mode
      case Block => a := EnqueueBlock(rec);
      case DropOld => a := EnqueueDropOld(rec);
      case DropNew => a := EnqueueDropNew(rec);
    }

    // Sends when there is room and gives up when told to quit; with both, either may happen.
    method EnqueueBlock(rec: FlowRecord) returns (a: Answer)
      requires Inv()
      modifies this
      ensures Inv() && Later() && Answered(|old(log)|, old(rejected), rec, Block, a)
      ensures Straight(rec, a)
    {
      var patience: nat, preferQuit: bool := *, *;
      while patience > 0 && |queue| >= cap && !quit
        invariant Inv() && Later()
        invariant old(|queue|) < cap && !old(quit) ==>
          queue == old(queue) && !quit && log == old(log) && evicted == old(evicted) && Taken() == old(Taken())
      {
        Others();
        patience := patience - 1;
      }
      if quit && (preferQuit || |queue| >= cap) { Drop(); return Dropped; }
      if |queue| >= cap { return Waiting; }
      Send(rec);
      assert log[|log| - 1] == rec;
      a := Accepted;
    }

    method EnqueueDropNew(rec: FlowRecord) returns (a: Answer)
      requires Inv()
      modifies this
      ensures Inv() && Later() && Answered(|old(log)|, old(rejected), rec, DropNew, a)
      ensures Straight(rec, a)
      ensures old(|queue|) >= cap ==> a == Dropped && queue == old(queue) && evicted == old(evicted)
    {
      var preferQuit: bool := *;
      if |queue| >= cap || (quit && preferQuit) { Drop(); return Dropped; }
      Send(rec);
      assert log[|log| - 1] == rec;
      a := Accepted;
    }

    // The oldest record goes, unless the consumer was faster.
    method MakeRoom()
      requires Inv()
      modifies this
      ensures Inv() && Later()
      ensures old(queue) != [] ==> |evicted| > old(|evicted|) || |Taken()| > old(|Taken()|)
    {
      Others();
      if queue != [] { Evict(); }
      else if old(queue) != [] { Drained(old(log), old(evicted), old(Taken()), old(queue)); }
      Others();
    }

    // Makes room by evicting the oldest; another producer may take that room first.
    method EnqueueDropOld(rec: FlowRecord) returns (a: Answer)
      requires Inv()
      modifies this
      ensures Inv() && Later() && Answered(|old(log)|, old(rejected), rec, DropOld, a)
      ensures Straight(rec, a)
      ensures old(|queue|) >= cap > 0 && !old(quit) ==>
        |evicted| > old(|evicted|) || |Taken()| > old(|Taken()|)
    {
      var preferQuit: bool := *;
      if quit && (preferQuit || |queue| >= cap) { Drop(); return Dropped; }
      if |queue| >= cap {
        MakeRoom();
        if |queue| >= cap { Drop(); return Dropped; }
      }
      Send(rec);
      assert log[|log| - 1] == rec;
      a := Accepted;
    }

    // A queue that was not empty and now is, with nothing evicted: the consumer has taken from it.
    lemma Drained(log0: seq<FlowRecord>, evicted0: set<nat>, taken0: seq<FlowRecord>, queue0: seq<FlowRecord>)
      requires Inv() && queue == [] && queue0 != [] && |log0| <= |log| && |evicted0| <= |evicted|
      requires taken0 + queue0 == Survivors(log0, evicted0) && forall i | i in evicted0 :: i < |log0|
      ensures |evicted| > |evicted0| || |Taken()| > |taken0|
    {
      SurvivorsCount(log, evicted);
      SurvivorsCount(log0, evicted0);
    }

    // ---- the consumer ----

    // One record off the queue; a full batch is flushed at once.
    method Consume(batchSize: int)
      requires Inv() && queue != []
      modifies this`queue, this`batch, this`flushed
      ensures Inv() && Later() && quit == old(quit) && queue == old(queue)[1..]
      ensures var more := old(batch) + [old(queue)[0]];
        if |more| >= batchSize then batch == [] && flushed == old(flushed) + [more]
        else batch == more && flushed == old(flushed)
    {
      Receive();
      if |batch| >= batchSize { Flush(); }
    }

    // What the consumer does next: the ticker flushes what is due, and otherwise a record is taken if there is one.
    method Round(tick: bool, due: bool, batchSize: int)
      requires Inv()
      modifies this`queue, this`batch, this`flushed
      ensures Inv() && Later() && quit == old(quit) && log == old(log)
      ensures !tick && old(queue) != [] ==> var more := old(batch) + [old(queue)[0]];
        if |more| >= batchSize then batch == [] && flushed == old(flushed) + [more]
        else batch == more && flushed == old(flushed)
      ensures tick && due ==> batch == [] && queue == old(queue) && Taken() == old(Taken())
      ensures (tick && !due) || (!tick && old(queue) == []) ==> batch == old(batch) && flushed == old(flushed)
    {
      if tick {
        if due { Flush(); }
      } else if queue != [] {
        Consume(batchSize);
      }
    }

    // Until told to quit, and then until the queue has stayed empty for a while.  At the end everything that was
    // accepted and not evicted has been flushed.
    method Run() returns (exited: bool)
      requires Inv() && batch == []
      modifies this
      ensures Inv() && Later()
      ensures exited ==> quit && batch == [] && queue == [] && Flat(flushed) == Survivors(log, evicted)
    {
      var rounds: nat := *;
      while rounds > 0 && !quit
        invariant Inv() && Later()
      {
        Producers();
        var tick: bool, due: bool, retired: bool, batchSize: int := *, *, *, *;
        Round(tick, due, batchSize);
        quit := quit || retired;
        rounds := rounds - 1;
      }
      exited := false;
      if quit { exited := DrainQueue(); }
    }

    method DrainQueue() returns (exited: bool)
      requires Inv() && quit
      modifies this
      ensures Inv() && Later() && quit
      ensures exited ==> batch == [] && queue == [] && Flat(flushed) == Survivors(log, evicted)
    {
      var left: nat := *;
      var idle := false;
      while left > 0 && !idle
        invariant Inv() && Later() && quit && (idle ==> queue == [])
      {
        Producers();
        var batchSize: int := *;
        if queue != [] { Consume(batchSize); } else { idle := *; }
        left := left - 1;
      }
      exited := idle;
      if exited { Flush(); }
    }
  }

  lemma RemoveAt(taken: seq<FlowRecord>, queue: seq<FlowRecord>)
    requires queue != []
    ensures var all := taken + queue;
      all[..|taken|] + all[|taken| + 1..] == taken + queue[1..] && all[|taken|] == queue[0]
  {
  }

  lemma MoveOne(done: seq<FlowRecord>, batch: seq<FlowRecord>, queue: seq<FlowRecord>)
    requires queue != []
    ensures done + batch + queue == done + (batch + [queue[0]]) + queue[1..]
  {
  }

  // ---- routing ----

  // The 4-byte form of an exporter address that has one.
  function To4(ip: Bytes): Option<Bytes> {
    if |ip| == 4 then Some(ip)
    else if |ip| == 16 && ip[..10] == [0, 0, 0, 0, 0, 0, 0, 0, 0, 0] && ip[10] == 255
      && ip[11] == 255 then Some(ip[12..])
    else None
  }

  datatype Source = Source(exporter: Bytes, device: nat)

  function SourceOf(rec: FlowRecord): Source {
    Source(match To4(rec.exporter) { case Some(b) => b case None => rec.exporter }, rec.device % 0x1_0000_0000)
  }

  function Low(x: nat): Bytes {
    [x % 256, (x / 0x100) % 256, (x / 0x1_0000) % 256, (x / 0x100_0000) % 256]
  }

  // Multiply-shift of the FNV-1a hash of exporter and device.
  function ShardIndex(rec: FlowRecord, n: nat): (i: nat)
    ensures n > 0 ==> i < n
  {
    if n <= 1 then 0
    else
      var s := SourceOf(rec);
      Reduce(Fnv(2166136261, s.exporter + Low(s.device)) as int, n)
  }

  function Reduce(h: nat, n: nat): (i: nat)
    requires h < 0x1_0000_0000 && n > 0
    ensures i < n && i * 0x1_0000_0000 <= h * n < (i + 1) * 0x1_0000_0000
  {
    Scaled(h, n);
    (h * n) / 0x1_0000_0000
  }

  lemma Scaled(h: nat, n: nat)
    requires h < 0x1_0000_0000 && n > 0
    ensures (h * n) / 0x1_0000_0000 < n
  {
    assert h * n < 0x1_0000_0000 * n;
  }

  function Routed(log: seq<FlowRecord>, n: nat, shard: nat): seq<FlowRecord> {
    if log == [] then []
    else (if ShardIndex(log[0], n) == shard then [log[0]] else []) + Routed(log[1..], n, shard)
  }

  function From(log: seq<FlowRecord>, s: Source): seq<FlowRecord> {
    if log == [] then [] else (if SourceOf(log[0]) == s then [log[0]] else []) + From(log[1..], s)
  }

  // All of a source's records meet on one shard, in the order the pool got them.
  lemma {:induction false} SourceOrderKept(log: seq<FlowRecord>, n: nat, rec: FlowRecord)
    ensures From(Routed(log, n, ShardIndex(rec, n)), SourceOf(rec)) == From(log, SourceOf(rec))
    decreases |log|
  {
    if log != [] {
      SourceOrderKept(log[1..], n, rec);
      SameShard(log[0], rec, n);
      var rest := Routed(log[1..], n, ShardIndex(rec, n));
      assert ([log[0]] + rest)[1..] == rest;
      assert [] + rest == rest;
    }
  }

  lemma SameShard(a: FlowRecord, b: FlowRecord, n: nat)
    ensures SourceOf(a) == SourceOf(b) ==> ShardIndex(a, n) == ShardIndex(b, n)
  {
  }

  // Device 7 of exporter 192.0.2.1, among three shards.
  lemma KnownShard(rec: FlowRecord)
    requires rec.exporter == [192, 0, 2, 1] && rec.device == 7
    ensures ShardIndex(rec, 3) == 2 && ShardIndex(rec, 8) == 7
  {
    var text := [192, 0, 2, 1] + Low(7);
    assert text == [192, 0, 2, 1, 7, 0, 0, 0];
    KnownText(text);
  }

  lemma KnownText(text: Bytes)
    requires text == [192, 0, 2, 1, 7, 0, 0, 0]
    ensures Fnv(2166136261, text) == 4105339331
  {
    FnvFirst(2166136261, 192, text[0..]);
    FnvFirst(1158360799, 0, text[1..]);
    FnvFirst(2409285901, 2, text[2..]);
    FnvFirst(531268253, 1, text[3..]);
    FnvFirst(1969986452, 7, text[4..]);
    FnvFirst(1801840745, 0, text[5..]);
    FnvFirst(2053954891, 0, text[6..]);
    FnvFirst(73424145, 0, text[7..]);
  }
}
