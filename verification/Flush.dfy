/** One writer shard flushing a batch: Begin, the retried send, row-by-row salvage, and the
    Ready, Done or Quarantine that follows.  Every file-system call and database answer is one
    step of the write-ahead log, so all that holds of its runs holds of this code; and before each of
    them the other shards and the replay loop may have taken any number of steps of their own.  */
module Flush {
  import opened Prelude
  import opened SpoolDisk
  import opened Wal
  import opened WalTheorems
  import opened Company
  import opened SpoolStats

  // What became of one row of the batch.
  datatype Fate = Inserted | Rejected | Dropped | OnDisk

  function Count(fates: seq<Fate>, fate: Fate): nat {
    if fates == [] then 0 else Count(fates[..|fates| - 1], fate) + if fates[|fates| - 1] == fate then 1 else 0
  }

  lemma CountUniform(k: nat, fate: Fate, other: Fate)
    ensures Count(seq(k, _ => fate), other) == if fate == other then k else 0
  {
    if k > 0 {
      assert seq(k, _ => fate)[..k - 1] == seq(k - 1, _ => fate);
      CountUniform(k - 1, fate, other);
    }
  }

  // No row is counted twice and none is forgotten.
  lemma CountsAddUp(fates: seq<Fate>)
    ensures Count(fates, Inserted) + Count(fates, Rejected) + Count(fates, Dropped) + Count(fates, OnDisk) == |fates|
  {
    if fates != [] {
      CountsAddUp(fates[..|fates| - 1]);
    }
  }

  lemma CountZero(fates: seq<Fate>, fate: Fate)
    ensures Count(fates, fate) == 0 <==> fate !in fates
  {
    if fates != [] {
      var last := |fates| - 1;
      CountZero(fates[..last], fate);
      assert fates == fates[..last] + [fates[last]];
    }
  }

  method NextId(used: set<nat>) returns (f: nat)
    ensures f !in used
  {
    f := 0;
    var rest := used;
    while rest != {}
      invariant forall g | g in used && g !in rest :: g < f
      decreases rest
    {
      var g :| g in rest;
      rest := rest - {g};
      f := if g < f then f else g + 1;
    }
  }

  // Where a call takes its caller.
  function NextPc(pc: PC, ok: bool): PC {
    match pc
    case OpeningTmp(n, f, save) => if ok then FillingTmp(n, f, save) else Idle
    case FillingTmp(n, f, save) => if ok then PlacingActive(n, f, save) else CleaningTmp(n, f)
    case PlacingActive(n, f, save) => if ok then SyncingActive(n, f, save) else CleaningTmp(n, f)
    case SyncingActive(n, f, save) =>
      if !ok then CleaningActive(n, f) else if save then Releasing(n, f) else Sending(n, f)
    case Releasing(n, f) => if ok then SyncingMain else Idle
    case Discarding(n, f) => if ok then SyncingMain else Idle
    case SettingAside(n, f) => if ok then SyncingQuarantine else Idle
    case SyncingQuarantine => if ok then SyncingMain else Idle
    case _ => Idle
  }

  lemma CallMoves(s: State, a: Actor, ok: bool)
    requires Inv(s) && Enabled(s, Call(a, ok))
    ensures var t := DoCall(s, a, ok);
      && t.proc.Up? && Pc(t, a) == NextPc(Pc(s, a), ok) && t.batches == s.batches
      && t.begun == if Pc(s, a).SyncingActive? && ok then s.begun + {Pc(s, a).f} else s.begun
  {
    assert PcOk(s, a, Pc(s, a));
  }

  ghost function NextReady(ready: set<nat>, pc: PC, ok: bool): set<nat> {
    if ok && (pc.Discarding? || pc.SettingAside?) then ready - {pc.n}
    else if ok && pc.Releasing? then ready + {pc.n} else ready
  }

  lemma CallMovesReady(s: State, a: Actor, ok: bool)
    requires Inv(s) && Enabled(s, Call(a, ok))
    ensures ReadyNumbers(DoCall(s, a, ok)) == NextReady(ReadyNumbers(s), Pc(s, a), ok)
  {
    var t, pc := DoCall(s, a, ok), Pc(s, a);
    assert PcOk(s, a, pc);
    forall n: nat ensures n in ReadyNumbers(t) <==> n in NextReady(ReadyNumbers(s), pc, ok) {
      ReadyListed(t, n);
      ReadyListed(s, n);
      if Busy(pc) && pc.n == n { CallLists(s, a, ok); } else { CallTouches(s, a, ok, n); }
    }
  }

  // What a call does to the number in hand.
  lemma CallLists(s: State, a: Actor, ok: bool)
    requires Inv(s) && Enabled(s, Call(a, ok)) && Busy(Pc(s, a))
    ensures var pc := Pc(s, a); Ready in Live(DoCall(s, a, ok), pc.n) <==>
      if ok && (pc.Discarding? || pc.SettingAside?) then false else if ok && pc.Releasing? then true
        else Ready in Live(s, pc.n)
  {
    assert PcOk(s, a, Pc(s, a));
    SyncLive(s.disk, Pc(s, a).n);
  }

  // What a successful release, removal or setting aside leaves under the number in hand.
  function Moved(pc: PC): Entries
    requires Moving(pc)
  {
    match pc
    case Releasing(_, f) => map[Ready := File(f, true)]
    case SettingAside(_, f) => map[Quarantined := File(f, true)]
    case Discarding(_, _) => map[]
  }

  predicate Moving(pc: PC) { pc.Releasing? || pc.SettingAside? || pc.Discarding? }

  // The one file of a number: a writer's own is active, the replay loop's released.
  function OwnFile(a: Actor, f: nat): Entries {
    map[if a.Replay? then Ready else Active := File(f, true)]
  }

  lemma CallFiles(s: State, a: Actor, ok: bool)
    requires Inv(s) && Enabled(s, Call(a, ok)) && Moving(Pc(s, a))
    ensures Live(DoCall(s, a, ok), Pc(s, a).n) == if ok then Moved(Pc(s, a)) else OwnFile(a, Pc(s, a).f)
  {
    assert PcOk(s, a, Pc(s, a));
  }

  lemma SalvageMoves(s: State, a: Actor, reply: Reply)
    requires Enabled(s, SalvageRow(a, reply))
    ensures var t, pc := DoSalvageRow(s, a, reply), Pc(s, a);
      && t.proc.Up? && t.begun == s.begun && t.disk == s.disk
      && Pc(t, a) == Salvaging(pc.n, pc.f, pc.row + 1, pc.rejected || reply.RowRefused?, pc.dropped || reply.Failed?)
      && t.batches == if reply.Stored?
         then s.batches[pc.f := s.batches[pc.f].(acked := s.batches[pc.f].acked[pc.row := true])]
                      else s.batches
  {
  }

  // A batch in the log is on the disk under one name, now and after a power loss.
  ghost predicate InLog(m: State, f: nat) {
    f in m.begun && f in m.batches && OnceOnDisk(m.disk, f) && SurvivesPowerLoss(m.disk, f)
  }

  // A row of a begun batch is acknowledged, or its batch is in the log.
  lemma RowSafe(m: State, f: nat, row: nat)
    requires Reachable(false, m) && f in m.begun && f in m.batches && row < |m.batches[f].acked|
    ensures m.batches[f].acked[row] || InLog(m, f)
  {
    ReachableInv(m);
    InvMeansNothingLost(m);
  }

  // From the replay loop's side: what was gone stays gone, the released batches only grow except for
  // number n once it is removed, and arrivals pay for the growth.
  ghost predicate Steady(s: State, a: nat, t: State, a': nat, n: nat, removed: bool) {
    && (forall k: nat | Gone(s, k) :: Gone(t, k)) && ReadyNumbers(s) - {n} <= ReadyNumbers(t)
    && if removed then Gone(t, n) && |ReadyNumbers(t)| + a' < |ReadyNumbers(s)| + a
       else ReadyNumbers(s) <= ReadyNumbers(t) && |ReadyNumbers(t)| + a' <= |ReadyNumbers(s)| + a
  }

  lemma SteadyTwice(s: State, a: nat, t: State, a': nat, u: State, a'': nat, n: nat, first: bool, second: bool)
    requires Steady(s, a, t, a', n, first) && Steady(t, a', u, a'', n, second) && !(first && second)
    ensures Steady(s, a, u, a'', n, first || second)
  {
  }

  lemma CalmSteady(s: State, a: nat, t: State, a': nat, n: nat)
    requires Calm(s, t, Actor.Replay) && |ReadyNumbers(t)| + a' <= |ReadyNumbers(s)| + a
    ensures Steady(s, a, t, a', n, false)
  {
  }

  // The loop moves on: done with number n, or nothing changed for the others.
  lemma MovedSteady(s: State, t: State, a: nat, n: nat, removed: bool)
    requires s.proc.Up? && t.proc.Up? && t.proc.seqNo == s.proc.seqNo && Actor.Replay in t.proc.pcs
    requires t.proc.pcs == s.proc.pcs[Actor.Replay := t.proc.pcs[Actor.Replay]] && !Busy(Pc(t, Actor.Replay))
    requires ReadyNumbers(t) == if removed then ReadyNumbers(s) - {n} else ReadyNumbers(s)
    requires removed ==> n in ReadyNumbers(s) && n <= s.proc.seqNo
    requires removed ==> forall b | b in s.proc.pcs && b != Actor.Replay && Busy(s.proc.pcs[b]) :: s.proc.pcs[b].n != n
    ensures Steady(s, a, t, a, n, removed)
  {
    forall k: nat | Gone(s, k) ensures Gone(t, k) { }
  }

  // What the invariant says of the batch in the loop's hand.
  lemma LoopInHand(s: State, pc: PC)
    requires Inv(s) && s.proc.Up? && pc == Pc(s, Actor.Replay) && (pc.Discarding? || pc.SettingAside?)
    ensures pc.n in ReadyNumbers(s) && pc.n <= s.proc.seqNo
    ensures forall b | b in s.proc.pcs && b != Actor.Replay && Busy(s.proc.pcs[b]) :: s.proc.pcs[b].n != pc.n
  {
    assert PcOk(s, Actor.Replay, pc);
    ReadyListed(s, pc.n);
  }

  lemma OwnCallSteady(s: State, ok: bool, t: State, a: nat)
    requires Inv(s) && Enabled(s, Call(Actor.Replay, ok)) && t == DoCall(s, Actor.Replay, ok)
    ensures var pc := Pc(s, Actor.Replay);
      if Busy(pc) then (pc.Discarding? || pc.SettingAside? ==> Steady(s, a, t, a, pc.n, ok))
      else forall n: nat :: Steady(s, a, t, a, n, false)
  {
    var pc := Pc(s, Actor.Replay);
    CallPlaces(s, Actor.Replay, ok, t);
    CallMoves(s, Actor.Replay, ok);
    CallMovesReady(s, Actor.Replay, ok);
    if pc.Discarding? || pc.SettingAside? {
      LoopInHand(s, pc);
      MovedSteady(s, t, a, pc.n, ok);
    } else if !Busy(pc) {
      forall n: nat ensures Steady(s, a, t, a, n, false) { MovedSteady(s, t, a, n, false); }
    }
  }

  // Others' steps and then the loop's own call.
  lemma SteadyCall(before: State, a: nat, s: State, ok: bool, t: State, a': nat)
    requires Calm(before, s, Actor.Replay) && |ReadyNumbers(s)| + a' <= |ReadyNumbers(before)| + a
    requires Inv(s) && Enabled(s, Call(Actor.Replay, ok)) && t == DoCall(s, Actor.Replay, ok)
    ensures var pc := Pc(before, Actor.Replay);
      if Busy(pc) then (pc.Discarding? || pc.SettingAside? ==> Steady(before, a, t, a', pc.n, ok))
      else forall n: nat :: Steady(before, a, t, a', n, false)
  {
    var pc := Pc(before, Actor.Replay);
    OwnCallSteady(s, ok, t, a');
    if Busy(pc) {
      CalmSteady(before, a, s, a', pc.n);
      if pc.Discarding? || pc.SettingAside? { SteadyTwice(before, a, s, a', t, a', pc.n, false, ok); }
    } else {
      forall n: nat ensures Steady(before, a, t, a', n, false) {
        CalmSteady(before, a, s, a', n);
        SteadyTwice(before, a, s, a', t, a', n, false, false);
      }
    }
  }

  lemma AnswerLater(s: State, a: Actor, reply: Reply, giveUp: bool)
    requires Enabled(s, Answer(a, reply, giveUp))
    ensures var t := DoAnswer(s, a, reply, giveUp);
      && Later(s, t) && t.disk == s.disk && t.proc.Up? && t.proc.seqNo == s.proc.seqNo
      && t.proc.pcs.Keys == s.proc.pcs.Keys + {a}
      && (forall b | b in s.proc.pcs && b != a :: t.proc.pcs[b] == s.proc.pcs[b])
      && (Busy(t.proc.pcs[a]) ==> t.proc.pcs[a].n == Pc(s, a).n)
  {
  }

  lemma SalvageLater(s: State, a: Actor, reply: Reply)
    requires Enabled(s, SalvageRow(a, reply))
    ensures var t := DoSalvageRow(s, a, reply);
      && Later(s, t) && t.disk == s.disk && t.proc.Up? && t.proc.seqNo == s.proc.seqNo
      && t.proc.pcs.Keys == s.proc.pcs.Keys + {a}
      && (forall b | b in s.proc.pcs && b != a :: t.proc.pcs[b] == s.proc.pcs[b])
      && (Busy(t.proc.pcs[a]) ==> t.proc.pcs[a].n == Pc(s, a).n)
  {
  }

  // Where the last row of a salvage leads.
  function AfterSalvage(a: Actor, n: nat, f: nat, refused: bool, failed: bool, giveUp: bool): PC {
    if failed then (if a.Replay? then AfterFailure(a, n, f, giveUp) else Releasing(n, f))
    else if refused then SettingAside(n, f) else Discarding(n, f)
  }

  // How the rows answered so far were counted.
  ghost predicate Tallied(fates: seq<Fate>, logged: bool, kept: nat, refused: nat, failed: nat) {
    && (if logged then Dropped else OnDisk) !in fates && kept == Count(fates, Inserted)
    && refused == Count(fates, Rejected) && failed == Count(fates, if logged then OnDisk else Dropped)
  }

  lemma TalliedNext(fates: seq<Fate>, logged: bool, kept: nat, refused: nat, failed: nat, reply: Reply)
    requires Tallied(fates, logged, kept, refused, failed)
    ensures Tallied(fates + [Shard.FateOf(reply, logged)], logged, if reply.Stored? then kept + 1 else kept,
                    if reply.RowRefused? then refused + 1 else refused, if reply.Failed? then failed + 1 else failed)
  {
    var more := fates + [Shard.FateOf(reply, logged)];
    assert more[..|fates|] == fates;
  }

  lemma FaredNext(fates: seq<Fate>, replies: seq<Reply>, logged: bool, reply: Reply)
    requires Shard.Fared(fates, replies, logged)
    ensures Shard.Fared(fates + [Shard.FateOf(reply, logged)], replies + [reply], logged)
  {
  }

  lemma ToldMore(was: seq<Reply>, told: seq<Reply>, reply: Reply) returns (more: seq<Reply>)
    ensures more == told + [reply] && was + told + [reply] == was + more
  {
    more := told + [reply];
  }

  lemma Behind(was: seq<Reply>, told: seq<Reply>)
    ensures was <= was + told && (was + told)[|was|..] == told
  {
  }

  // A step of the loop that leaves the disk alone and keeps to its number.
  lemma SameDiskSteady(s: State, t: State, a: nat, n: nat)
    requires t.disk == s.disk && s.proc.Up? && t.proc.Up? && t.proc.seqNo == s.proc.seqNo && Busy(Pc(s, Actor.Replay))
    requires t.proc.pcs.Keys == s.proc.pcs.Keys + {Actor.Replay}
    requires forall b | b in s.proc.pcs && b != Actor.Replay :: t.proc.pcs[b] == s.proc.pcs[b]
    requires Busy(Pc(t, Actor.Replay)) ==> Pc(t, Actor.Replay).n == Pc(s, Actor.Replay).n
    ensures Steady(s, a, t, a, n, false)
  {
    forall k: nat | Gone(s, k) ensures Gone(t, k) {
      assert Actor.Replay in s.proc.pcs;
    }
  }

  class Shard {
    const me: Actor
    const spooled: bool // a spool directory is configured
    var m: State  // disk, process and database
    var led: Ledger  // the spool's counters
    const size: Sizes
    const maxBytes: nat // the spool's size cap; zero means none
    // How many batches the others will still release to replay.
    var arrivals: nat

    // How many file-system calls of this actor have failed, and what the database answered to its sends of whole
    // batches and of single rows.
    var errors: nat
    var replies: seq<Reply>
    var answers: seq<Reply>

    // counters: FlowsInserted, FlowsRejected, FlowsDropped
    var inserted: nat
    var rejected: nat
    var dropped: nat

    constructor (me: Actor, spooled: bool, m: State, arrivals: nat, size: Sizes, led: Ledger, maxBytes: nat)
      requires Reachable(false, m) && m.proc.Up? && Pc(m, me).Idle? && Books(size, led, m)
      ensures Alive() && Pc(this.m, this.me).Idle? && this.me == me && this.spooled == spooled
        && this.arrivals == arrivals
      ensures inserted == rejected == dropped == errors == 0 && replies == answers == []
    {
      this.me, this.spooled, this.m, this.arrivals := me, spooled, m, arrivals;
      this.size, this.led, this.maxBytes := size, led, maxBytes;
      inserted, rejected, dropped, errors := 0, 0, 0, 0;
      replies, answers := [], [];
    }

    ghost predicate Alive()
      reads this
    {
      Reachable(false, m) && m.proc.Up? && Booked(size, led, m)
    }

    // One step of the log, and of the counters beside it.
    method Move(e: Event)
      requires Alive() && Enabled(m, e) && Counted(m, e) && Do(m, e).proc.Up?
      modifies this`m, this`led
      ensures Alive() && m == Do(old(m), e) && led == Post(size, old(led), old(m), e)
    {
      ReachableInv(m);
      StepBooked(size, m, e, led);
      ghost var _ := Reach(false, m, e);
      led := Post(size, led, m, e);
      m := Do(m, e);
    }

    // Any steps of the other actors; a release uses up one arrival.
    method Others()
      requires Alive()
      modifies this`m, this`led, this`arrivals
      ensures Alive() && Calm(old(m), m, me)
      ensures me.Replay? ==> |ReadyNumbers(m)| + arrivals <= |ReadyNumbers(old(m))| + old(arrivals)
    {
      ghost var start := m;
      CalmStays(m, me);
      var steps: nat := *;
      while steps > 0
        invariant Alive() && Calm(start, m, me)
        invariant me.Replay? ==> |ReadyNumbers(m)| + arrivals <= |ReadyNumbers(start)| + old(arrivals)
      {
        ghost var was := m;
        OtherStep();
        CalmTwice(start, was, m, me);
        steps := steps - 1;
      }
    }

    method OtherStep()
      requires Alive()
      modifies this`m, this`led, this`arrivals
      ensures Alive() && Calm(old(m), m, me)
      ensures me.Replay? ==> |ReadyNumbers(m)| + arrivals <= |ReadyNumbers(old(m))| + old(arrivals)
    {
      CalmStays(m, me);
      var e: Event := *;
      if !Possible(m, e, me) { return; }
      PossibleIsEnabled(m, e, me);
      ReachableInv(m);
      ForeignCalm(m, e, me);
      var t := Do(m, e);
      if me.Replay? { OneArrival(m, e, t); }
      var released := |ReadyNumbers(t)| > |ReadyNumbers(m)|;
      if released && arrivals == 0 { return; }
      Move(e);
      if released { arrivals := arrivals - 1; }
    }

    // One file-system call, whatever its result; `s` is the state it found.
    method Syscall() returns (ok: bool, ghost s: State)
      requires Alive() && CanCall(Pc(m, me))
      modifies this`m, this`led, this`arrivals, this`errors
      ensures errors == old(errors) + if ok then 0 else 1
      ensures Moving(Pc(old(m), me)) ==>
        Live(m, Pc(old(m), me).n) == if ok then Moved(Pc(old(m), me)) else OwnFile(me, Pc(old(m), me).f)
      ensures Alive() && Calm(old(m), s, me) && Reachable(false, s) && s.proc.Up? && s.batches == m.batches
      ensures Pc(m, me) == NextPc(Pc(old(m), me), ok)
      ensures m.begun == if Pc(old(m), me).SyncingActive? && ok then s.begun + {Pc(old(m), me).f} else s.begun
      ensures ReadyNumbers(m) == NextReady(ReadyNumbers(s), Pc(old(m), me), ok)
      ensures me.Replay? ==> |ReadyNumbers(s)| + arrivals <= |ReadyNumbers(old(m))| + old(arrivals)
      ensures Later(old(m), m)
      ensures Busy(Pc(old(m), me)) && Pc(old(m), me).f in old(m.batches) ==>
        m.batches[Pc(old(m), me).f] == old(m).batches[Pc(old(m), me).f]
      ensures me.Replay? && Busy(Pc(old(m), me)) && (Pc(old(m), me).Discarding? || Pc(old(m), me).SettingAside?) ==>
        Steady(old(m), old(arrivals), m, arrivals, Pc(old(m), me).n, ok)
      ensures me.Replay? && !Busy(Pc(old(m), me)) ==>
        forall n: nat :: Steady(old(m), old(arrivals), m, arrivals, n, false)
    {
      Others();
      s := m;
      ok := *;
      ReachableInv(m);
      CallMoves(m, me, ok);
      CallMovesReady(m, me, ok);
      ghost var t := DoCall(m, me, ok);
      if me.Replay? { SteadyCall(old(m), old(arrivals), s, ok, t, arrivals); }
      if Moving(Pc(m, me)) { CallFiles(m, me, ok); }
      Move(Call(me, ok));
      if !ok { errors := errors + 1; }
    }

    // Begin looks at the cap and takes the next sequence number under one lock.
    method Take(rows: nat, save: bool) returns (full: bool, f: nat)
      requires Alive() && me.Writer? && Pc(m, me).Idle? && rows > 0
      modifies this`m, this`led, this`arrivals
      ensures Alive() && Later(old(m), m) && (full ==> Pc(m, me).Idle? && maxBytes > 0 && led.bytes >= maxBytes)
      ensures !full ==> f !in old(m.batches) && f in m.batches && m.batches[f].acked == seq(rows, _ => false)
      ensures !full ==> Pc(m, me) == OpeningTmp(m.batches[f].n, f, save) && (maxBytes > 0 ==> led.bytes < maxBytes)
    {
      Others();
      f := 0;
      full := maxBytes > 0 && led.bytes >= maxBytes;
      if full { return; }
      f := NextId(m.batches.Keys);
      Move(Reserve(me.w, f, rows, save));
    }

    // One call of an actor that owns batch f.
    method Step(ghost f: nat) returns (ok: bool)
      requires Alive() && Owns(f) && CanCall(Pc(m, me))
      modifies this`m, this`led, this`arrivals, this`errors
      ensures Alive() && Later(old(m), m) && f in m.batches && m.batches[f] == old(m).batches[f]
        && Pc(m, me) == NextPc(Pc(old(m), me), ok)
      ensures Pc(old(m), me).SyncingActive? && ok ==> f in m.begun
      ensures errors == old(errors) + if ok then 0 else 1
    {
      ghost var s;
      ok, s := Syscall();
    }

    // The temporary file is written and synced, or cleaned up.
    method WriteTmp(ghost f: nat) returns (ok: bool)
      requires Alive() && Pc(m, me).OpeningTmp? && Owns(f)
      modifies this`m, this`led, this`arrivals, this`errors
      ensures Alive() && Later(old(m), m) && f in m.batches && m.batches[f] == old(m).batches[f]
      ensures if ok then errors == old(errors) else errors > old(errors)
      ensures Pc(m, me) == var pc := Pc(old(m), me); if ok then PlacingActive(pc.n, pc.f, pc.save) else Idle
    {
      ghost var start := m;
      ok := Step(f); // open the temporary file
      if !ok { return; }
      ghost var open := m;
      ok := Step(f); // encode, sync and close it
      LaterTwice(start, open, m);
      if !ok {
        ghost var failed := m;
        var gone := Step(f);
        LaterTwice(start, failed, m);
      }
    }

    // It is renamed to its active name and the directory synced, or cleaned up.
    method PlaceActive(ghost f: nat) returns (ok: bool)
      requires Alive() && Pc(m, me).PlacingActive? && Owns(f)
      modifies this`m, this`led, this`arrivals, this`errors
      ensures Alive() && Later(old(m), m) && f in m.batches && m.batches[f] == old(m).batches[f]
      ensures ok ==> f in m.begun && Pc(m, me) == var pc := Pc(old(m), me);
        if pc.save then Releasing(pc.n, f) else Sending(pc.n, f)
      ensures !ok ==> Pc(m, me).Idle?
      ensures if ok then errors == old(errors) else errors > old(errors)
    {
      ghost var start := m;
      ok := Step(f);
      ghost var placed := m;
      if ok {
        ok := Step(f);
        LaterTwice(start, placed, m);
      }
      if !ok {
        ghost var failed := m;
        var gone := Step(f);
        LaterTwice(start, failed, m);
      }
    }

    // spool.Begin: nothing is begun at the cap, and a handle is returned only once the batch is synced under
    // its active name.
    method Begin(rows: nat, save: bool) returns (handle: bool, f: nat)
      requires Alive() && me.Writer? && Pc(m, me).Idle? && rows > 0
      modifies this`m, this`led, this`arrivals, this`errors
      ensures Alive() && Later(old(m), m)
      ensures handle ==> f in m.batches && m.batches[f].acked == seq(rows, _ => false)
      ensures handle ==> f in m.begun && Owns(f) && if save then Pc(m, me).Releasing? else Pc(m, me).Sending?
      ensures !handle ==> Pc(m, me).Idle? && (errors > old(errors) || maxBytes > 0)
      ensures handle ==> errors == old(errors) && f !in old(m.batches)
      ensures errors >= old(errors)
    {
      var full;
      full, f := Take(rows, save);
      handle := false;
      if full { return; }
      handle := Write(f);
    }

    method Write(ghost f: nat) returns (ok: bool)
      requires Alive() && Pc(m, me).OpeningTmp? && Owns(f)
      modifies this`m, this`led, this`arrivals, this`errors
      ensures Alive() && Later(old(m), m) && f in m.batches && m.batches[f] == old(m).batches[f]
      ensures ok ==> f in m.begun && Owns(f) && if Pc(old(m), me).save then Pc(m, me).Releasing? else Pc(m, me).Sending?
      ensures !ok ==> Pc(m, me).Idle?
      ensures if ok then errors == old(errors) else errors > old(errors)
    {
      ghost var start := m;
      ok := WriteTmp(f);
      ghost var written := m;
      if ok {
        ok := PlaceActive(f);
        LaterTwice(start, written, m);
      }
    }

    // The actor works on the file of batch f.
    ghost predicate Owns(f: nat)
      reads this
    {
      f in m.batches && Busy(Pc(m, me)) && Pc(m, me).f == f
    }

    // The file of batch f as `at` shows it, between the start of an operation and now.
    ghost predicate Placed(start: State, at: State, f: nat, files: Entries)
      reads this
    {
      && Later(start, at) && Later(at, m) && Reachable(false, at)
      && f in at.batches && Live(at, at.batches[f].n) == files
    }

    // The same seen from an earlier start, together with what the replay loop finds.
    lemma PlacedFrom(start: State, a: nat, was: State, b: nat, at: State, f: nat, files: Entries, n: nat, removed: bool)
      requires Later(start, was) && Placed(was, at, f, files)
      requires Steady(start, a, was, b, n, false) && Steady(was, b, m, arrivals, n, removed)
      ensures Placed(start, at, f, files) && Steady(start, a, m, arrivals, n, removed)
    {
      LaterTwice(start, was, at);
      SteadyTwice(start, a, was, b, m, arrivals, n, false, removed);
    }

    // spool.Ready and spool.Done: one rename or unlink, then the directory sync.  An error may leave the
    // file where it is; afterwards the batch is anyone's.  `at` is the state right after the change.
    method ReadyOrDone(ghost f: nat) returns (ok: bool, ghost removed: bool, ghost at: State)
      requires Alive() && Owns(f) && (Pc(m, me).Releasing? || Pc(m, me).Discarding?)
        && (me.Replay? ==> Pc(m, me).Discarding?)
      modifies this`m, this`led, this`arrivals, this`errors
      ensures Alive() && Pc(m, me).Idle? && Later(old(m), m) && (ok ==> removed)
      ensures me.Replay? ==> Steady(old(m), old(arrivals), m, arrivals, Pc(old(m), me).n, removed)
      ensures if ok then errors == old(errors) else errors > old(errors)
      ensures Placed(old(m), at, f, if removed then Moved(Pc(old(m), me)) else OwnFile(me, f))
    {
      ghost var s, n := *, Pc(m, me).n;
      OwnNumber(f);
      ok, s := Syscall();
      removed, at := ok, m;
      LaterItself(m);
      if ok { ok := SyncMain(n, old(m), old(arrivals), at); }
    }

    lemma OwnNumber(f: nat)
      requires Alive() && Owns(f)
      ensures m.batches[f].n == Pc(m, me).n
    {
      ReachableInv(m);
      assert PcOk(m, me, Pc(m, me));
    }

    // The directory sync behind a change that is already made.
    method SyncMain(ghost n: nat, ghost start: State, ghost a: nat, ghost at: State) returns (ok: bool)
      requires Alive() && Pc(m, me).SyncingMain? && Later(start, m) && Later(at, m)
        && (me.Replay? ==> Steady(start, a, m, arrivals, n, true))
      modifies this`m, this`led, this`arrivals, this`errors
      ensures Alive() && Pc(m, me).Idle? && Later(start, m) && Later(at, m)
        && (me.Replay? ==> Steady(start, a, m, arrivals, n, true))
      ensures if ok then errors == old(errors) else errors > old(errors)
    {
      ghost var was, b, s := m, arrivals, *;
      ok, s := Syscall();
      LaterTwice(start, was, m);
      LaterTwice(at, was, m);
      if me.Replay? { SteadyTwice(start, a, was, b, m, arrivals, n, true, false); }
    }

    // spool.Quarantine: a move into the quarantine directory, then both directory syncs.
    method Quarantine(ghost f: nat) returns (ok: bool, ghost removed: bool, ghost at: State)
      requires Alive() && Owns(f) && Pc(m, me).SettingAside?
      modifies this`m, this`led, this`arrivals, this`errors
      ensures Alive() && Pc(m, me).Idle? && Later(old(m), m) && (ok ==> removed)
      ensures me.Replay? ==> Steady(old(m), old(arrivals), m, arrivals, Pc(old(m), me).n, removed)
      ensures if ok then errors == old(errors) else errors > old(errors)
      ensures Placed(old(m), at, f, if removed then map[Quarantined := File(f, true)] else OwnFile(me, f))
    {
      ghost var start, a, s, n := m, arrivals, *, Pc(m, me).n;
      OwnNumber(f);
      ok, s := Syscall();
      removed, at := ok, m;
      LaterItself(m);
      if ok { ok := SyncBoth(n, start, a, at); }
    }

    method SyncBoth(ghost n: nat, ghost start: State, ghost a: nat, ghost at: State) returns (ok: bool)
      requires Alive() && Pc(m, me).SyncingQuarantine? && Later(start, m) && Later(at, m)
        && (me.Replay? ==> Steady(start, a, m, arrivals, n, true))
      modifies this`m, this`led, this`arrivals, this`errors
      ensures Alive() && Pc(m, me).Idle? && Later(start, m) && Later(at, m)
        && (me.Replay? ==> Steady(start, a, m, arrivals, n, true))
      ensures if ok then errors == old(errors) else errors > old(errors)
    {
      ghost var was, b, s := m, arrivals, *;
      ok, s := Syscall();
      LaterTwice(start, was, m);
      LaterTwice(at, was, m);
      if me.Replay? { SteadyTwice(start, a, was, b, m, arrivals, n, true, false); }
      if ok { ok := SyncMain(n, start, a, at); }
    }

    // One send of the whole batch; nobody else touches it meanwhile.
    method SendLogged(ghost f: nat, giveUp: bool) returns (reply: Reply)
      requires Alive() && Owns(f) && Pc(m, me).Sending?
      modifies this`m, this`led, this`arrivals
      ensures Alive() && Later(old(m), m) && f in m.batches && |m.batches[f].acked| == |old(m).batches[f].acked|
      ensures m.batches[f].n == old(m).batches[f].n == Pc(old(m), me).n && Live(m, m.batches[f].n) == OwnFile(me, f)
      ensures reply.Stored? ==> Pc(m, me) == Discarding(m.batches[f].n, f)
      ensures !reply.Stored? ==> m.batches[f] == old(m).batches[f]
      ensures reply.RowRefused? ==> AtRow(f, 0, false, false)
      ensures reply.Failed? ==> Pc(m, me) == AfterFailure(me, Pc(old(m), me).n, f, giveUp)
      ensures me.Replay? ==> Steady(old(m), old(arrivals), m, arrivals, Pc(old(m), me).n, false)
    {
      ghost var start, a := m, arrivals;
      Others();
      ReachableInv(m);
      assert PcOk(m, me, Pc(m, me));
      reply := *;
      ghost var s := m;
      ghost var t := Do(m, Answer(me, reply, giveUp));
      AnswerLater(s, me, reply, giveUp);
      LaterTwice(start, s, t);
      if me.Replay? { StillSteady(start, a, s, t); }
      Move(Answer(me, reply, giveUp));
    }

    method Send(ghost f: nat, giveUp: bool) returns (reply: Reply)
      requires Alive() && Owns(f) && Pc(m, me).Sending?
      modifies this`m, this`led, this`arrivals, this`replies
      ensures replies == old(replies) + [reply]
      ensures Alive() && Later(old(m), m) && f in m.batches && |m.batches[f].acked| == |old(m).batches[f].acked|
      ensures m.batches[f].n == old(m).batches[f].n == Pc(old(m), me).n && Live(m, m.batches[f].n) == OwnFile(me, f)
      ensures reply.Stored? ==> Pc(m, me) == Discarding(m.batches[f].n, f)
      ensures !reply.Stored? ==> m.batches[f] == old(m).batches[f]
      ensures reply.RowRefused? ==> AtRow(f, 0, false, false)
      ensures reply.Failed? ==> Pc(m, me) == AfterFailure(me, Pc(old(m), me).n, f, giveUp)
      ensures me.Replay? ==> Steady(old(m), old(arrivals), m, arrivals, Pc(old(m), me).n, false)
    {
      reply := SendLogged(f, giveUp);
      replies := replies + [reply];
    }

    // One send of a batch that is not in the log.
    method SendPlain() returns (reply: Reply)
      modifies this`replies
      ensures replies == old(replies) + [reply]
    {
      reply := *;
      replies := replies + [reply];
    }

    // Salvage stands before row `row` of batch f, the earlier answers being those counted.
    ghost predicate AtRow(f: nat, row: nat, refused: bool, failed: bool)
      reads this
    {
      && Owns(f) && row <= |m.batches[f].acked|
      && Pc(m, me) == Salvaging(m.batches[f].n, f, row, refused, failed)
    }

    // The rows acknowledged are those acknowledged before and those now inserted.
    ghost predicate Acked(f: nat, before: seq<bool>, fates: seq<Fate>)
      reads this
    {
      f in m.batches && |fates| <= |before| == |m.batches[f].acked|
      && (forall j | 0 <= j < |fates| :: m.batches[f].acked[j] <==> before[j] || fates[j] == Inserted)
      && (forall j | |fates| <= j < |before| :: m.batches[f].acked[j] == before[j])
    }

    // One row of a logged batch sent on its own.
    method SalvageLogged(ghost f: nat, ghost before: seq<bool>, ghost fates: seq<Fate>, ghost refused: bool,
                         ghost failed: bool) returns (reply: Reply)
      requires Alive() && AtRow(f, |fates|, refused, failed) && Acked(f, before, fates) && |fates| < |before|
      modifies this`m, this`led, this`arrivals
      ensures Alive() && Later(old(m), m) && m.batches[f].n == old(m).batches[f].n
      ensures AtRow(f, |fates| + 1, refused || reply.RowRefused?, failed || reply.Failed?)
        && Acked(f, before, fates + [FateOf(reply, true)])
      ensures me.Replay? ==> Steady(old(m), old(arrivals), m, arrivals, Pc(old(m), me).n, false)
    {
      ghost var start, a := m, arrivals;
      Others();
      reply := *;
      ghost var s := m;
      SalvageMoves(m, me, reply);
      ghost var t := Do(m, SalvageRow(me, reply));
      SalvageLater(s, me, reply);
      LaterTwice(start, s, t);
      if me.Replay? { StillSteady(start, a, s, t); }
      Move(SalvageRow(me, reply));
    }

    // Others' steps, and then one of the loop's own that leaves the disk alone.
    lemma StillSteady(start: State, a: nat, s: State, t: State)
      requires me.Replay? && Calm(start, s, me) && |ReadyNumbers(s)| + arrivals <= |ReadyNumbers(start)| + a
        && Busy(Pc(start, me))
      requires t.disk == s.disk && t.proc.Up? && t.proc.seqNo == s.proc.seqNo
        && t.proc.pcs.Keys == s.proc.pcs.Keys + {me}
      requires forall b | b in s.proc.pcs && b != me :: t.proc.pcs[b] == s.proc.pcs[b]
      requires Busy(Pc(t, me)) ==> Pc(t, me).n == Pc(s, me).n
      ensures Steady(start, a, t, arrivals, Pc(start, me).n, false)
    {
      CalmSteady(start, a, s, arrivals, Pc(start, me).n);
      SameDiskSteady(s, t, arrivals, Pc(start, me).n);
      SteadyTwice(start, a, s, arrivals, t, arrivals, Pc(start, me).n, false, false);
    }

    // One row; only a logged batch is a matter of the write-ahead log.
    method SalvageOne(ghost f: nat, logged: bool, ghost before: seq<bool>, ghost fates: seq<Fate>,
                      ghost refused: bool, ghost failed: bool)
      returns (reply: Reply)
      requires Alive() && (!logged ==> Pc(m, me).Idle? && me.Writer?)
      requires logged ==> AtRow(f, |fates|, refused, failed) && Acked(f, before, fates) && |fates| < |before|
      modifies this`m, this`led, this`arrivals, this`answers
      ensures answers == old(answers) + [reply]
      ensures Alive() && Later(old(m), m) && (!logged ==> Pc(m, me).Idle?)
      ensures logged ==> AtRow(f, |fates| + 1, refused || reply.RowRefused?, failed || reply.Failed?)
      ensures logged ==> Acked(f, before, fates + [FateOf(reply, true)]) && m.batches[f].n == old(m).batches[f].n
      ensures me.Replay? ==> Steady(old(m), old(arrivals), m, arrivals, Pc(old(m), me).n, false)
    {
      if logged {
        reply := SalvageLogged(f, before, fates, refused, failed);
      } else {
        Others();
        reply := *;
      }
      answers := answers + [reply];
    }

    // The rows fared as their answers say.
    static predicate Fared(fates: seq<Fate>, replies: seq<Reply>, logged: bool) {
      |fates| == |replies| && forall i | 0 <= i < |fates| ::
        && (fates[i] == Inserted <==> replies[i].Stored?)
        && (fates[i] == Rejected <==> replies[i].RowRefused?)
        && (fates[i] == (if logged then OnDisk else Dropped) <==> replies[i].Failed?)
    }

    static function FateOf(reply: Reply, logged: bool): Fate {
      match reply
      case Stored => Inserted
      case RowRefused => Rejected
      case Failed => if logged then OnDisk else Dropped
    }

    // salvage: the batch is sent row by row, and each answer counted.
    method Salvage(ghost f: nat, rows: nat, logged: bool) returns (fates: seq<Fate>, refused: nat, failed: nat)
      requires Alive() && (!logged ==> Pc(m, me).Idle? && me.Writer?)
      requires logged ==> AtRow(f, 0, false, false) && |m.batches[f].acked| == rows
      modifies this`m, this`led, this`arrivals, this`answers, this`inserted, this`rejected
      ensures old(answers) <= answers && Fared(fates, answers[|old(answers)|..], logged)
      ensures Alive() && |fates| == rows && Later(old(m), m) && (!logged ==> Pc(m, me).Idle?)
      ensures (if logged then Dropped else OnDisk) !in fates
      ensures refused == Count(fates, Rejected) && failed == Count(fates, if logged then OnDisk else Dropped)
      ensures inserted == old(inserted) + Count(fates, Inserted)
      ensures rejected == old(rejected) + refused
      ensures logged ==> AtRow(f, rows, refused > 0, failed > 0) && Acked(f, old(m).batches[f].acked, fates)
      ensures logged ==> m.batches[f].n == old(m).batches[f].n
      ensures me.Replay? ==> Steady(old(m), old(arrivals), m, arrivals, Pc(old(m), me).n, false)
    {
      ghost var start, a, n := m, arrivals, if logged then Pc(m, me).n else 0;
      ghost var before := if logged then m.batches[f].acked else [];
      LaterItself(m);
      if me.Replay? { SteadyItself(m, arrivals, n); }
      var kept := 0;
      fates, refused, failed := [], 0, 0;
      ghost var told: seq<Reply> := [];
      for i := 0 to rows
        invariant Alive() && |fates| == i && Later(start, m) && (!logged ==> Pc(m, me).Idle?)
        invariant inserted == old(inserted) && rejected == old(rejected)
          && Tallied(fates, logged, kept, refused, failed)
        invariant answers == old(answers) + told && Fared(fates, told, logged)
        invariant logged ==> AtRow(f, i, refused > 0, failed > 0) && Acked(f, before, fates) && |before| == rows
        invariant logged ==> m.batches[f].n == start.batches[f].n == n
        invariant me.Replay? ==> Steady(start, a, m, arrivals, n, false)
      {
        var reply := SalvageNext(f, logged, before, fates, refused > 0, failed > 0, start, a, n);
        TalliedNext(fates, logged, kept, refused, failed, reply);
        FaredNext(fates, told, logged, reply);
        told := ToldMore(old(answers), told, reply);
        match reply {
          case Stored => kept := kept + 1;
          case RowRefused => refused := refused + 1;
          case Failed => failed := failed + 1;
        }
        fates := fates + [FateOf(reply, logged)];
      }
      inserted, rejected := inserted + kept, rejected + refused;
      Behind(old(answers), told);
    }

    // The next row, seen from the start of the salvage.
    method SalvageNext(ghost f: nat, logged: bool, ghost before: seq<bool>, ghost fates: seq<Fate>,
                       ghost refused: bool, ghost failed: bool,
                       ghost start: State, ghost a: nat, ghost n: nat) returns (reply: Reply)
      requires Alive() && (!logged ==> Pc(m, me).Idle? && me.Writer?) && Later(start, m)
      requires logged ==>
        AtRow(f, |fates|, refused, failed) && Acked(f, before, fates) && |fates| < |before|
        && Pc(m, me).n == n
      requires me.Replay? ==> Steady(start, a, m, arrivals, n, false)
      modifies this`m, this`led, this`arrivals, this`answers
      ensures answers == old(answers) + [reply]
      ensures Alive() && Later(start, m) && (!logged ==> Pc(m, me).Idle?)
      ensures logged ==> AtRow(f, |fates| + 1, refused || reply.RowRefused?, failed || reply.Failed?)
      ensures logged ==> Acked(f, before, fates + [FateOf(reply, true)]) && m.batches[f].n == old(m).batches[f].n
      ensures me.Replay? ==> Steady(start, a, m, arrivals, n, false)
    {
      ghost var was, b := m, arrivals;
      reply := SalvageOne(f, logged, before, fates, refused, failed);
      LaterTwice(start, was, m);
      if me.Replay? { SteadyTwice(start, a, was, b, m, arrivals, n, false, false); }
    }

    // The last row is answered.
    method EndSalvage(ghost f: nat, rows: nat, refused: nat, failed: nat, giveUp: bool)
      requires Alive() && AtRow(f, rows, refused > 0, failed > 0) && rows == |m.batches[f].acked|
      modifies this`m, this`led, this`arrivals
      ensures Alive() && Later(old(m), m) && f in m.batches && m.batches[f] == old(m).batches[f]
      ensures Pc(m, me) == AfterSalvage(me, m.batches[f].n, f, refused > 0, failed > 0, giveUp)
      ensures Live(m, m.batches[f].n) == OwnFile(me, f)
      ensures me.Replay? ==> Steady(old(m), old(arrivals), m, arrivals, Pc(old(m), me).n, false)
    {
      ghost var start, a := m, arrivals;
      Others();
      ghost var s := m;
      ReachableInv(m);
      assert PcOk(m, me, Pc(m, me));
      ghost var t := Do(m, SalvageEnd(me, giveUp));
      if me.Replay? { StillSteady(start, a, s, t); }
      Move(SalvageEnd(me, giveUp));
    }

    // finishSalvageWAL, and the same decision in replay: release the file if a row failed, set
    // it aside if one was refused, remove it if all were stored.  `at` shows the file right after that.
    method FinishSalvage(ghost f: nat, rows: nat, refused: nat, failed: nat, giveUp: bool)
        returns (ok: bool, ghost removed: bool, ghost at: State)
      requires Alive() && AtRow(f, rows, refused > 0, failed > 0) && rows == |m.batches[f].acked|
      modifies this`m, this`led, this`arrivals, this`errors
      ensures Alive() && Pc(m, me).Idle? && Later(old(m), m) && (ok ==> removed)
      ensures me.Replay? && failed > 0 && !giveUp ==> !ok && !removed && errors == old(errors)
      ensures !(me.Replay? && failed > 0 && !giveUp) ==> if ok then errors == old(errors) else errors > old(errors)
      ensures me.Replay? ==> Steady(old(m), old(arrivals), m, arrivals, Pc(old(m), me).n, removed)
      ensures !removed ==> Placed(old(m), at, f, OwnFile(me, f))
      ensures removed && failed > 0 ==>
        Placed(old(m), at, f, map[if me.Replay? then Quarantined else Ready := File(f, true)])
      ensures removed && failed == 0 && refused > 0 ==> Placed(old(m), at, f, map[Quarantined := File(f, true)])
      ensures removed && failed == 0 && refused == 0 ==> Placed(old(m), at, f, map[])
    {
      ghost var start, a, n := m, arrivals, Pc(m, me).n;
      EndSalvage(f, rows, refused, failed, giveUp);
      ghost var was, b := m, arrivals;
      ok, removed, at := false, false, m;
      if failed > 0 && me.Replay? && !giveUp {
        LaterItself(m);
        return;
      }
      if if failed > 0 then !me.Replay? else refused == 0 {
        ok, removed, at := ReadyOrDone(f);
      } else {
        ok, removed, at := Quarantine(f);
      }
      LaterTwice(start, was, m);
      LaterTwice(start, was, at);
      if me.Replay? { SteadyTwice(start, a, was, b, m, arrivals, n, false, removed); }
    }

    // What a flush leaves behind: every row has one fate, the counters moved by exactly the counted
    // fates, and a row neither inserted, rejected nor dropped is in the log, or since acknowledged.
    twostate predicate Accounted(rows: nat, fates: seq<Fate>, f: nat)
      reads this
    {
      && |fates| == rows
      && inserted == old(inserted) + Count(fates, Inserted)
      && rejected == old(rejected) + Count(fates, Rejected)
      && dropped == old(dropped) + Count(fates, Dropped)
      && (OnDisk in fates ==> spooled && f in m.begun && f in m.batches && |m.batches[f].acked| == rows)
      && forall i | 0 <= i < rows && fates[i] == OnDisk ::
           f in m.batches && |m.batches[f].acked| == rows && (m.batches[f].acked[i] || InLog(m, f))
    }

    lemma RowsSafe(f: nat, rows: nat)
      requires Alive() && f in m.begun && f in m.batches && |m.batches[f].acked| == rows
      ensures forall i | 0 <= i < rows :: m.batches[f].acked[i] || InLog(m, f)
    {
      forall i | 0 <= i < rows ensures m.batches[f].acked[i] || InLog(m, f) { RowSafe(m, f, i); }
    }

    // Where the file of a flushed batch is, right after it was moved: released if a row still waits to be
    // inserted, set aside if one was refused, and gone if all were stored.
    ghost predicate Filed(start: State, at: State, f: nat, fates: seq<Fate>)
      reads this
    {
      && (OnDisk in fates ==> Placed(start, at, f, map[Ready := File(f, true)]))
      && (OnDisk !in fates && Rejected in fates ==> Placed(start, at, f, map[Quarantined := File(f, true)]))
      && (OnDisk !in fates && Rejected !in fates ==> Placed(start, at, f, map[]))
    }

    lemma FiledFrom(start: State, was: State, at: State, f: nat, fates: seq<Fate>)
      requires Later(start, was)
      ensures Filed(was, at, f, fates) ==> Filed(start, at, f, fates)
    {
      if Later(was, at) { LaterTwice(start, was, at); }
    }

    method FlushRefused(ghost f: nat, rows: nat, logged: bool) returns (fates: seq<Fate>, ghost at: State)
      requires Alive() && me.Writer? && (logged ==> spooled) && (!logged ==> Pc(m, me).Idle?)
      requires logged ==> f in m.begun && AtRow(f, 0, false, false) && |m.batches[f].acked| == rows
      modifies this`m, this`led, this`arrivals, this`errors, this`answers, this`inserted, this`rejected, this`dropped
      ensures Alive() && Pc(m, me).Idle? && Accounted(rows, fates, f) && errors >= old(errors)
      ensures logged ==> Dropped !in fates && (errors == old(errors) ==> Filed(old(m), at, f, fates))
      ensures old(answers) <= answers && Fared(fates, answers[|old(answers)|..], logged)
    {
      at := m;
      if logged {
        fates, at := RefusedLogged(f, rows);
      } else {
        var refused, failed;
        fates, refused, failed := Salvage(f, rows, false);
        dropped := dropped + failed;
        CountZero(fates, OnDisk);
      }
    }

    method RefusedLogged(ghost f: nat, rows: nat) returns (fates: seq<Fate>, ghost at: State)
      requires Alive() && me.Writer? && spooled && f in m.begun && AtRow(f, 0, false, false)
        && |m.batches[f].acked| == rows
      modifies this`m, this`led, this`arrivals, this`errors, this`answers, this`inserted, this`rejected
      ensures Alive() && Pc(m, me).Idle? && Accounted(rows, fates, f) && errors >= old(errors)
      ensures Dropped !in fates && (errors == old(errors) ==> Filed(old(m), at, f, fates))
      ensures old(answers) <= answers && Fared(fates, answers[|old(answers)|..], true)
    {
      ghost var start := m;
      var refused, failed;
      fates, refused, failed := Salvage(f, rows, true);
      CountZero(fates, Dropped);
      at := FileSalvaged(f, rows, fates, refused, failed, start);
      RowsSafe(f, rows);
    }

    // The file of a salvaged batch.
    method FileSalvaged(ghost f: nat, rows: nat, ghost fates: seq<Fate>, refused: nat, failed: nat, ghost start: State)
      returns (ghost at: State)
      requires Alive() && me.Writer? && AtRow(f, rows, refused > 0, failed > 0) && rows == |m.batches[f].acked|
      requires Later(start, m) && refused == Count(fates, Rejected) && failed == Count(fates, OnDisk)
      modifies this`m, this`led, this`arrivals, this`errors
      ensures Alive() && Pc(m, me).Idle? && Later(old(m), m) && errors >= old(errors)
      ensures errors == old(errors) ==> Filed(start, at, f, fates)
    {
      ghost var was := m;
      var ok;
      ghost var removed;
      ok, removed, at := FinishSalvage(f, rows, refused, failed, false);
      CountZero(fates, OnDisk);
      CountZero(fates, Rejected);
      FiledFrom(start, was, at, f, fates);
    }

    method FlushStored(ghost f: nat, rows: nat, logged: bool) returns (fates: seq<Fate>, ghost at: State)
      requires Alive() && me.Writer? && if logged then Owns(f) && Pc(m, me).Discarding? else Pc(m, me).Idle?
      modifies this`m, this`led, this`arrivals, this`errors, this`inserted
      ensures Alive() && Pc(m, me).Idle? && Accounted(rows, fates, f) && errors >= old(errors)
      ensures Dropped !in fates && (logged && errors == old(errors) ==> Filed(old(m), at, f, fates))
      ensures forall i | 0 <= i < rows :: fates[i] == Inserted
    {
      inserted := inserted + rows;
      fates := AllOf(rows, Inserted);
      at := m;
      if logged {
        var ok;
        ghost var removed;
        ok, removed, at := ReadyOrDone(f);
      }
    }

    // What the last reply to the whole batch made of its rows: all are stored; or each was sent on its own and
    // fared as answered; or all wait, or all are lost.
    static predicate Answered(last: Reply, rows: seq<Reply>, fates: seq<Fate>, logged: bool) {
      match last
      case Stored => rows == [] && forall i | 0 <= i < |fates| :: fates[i] == Inserted
      case RowRefused => Fared(fates, rows, logged)
      case Failed => rows == [] && forall i | 0 <= i < |fates| :: fates[i] == if logged then OnDisk else Dropped
    }

    // The sends of one batch: none but the last was answered other than by a failure, and if all failed there were
    // as many as there may be.
    static predicate Tried(sends: seq<Reply>, attempts: int) {
      && 1 <= |sends| <= (if attempts < 1 then 1 else attempts)
      && (forall i | 0 <= i < |sends| - 1 :: sends[i].Failed?)
      && (sends[|sends| - 1].Failed? ==> |sends| == if attempts < 1 then 1 else attempts)
    }

    // The batch was stored, or a row of it refused.
    method FlushAnswered(ghost f: nat, rows: nat, logged: bool, reply: Reply, ghost start: State)
      returns (fates: seq<Fate>, ghost at: State)
      requires Alive() && me.Writer? && !reply.Failed? && Later(start, m) && (logged ==> spooled)
      requires if logged then f in m.begun && Owns(f) && |m.batches[f].acked| == rows else Pc(m, me).Idle?
      requires logged ==> if reply.Stored? then Pc(m, me).Discarding? else AtRow(f, 0, false, false)
      modifies this`m, this`led, this`arrivals, this`errors, this`answers, this`inserted, this`rejected, this`dropped
      ensures Alive() && Pc(m, me).Idle? && Accounted(rows, fates, f) && errors >= old(errors)
      ensures logged ==> Dropped !in fates && (errors == old(errors) ==> Filed(start, at, f, fates))
      ensures old(answers) <= answers && Answered(reply, answers[|old(answers)|..], fates, logged)
    {
      ghost var was := m;
      if reply.Stored? {
        fates, at := FlushStored(f, rows, logged);
      } else {
        fates, at := FlushRefused(f, rows, logged);
      }
      FiledFrom(start, was, at, f, fates);
    }

    // Retries exhausted: a logged batch is released to replay, another is saved now or lost.
    method FlushFailed(f: nat, rows: nat, logged: bool) returns (fates: seq<Fate>, g: nat, kept: bool, ghost at: State)
      requires Alive() && me.Writer? && (logged ==> spooled) && rows > 0
      requires if logged then Owns(f) && Pc(m, me).Releasing? else Pc(m, me).Idle?
      requires logged ==> f in m.begun && |m.batches[f].acked| == rows
      modifies this`m, this`led, this`arrivals, this`errors, this`dropped
      ensures Alive() && Pc(m, me).Idle? && Accounted(rows, fates, g) && errors >= old(errors)
      ensures kept ==> Dropped !in fates && (errors == old(errors) ==> Filed(old(m), at, g, fates))
      ensures (logged ==> kept) && (!kept && spooled ==> errors > old(errors) || maxBytes > 0)
      ensures forall i | 0 <= i < rows :: fates[i] == if kept then OnDisk else Dropped
    {
      ghost var start := m;
      g, at := f, m;
      kept := logged;
      var ok := false;
      ghost var removed;
      if logged {
        ok, removed, at := ReadyOrDone(f);
      } else if spooled {
        kept, g := Begin(rows, true);
        ghost var was := m;
        if kept {
          kept, removed, at := ReadyOrDone(g);
          LaterTwice(start, was, at);
        }
      }
      if kept {
        fates := AllOf(rows, OnDisk);
        RowsSafe(g, rows);
      } else {
        fates := AllOf(rows, Dropped);
        dropped := dropped + rows;
      }
    }

    // shard.flush: with no spool configured the three counters move by exactly the batch; with one, what they leave
    // out is in the write-ahead log or was acknowledged meanwhile.  If no call fails, a batch that is in the log is
    // found released, set aside or removed as its rows fared; and it is in the log unless that was full.
    method Flush(rows: nat, retryMaxAttempts: int) returns (fates: seq<Fate>, f: nat, logged: bool, ghost at: State)
      requires Alive() && me.Writer? && Pc(m, me).Idle? && rows > 0
      modifies this`m, this`led, this`arrivals, this`errors, this`replies, this`answers, this`inserted, this`rejected,
          this`dropped
      ensures Alive() && Pc(m, me).Idle? && Accounted(rows, fates, f)
      ensures inserted + rejected + dropped + Count(fates, OnDisk) == old(inserted + rejected + dropped) + rows
      ensures !spooled ==> inserted + rejected + dropped == old(inserted + rejected + dropped) + rows
      ensures logged ==> Dropped !in fates && (errors == old(errors) ==> Filed(old(m), at, f, fates))
      ensures spooled && !logged ==> errors > old(errors) || maxBytes > 0
      ensures old(replies) <= replies && Tried(replies[|old(replies)|..], retryMaxAttempts)
      ensures old(answers) <= answers && Answered(replies[|replies| - 1], answers[|old(answers)|..], fates, logged)
    {
      fates, f, logged, at := Attempt(rows, retryMaxAttempts);
      CountsAddUp(fates);
      CountZero(fates, OnDisk);
    }

    method Attempt(rows: nat, retryMaxAttempts: int) returns (fates: seq<Fate>, f: nat, logged: bool, ghost at: State)
      requires Alive() && me.Writer? && Pc(m, me).Idle? && rows > 0
      modifies this`m, this`led, this`arrivals, this`errors, this`replies, this`answers, this`inserted, this`rejected,
          this`dropped
      ensures Alive() && Pc(m, me).Idle? && Accounted(rows, fates, f)
      ensures logged ==> Dropped !in fates && (errors == old(errors) ==> Filed(old(m), at, f, fates))
      ensures spooled && !logged ==> errors > old(errors) || maxBytes > 0
      ensures old(replies) <= replies && Tried(replies[|old(replies)|..], retryMaxAttempts)
      ensures old(answers) <= answers && Answered(replies[|replies| - 1], answers[|old(answers)|..], fates, logged)
    {
      ghost var start := m;
      var reply;
      f, logged, reply := Deliver(rows, retryMaxAttempts);
      fates, f, logged, at := FlushReply(f, rows, logged, reply, start);
    }

    // The batch is written to the log if there is one, and sent.
    method Deliver(rows: nat, retryMaxAttempts: int) returns (f: nat, logged: bool, reply: Reply)
      requires Alive() && me.Writer? && Pc(m, me).Idle? && rows > 0
      modifies this`m, this`led, this`arrivals, this`errors, this`replies
      ensures Alive() && Later(old(m), m) && (if logged then OwnBatch(f, rows) else Pc(m, me).Idle?)
      ensures logged ==> spooled && match reply
        case Stored => Pc(m, me).Discarding?
        case RowRefused => AtRow(f, 0, false, false)
        case Failed => Pc(m, me).Releasing?
      ensures errors >= old(errors) && (spooled && !logged ==> errors > old(errors) || maxBytes > 0)
      ensures old(replies) < replies && reply == replies[|replies| - 1]
      ensures Tried(replies[|old(replies)|..], retryMaxAttempts)
    {
      ghost var start := m;
      logged, f := false, 0;
      if spooled { logged, f := Begin(rows, false); } else { LaterItself(m); }
      ghost var was := m;
      reply := SendBatch(f, rows, logged, retryMaxAttempts);
      LaterTwice(start, was, m);
    }

    // What the last reply leads to.
    method FlushReply(f: nat, rows: nat, logged: bool, reply: Reply, ghost start: State)
      returns (fates: seq<Fate>, g: nat, kept: bool, ghost at: State)
      requires Alive() && me.Writer? && Later(start, m) && (logged ==> spooled) && rows > 0
      requires if logged then OwnBatch(f, rows) else Pc(m, me).Idle?
      requires logged ==> match reply
        case Stored => Pc(m, me).Discarding?
        case RowRefused => AtRow(f, 0, false, false)
        case Failed => Pc(m, me).Releasing?
      modifies this`m, this`led, this`arrivals, this`errors, this`answers, this`inserted, this`rejected, this`dropped
      ensures Alive() && Pc(m, me).Idle? && Accounted(rows, fates, g) && errors >= old(errors)
      ensures kept ==> Dropped !in fates && (errors == old(errors) ==> Filed(start, at, g, fates))
      ensures logged ==> kept
      ensures spooled && !kept ==> !logged && (reply.Failed? ==> errors > old(errors) || maxBytes > 0)
      ensures old(answers) <= answers && Answered(reply, answers[|old(answers)|..], fates, kept)
    {
      if reply.Failed? {
        ghost var was := m;
        fates, g, kept, at := FlushFailed(f, rows, logged);
        FiledFrom(start, was, at, g, fates);
      } else {
        g, kept := f, logged;
        fates, at := FlushAnswered(f, rows, logged, reply, start);
      }
    }

    // The batch is sent until it is answered other than by a failure, or as often as it may be.
    method SendBatch(ghost f: nat, rows: nat, logged: bool, retryMaxAttempts: int) returns (reply: Reply)
      requires Alive() && me.Writer? && if logged then OwnBatch(f, rows) && Pc(m, me).Sending? else Pc(m, me).Idle?
      modifies this`m, this`led, this`arrivals, this`replies
      ensures Alive() && Later(old(m), m) && (if logged then OwnBatch(f, rows) else Pc(m, me).Idle?)
      ensures logged ==> match reply
        case Stored => Pc(m, me).Discarding?
        case RowRefused => AtRow(f, 0, false, false)
        case Failed => Pc(m, me).Releasing?
      ensures old(replies) < replies && reply == replies[|replies| - 1]
      ensures Tried(replies[|old(replies)|..], retryMaxAttempts)
    {
      var attempts := if retryMaxAttempts < 1 then 1 else retryMaxAttempts;
      ghost var start := m;
      LaterItself(m);
      ghost var sent: seq<Reply> := [];
      reply := Failed;
      for a := 1 to attempts + 1
        invariant Alive() && Later(start, m) && (if logged then OwnBatch(f, rows) else Pc(m, me).Idle?)
        invariant logged ==> if a <= attempts then Pc(m, me).Sending? else Pc(m, me).Releasing?
        invariant replies == old(replies) + sent && |sent| == a - 1 && forall i | 0 <= i < |sent| :: sent[i].Failed?
        invariant a > attempts ==> reply.Failed?
      {
        ghost var was := m;
        if logged { reply := Send(f, a == attempts); } else { reply := SendPlain(); }
        if logged { LaterTwice(start, was, m); }
        sent := ToldMore(old(replies), sent, reply);
        if !reply.Failed? { break; }
      }
      Behind(old(replies), sent);
    }

    // The actor works on batch f, which is begun and has this many rows.
    ghost predicate OwnBatch(f: nat, rows: nat)
      reads this
    {
      f in m.begun && Owns(f) && |m.batches[f].acked| == rows
    }
  }

  lemma LaterItself(s: State)
    ensures Later(s, s)
  {
  }

  lemma SteadyItself(s: State, a: nat, n: nat)
    ensures Steady(s, a, s, a, n, false)
  {
  }

  method AllOf(rows: nat, fate: Fate) returns (fates: seq<Fate>)
    ensures |fates| == rows && forall i | 0 <= i < rows :: fates[i] == fate
    ensures forall other :: Count(fates, other) == if other == fate then rows else 0
  {
    fates := seq(rows, _ => fate);
    forall other ensures Count(fates, other) == if other == fate then rows else 0 { CountUniform(rows, fate, other); }
  }
}
