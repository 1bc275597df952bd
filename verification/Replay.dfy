/** The replay loop: one tick drains the released batches oldest first, until none is left or
    one cannot be settled now.  The writer shards go on working meanwhile.  */
module Replay {
  import opened SpoolDisk
  import opened Wal
  import opened WalTheorems
  import opened Company
  import opened SpoolStats
  import opened Flush

  const REPLAY_MAX_ATTEMPTS := 10

  // Why a tick ended: nothing left, batch n to be tried again later, or a call on batch n that failed.
  datatype Stop = Drained | Blocked(n: nat) | Error(n: nat)

  predicate Least(n: nat, ready: set<nat>) {
    n in ready && forall k | k in ready :: n <= k
  }

  function Failures(fails: map<nat, nat>, n: nat): nat {
    if n in fails then fails[n] else 0
  }

  // Batch k fared as before, or is settled for good.
  ghost predicate Same(before: map<nat, nat>, fails: map<nat, nat>, s: State, k: nat) {
    Failures(fails, k) == Failures(before, k) || Gone(s, k)
  }

  lemma SameLater(before: map<nat, nat>, fails: map<nat, nat>, s: State, t: State)
    requires (forall k: nat :: Same(before, fails, s, k)) && forall k: nat | Gone(s, k) :: Gone(t, k)
    ensures forall k: nat :: Same(before, fails, t, k)
  {
    forall k: nat ensures Same(before, fails, t, k) { assert Same(before, fails, s, k); }
  }

  // Counts of the other batches survive a round on batch n.
  lemma KeptCounts(before: map<nat, nat>, had: map<nat, nat>, fails: map<nat, nat>, s: State, a: nat, t: State,
                   a': nat, n: nat, removed: bool)
    requires Steady(s, a, t, a', n, removed) && (forall k: nat | k != n :: Failures(fails, k) == Failures(had, k))
    requires forall k: nat :: Same(before, had, s, k)
    ensures forall k: nat | k != n || removed :: Same(before, fails, t, k)
  {
    forall k: nat | k != n || removed ensures Same(before, fails, t, k) { assert Same(before, had, s, k); }
  }

  class Replayer {
    const shard: Shard
    var fails: map<nat, nat>
    var unreadable: nat // how many files could not be read back

    ghost predicate Valid()
      reads this, shard
    {
      shard.me == Actor.Replay && shard.Alive()
    }

    constructor (shard: Shard)
      requires shard.me == Actor.Replay && shard.Alive()
      ensures Valid() && this.shard == shard && fails == map[] && unreadable == 0
    {
      this.shard, fails, unreadable := shard, map[], 0;
    }

    ghost predicate Resting()
      reads this, shard
    {
      Valid() && Pc(shard.m, shard.me).Idle?
    }

    // The loop has batch n of the directory in hand.
    ghost predicate Holding(n: nat)
      reads this, shard
    {
      Valid() && Busy(Pc(shard.m, shard.me)) && Pc(shard.m, shard.me).n == n && shard.Owns(Pc(shard.m, shard.me).f)
    }

    // How many batches this tick may still have to settle.
    ghost function Left(): nat
      reads shard
    {
      |ReadyNumbers(shard.m)| + shard.arrivals
    }

    // spool.Stats: how many batches the counter says are waiting.
    method Stats() returns (files: int)
      requires Resting()
      modifies shard`m, shard`led, shard`arrivals
      ensures Resting() && files == shard.led.files && Left() <= old(Left())
      ensures forall k: nat | Gone(old(shard.m), k) :: Gone(shard.m, k)
    {
      shard.Others();
      files := shard.led.files;
    }

    // spool.Oldest: the smallest released number, and whether its file could be read back.
    method Oldest() returns (found: bool, n: nat, readable: bool)
      requires Resting()
      modifies this`unreadable, shard`m, shard`led, shard`arrivals
      ensures unreadable == old(unreadable) + if found && !readable then 1 else 0
      ensures Left() <= old(Left()) && forall k: nat | Gone(old(shard.m), k) :: Gone(shard.m, k)
      ensures !found ==> Resting() && ReadyNumbers(shard.m) == {}
      ensures found ==> Holding(n) && Least(n, ReadyNumbers(shard.m))
      ensures found ==> if readable then Pc(shard.m, shard.me).Sending? else Pc(shard.m, shard.me).SettingAside?
    {
      shard.Others();
      var names := ReadyNumbers(shard.m);
      found, n, readable := names != {}, 0, *;
      if !found { return; }
      n := Smallest(names);
      if !readable { unreadable := unreadable + 1; }
      PickIt(n, readable);
    }

    method PickIt(n: nat, readable: bool)
      requires Resting() && Least(n, ReadyNumbers(shard.m))
      modifies shard`m, shard`led
      ensures Holding(n) && shard.m.disk == old(shard.m.disk)
        && forall k: nat | Gone(old(shard.m), k) :: Gone(shard.m, k)
      ensures if readable then Pc(shard.m, shard.me).Sending? else Pc(shard.m, shard.me).SettingAside?
    {
      ReachableInv(shard.m);
      forall k: nat | k < n ensures Ready !in Live(shard.m, k) {
        assert k !in ReadyNumbers(shard.m);
      }
      assert SlotOk(shard.m, n) && ViewOk(shard.m, n, Live(shard.m, n));
      shard.Move(Pick(n, readable));
    }

    // One tick of the inner loop; it ends because every round settles a batch, and only so many arrive.
    // It stops once the counter is zero, which leaves batches waiting exactly if New missed more files than
    // are waiting to be released.  The smallest number is always next; a batch that blocks the tick has failed
    // once more, and fewer than ten times in all; every other batch keeps its count unless it is settled for good.
    method Tick() returns (stop: Stop)
      requires Resting()
      modifies this`fails, this`unreadable, shard`m, shard`led, shard`arrivals, shard`errors, shard`replies,
               shard`answers, shard`inserted, shard`rejected
      ensures Resting() && Left() <= old(Left()) && (forall k: nat | Gone(old(shard.m), k) :: Gone(shard.m, k))
      ensures stop == Drained && shard.led.files != 0 ==> ReadyNumbers(shard.m) == {}
      ensures stop == Drained && shard.led.files == 0 ==>
        (ReadyNumbers(shard.m) == {} <==> |WaitingActive(shard.m, shard.led)| == shard.led.missed)
      ensures stop == Drained && shard.led.missed == 0 ==> ReadyNumbers(shard.m) == {}
      ensures stop.Error? ==> shard.errors > old(shard.errors) || unreadable > old(unreadable)
      ensures stop.Blocked? ==> stop.n in ReadyNumbers(shard.m) && !Gone(shard.m, stop.n)
      ensures stop.Blocked? ==> Failures(fails, stop.n) == Failures(old(fails), stop.n) + 1 < 10
      ensures forall k: nat | !(stop.Blocked? && k == stop.n) && !(stop.Error? && k == stop.n) ::
        Same(old(fails), fails, shard.m, k)
    {
      ghost var start, a, before := shard.m, shard.arrivals, fails;
      while true
        invariant Resting() && Left() <= |ReadyNumbers(start)| + a
          && (forall k: nat | Gone(start, k) :: Gone(shard.m, k))
        invariant forall k: nat :: Same(before, fails, shard.m, k)
        invariant shard.errors >= old(shard.errors) && unreadable >= old(unreadable)
        decreases Left()
      {
        ghost var head := shard.m;
        var files := Stats();
        if files == 0 {
          SameLater(before, fails, head, shard.m);
          AtZero();
          return Drained;
        }
        var found, n, readable := Oldest();
        SameLater(before, fails, head, shard.m);
        if !found {
          AtZero();
          return Drained;
        }
        var going;
        going, stop := Round(n, readable, before);
        if !going { return; }
      }
    }

    // The next batch, unreadable or not; `before` are the counts of the tick's start.
    method Round(n: nat, readable: bool, ghost before: map<nat, nat>) returns (going: bool, stop: Stop)
      requires Holding(n) && n in ReadyNumbers(shard.m) && forall k: nat :: Same(before, fails, shard.m, k)
      requires if readable then Pc(shard.m, shard.me).Sending? else Pc(shard.m, shard.me).SettingAside?
      modifies this`fails, shard`m, shard`led, shard`arrivals, shard`errors, shard`replies, shard`answers,
               shard`inserted, shard`rejected
      ensures Resting() && Left() <= old(Left()) && (going ==> Left() < old(Left()))
      ensures shard.errors >= old(shard.errors)
        && (forall k: nat | Gone(old(shard.m), k) :: Gone(shard.m, k))
      ensures going ==> forall k: nat :: Same(before, fails, shard.m, k)
      ensures !going ==> stop == Blocked(n) || stop == Error(n)
      ensures !going && stop.Error? ==> shard.errors > old(shard.errors) || !readable
      ensures !going && stop.Blocked? ==>
        n in ReadyNumbers(shard.m) && Failures(fails, n) == Failures(before, n) + 1 < REPLAY_MAX_ATTEMPTS
      ensures !going ==> forall k: nat | k != n :: Same(before, fails, shard.m, k)
    {
      ghost var was, b, had, removed, at := shard.m, shard.arrivals, fails, false, *;
      assert Same(before, fails, was, n) && !Gone(was, n);
      going, stop := false, Error(n);
      if !readable {
        var ok;
        ok, removed, at := shard.Quarantine(Pc(shard.m, shard.me).f);
        KeptCounts(before, had, fails, was, b, shard.m, shard.arrivals, n, removed);
        return;
      }
      var blocked;
      ghost var reply, rows;
      going, blocked, removed, at, reply, rows := Attempt(n);
      KeptCounts(before, had, fails, was, b, shard.m, shard.arrivals, n, removed);
      if blocked { stop := Blocked(n); }
    }

    // What the counter says of the released batches.
    lemma AtZero()
      requires Resting()
      ensures shard.led.files == 0 ==>
        (ReadyNumbers(shard.m) == {} <==> |WaitingActive(shard.m, shard.led)| == shard.led.missed)
      ensures shard.led.files == shard.led.missed == 0 ==> ReadyNumbers(shard.m) == {}
    {
      ReachableInv(shard.m);
      Unfold(shard.size, shard.led, shard.m);
      ZeroFiles(shard.size, shard.m, shard.led);
    }

    // A batch is settled once it is stored, or every row of it is stored or refused.
    static predicate Settled(reply: Reply, rows: seq<Reply>) {
      reply.Stored? || (reply.RowRefused? && forall i | 0 <= i < |rows| :: !rows[i].Failed?)
    }

    // What is left of it then: nothing, or its file in quarantine as evidence of the rows refused.
    static function LeftOf(f: nat, reply: Reply, rows: seq<Reply>): Entries {
      if reply.Stored? || (reply.RowRefused? && forall i | 0 <= i < |rows| :: rows[i].Stored?) then map[]
      else map[Quarantined := File(f, true)]
    }

    // One batch: sent, salvaged row by row if a row is refused, and removed or quarantined.  It is sent once, and
    // blocks the tick exactly if it is not settled and has not failed too often yet; if it leaves the queue it is
    // settled, or has failed for the tenth time; and `at` shows its file right after that.
    method Attempt(n: nat)
      returns (gone: bool, blocked: bool, ghost removed: bool, ghost at: State, ghost reply: Reply,
               ghost rows: seq<Reply>)
      requires Holding(n) && Pc(shard.m, shard.me).Sending? && n in ReadyNumbers(shard.m)
      modifies this`fails, shard`m, shard`led, shard`arrivals, shard`errors, shard`replies, shard`answers,
               shard`inserted, shard`rejected
      ensures Resting() && !(gone && blocked) && (gone ==> removed) && (blocked ==> !removed)
      ensures Steady(old(shard.m), old(shard.arrivals), shard.m, shard.arrivals, n, removed)
      ensures blocked ==> Failures(fails, n) == Failures(old(fails), n) + 1 < 10
      ensures forall k: nat | k != n :: Failures(fails, k) == Failures(old(fails), k)
      ensures shard.replies == old(shard.replies) + [reply] && shard.answers == old(shard.answers) + rows
      ensures blocked <==> !Settled(reply, rows) && Failures(old(fails), n) + 1 < 10
      ensures shard.errors >= old(shard.errors) && (!gone && !blocked ==> shard.errors > old(shard.errors))
      ensures removed ==> Settled(reply, rows) || Failures(old(fails), n) + 1 >= 10
      ensures Settled(reply, rows) ==> Failures(fails, n) == 0
      ensures var f := Pc(old(shard.m), shard.me).f;
        shard.Placed(old(shard.m), at, f, if removed then LeftOf(f, reply, rows) else map[Ready := File(f, true)])
    {
      var f := Pc(shard.m, shard.me).f;
      ghost var start, a := shard.m, shard.arrivals;
      var answer := shard.Send(f, Failures(fails, n) + 1 >= REPLAY_MAX_ATTEMPTS);
      ghost var was, b := shard.m, shard.arrivals;
      reply := answer;
      gone, blocked, removed, at, rows := Conclude(f, n, answer);
      shard.PlacedFrom(start, a, was, b, at, f,
                       if removed then LeftOf(f, reply, rows) else map[Ready := File(f, true)], n, removed);
    }

    // The answer, and what it does to the batch's count.
    method Conclude(f: nat, n: nat, reply: Reply)
      returns (gone: bool, blocked: bool, ghost removed: bool, ghost at: State, ghost rows: seq<Reply>)
      requires Valid() && f in shard.m.batches
      requires reply.Stored? ==> shard.Owns(f) && Pc(shard.m, shard.me) == Discarding(n, f)
      requires reply.RowRefused? ==> shard.AtRow(f, 0, false, false) && Pc(shard.m, shard.me).n == n
      requires reply.Failed? ==>
        Pc(shard.m, shard.me) == AfterFailure(shard.me, n, f, Failures(fails, n) + 1 >= REPLAY_MAX_ATTEMPTS)
      requires shard.m.batches[f].n == n && Live(shard.m, n) == map[Ready := File(f, true)]
      modifies this`fails, shard`m, shard`led, shard`arrivals, shard`errors, shard`answers, shard`inserted,
               shard`rejected
      ensures Resting() && !(gone && blocked) && (gone ==> removed) && (blocked ==> !removed)
      ensures Steady(old(shard.m), old(shard.arrivals), shard.m, shard.arrivals, n, removed)
      ensures blocked ==> Failures(fails, n) == Failures(old(fails), n) + 1 < REPLAY_MAX_ATTEMPTS
      ensures forall k: nat | k != n :: Failures(fails, k) == Failures(old(fails), k)
      ensures shard.answers == old(shard.answers) + rows
      ensures blocked <==> !Settled(reply, rows) && Failures(old(fails), n) + 1 < REPLAY_MAX_ATTEMPTS
      ensures shard.errors >= old(shard.errors) && (!gone && !blocked ==> shard.errors > old(shard.errors))
      ensures removed ==> Settled(reply, rows) || Failures(old(fails), n) + 1 >= REPLAY_MAX_ATTEMPTS
      ensures Settled(reply, rows) ==> Failures(fails, n) == 0
      ensures shard.Placed(old(shard.m), at, f,
                           if removed then LeftOf(f, reply, rows) else map[Ready := File(f, true)])
    {
      var giveUp := Failures(fails, n) + 1 >= REPLAY_MAX_ATTEMPTS;
      var settled;
      gone, settled, removed, at, rows := Settle(f, n, reply, giveUp);
      blocked := false;
      if settled {
        fails := fails - {n};
      } else {
        fails := fails[n := Failures(fails, n) + 1];
        blocked := !giveUp;
        if gone { fails := fails - {n}; }
      }
    }

    // What an answer leads to; `settled` when every row was stored or refused.
    method Settle(f: nat, n: nat, reply: Reply, giveUp: bool)
      returns (gone: bool, settled: bool, ghost removed: bool, ghost at: State, ghost rows: seq<Reply>)
      requires Valid() && f in shard.m.batches
      requires reply.Stored? ==> shard.Owns(f) && Pc(shard.m, shard.me) == Discarding(n, f)
      requires reply.RowRefused? ==> shard.AtRow(f, 0, false, false) && Pc(shard.m, shard.me).n == n
      requires reply.Failed? ==> Pc(shard.m, shard.me) == AfterFailure(shard.me, n, f, giveUp)
      requires shard.m.batches[f].n == n && Live(shard.m, n) == map[Ready := File(f, true)]
      modifies shard`m, shard`led, shard`arrivals, shard`errors, shard`answers, shard`inserted, shard`rejected
      ensures Resting() && (gone ==> removed) && (!settled && !giveUp ==> !gone && !removed)
      ensures Steady(old(shard.m), old(shard.arrivals), shard.m, shard.arrivals, n, removed)
      ensures shard.answers == old(shard.answers) + rows && (settled <==> Settled(reply, rows))
      ensures reply.Stored? ==> shard.inserted == old(shard.inserted) + |old(shard.m).batches[f].acked|
      ensures shard.errors >= old(shard.errors) && (!gone && (settled || giveUp) ==> shard.errors > old(shard.errors))
      ensures shard.Placed(old(shard.m), at, f,
                           if removed then LeftOf(f, reply, rows) else map[Ready := File(f, true)])
    {
      ghost var start, a := shard.m, shard.arrivals;
      at, rows := shard.m, [];
      match reply {
        case Stored =>
          settled := true;
          shard.inserted := shard.inserted + |shard.m.batches[f].acked|;
          gone, removed, at := shard.ReadyOrDone(f);
        case RowRefused =>
          ghost var was, b;
          gone, settled, removed, at, rows, was, b := SettleRefused(f, n, giveUp);
          shard.PlacedFrom(start, a, was, b, at, f,
                           if removed then LeftOf(f, reply, rows) else map[Ready := File(f, true)], n, removed);
        case Failed =>
          gone, settled, removed := false, false, false;
          SteadyItself(shard.m, shard.arrivals, n);
          LaterItself(shard.m);
          if giveUp { gone, removed, at := shard.Quarantine(f); }
      }
    }

    // Row by row.
    method SalvageHeld(f: nat, n: nat) returns (rows: nat, refused: nat, failed: nat, ghost answered: seq<Reply>)
      requires Valid() && shard.AtRow(f, 0, false, false) && Pc(shard.m, shard.me).n == n
      modifies shard`m, shard`led, shard`arrivals, shard`answers, shard`inserted, shard`rejected
      ensures Valid() && shard.AtRow(f, rows, refused > 0, failed > 0) && rows == |shard.m.batches[f].acked|
      ensures Steady(old(shard.m), old(shard.arrivals), shard.m, shard.arrivals, n, false)
        && Later(old(shard.m), shard.m)
      ensures shard.answers == old(shard.answers) + answered && (failed == 0 <==> Settled(RowRefused, answered))
      ensures shard.rejected == old(shard.rejected) + Tally(answered, RowRefused)
        && shard.inserted == old(shard.inserted) + Tally(answered, Stored)
      ensures LeftOf(f, RowRefused, answered)
              == if failed == 0 && refused == 0 then map[] else map[Quarantined := File(f, true)]
    {
      rows := |shard.m.batches[f].acked|;
      var fates;
      fates, refused, failed := shard.Salvage(f, rows, true);
      answered := shard.answers[|old(shard.answers)|..];
      AnswersCounted(f, fates, answered, refused, failed);
    }

    method SettleRefused(f: nat, n: nat, giveUp: bool)
      returns (gone: bool, settled: bool, ghost removed: bool, ghost at: State, ghost answered: seq<Reply>,
               ghost was: State, ghost b: nat)
      requires Valid() && shard.AtRow(f, 0, false, false) && Pc(shard.m, shard.me).n == n
      modifies shard`m, shard`led, shard`arrivals, shard`errors, shard`answers, shard`inserted, shard`rejected
      ensures Resting() && (gone ==> removed) && (!settled && !giveUp ==> !gone && !removed)
      ensures Steady(old(shard.m), old(shard.arrivals), was, b, n, false) && Later(old(shard.m), was)
      ensures Steady(was, b, shard.m, shard.arrivals, n, removed)
      ensures shard.answers == old(shard.answers) + answered && (settled <==> Settled(RowRefused, answered))
      ensures shard.errors >= old(shard.errors) && (!gone && (settled || giveUp) ==> shard.errors > old(shard.errors))
      ensures shard.Placed(was, at, f,
                           if removed then LeftOf(f, RowRefused, answered) else map[Ready := File(f, true)])
    {
      var rows, refused, failed;
      rows, refused, failed, answered := SalvageHeld(f, n);
      was, b := shard.m, shard.arrivals;
      settled := failed == 0;
      gone, removed, at := shard.FinishSalvage(f, rows, refused, failed, giveUp);
    }

    // Main result: over any number of ticks, a batch blocks fewer than ten of them, as long as no call
    // on it fails.
    method Run(ticks: nat, n: nat) returns (blocked: nat, errors: nat)
      requires Resting() && fails == map[]
      modifies this`fails, this`unreadable, shard`m, shard`led, shard`arrivals, shard`errors, shard`replies,
               shard`answers, shard`inserted, shard`rejected
      ensures Resting() && (errors == 0 ==> blocked < 10)
    {
      blocked, errors := 0, 0;
      for i := 0 to ticks
        invariant Resting() && (errors == 0 ==> blocked < REPLAY_MAX_ATTEMPTS)
        invariant errors == 0 ==> Gone(shard.m, n) || blocked <= Failures(fails, n)
      {
        ghost var had := fails;
        var stop := Tick();
        assert stop != Blocked(n) && stop != Error(n) ==> Same(had, fails, shard.m, n);
        if stop == Blocked(n) { blocked := blocked + 1; }
        if stop == Error(n) { errors := errors + 1; }
      }
    }
  }

  function Tally(rows: seq<Reply>, reply: Reply): nat {
    if rows == [] then 0 else Tally(rows[..|rows| - 1], reply) + if rows[|rows| - 1] == reply then 1 else 0
  }

  lemma {:induction false} CountsTallied(fates: seq<Fate>, rows: seq<Reply>, logged: bool)
    requires Shard.Fared(fates, rows, logged)
    ensures Count(fates, Inserted) == Tally(rows, Stored) && Count(fates, Rejected) == Tally(rows, RowRefused)
  {
    if fates != [] { CountsTallied(fates[..|fates| - 1], rows[..|rows| - 1], logged); }
  }

  // What the answers to the rows of a logged batch come to.
  lemma AnswersCounted(f: nat, fates: seq<Fate>, rows: seq<Reply>, refused: nat, failed: nat)
    requires Shard.Fared(fates, rows, true) && refused == Count(fates, Rejected) && failed == Count(fates, OnDisk)
    ensures failed == 0 <==> Replayer.Settled(RowRefused, rows)
    ensures Replayer.LeftOf(f, RowRefused, rows)
            == if failed == 0 && refused == 0 then map[] else map[Quarantined := File(f, true)]
    ensures Count(fates, Inserted) == Tally(rows, Stored) && refused == Tally(rows, RowRefused)
  {
    CountsTallied(fates, rows, true);
    CountZero(fates, OnDisk);
    CountZero(fates, Rejected);
  }

  method Smallest(names: set<nat>) returns (n: nat)
    requires names != {}
    ensures Least(n, names)
  {
    n :| n in names;
    var rest := names - {n};
    while rest != {}
      invariant n in names && rest <= names
      invariant forall k | k in names && k !in rest :: n <= k
      decreases rest
    {
      var k :| k in rest;
      rest := rest - {k};
      n := if k < n then k else n;
    }
  }

  // ---- a batch that the counter does not know of ----

  lemma Released(s: State, w: nat, n: nat, f: nat) returns (t: State)
    requires Reachable(false, s) && Ours(s, w, Releasing(n, f)) && Live(s, n) == map[Active := File(f, true)]
    ensures Reachable(false, t) && Ours(t, w, Idle) && t.proc.seqNo == s.proc.seqNo && t.batches == s.batches
    ensures Live(t, n) == map[Ready := File(f, true)] && t.disk.Keys == s.disk.Keys + {n}
    ensures forall k: nat | k != n :: Live(t, k) == Live(s, k)
  {
    var t1 := Reach(false, s, Call(Writer(w), true));
    assert Live(t1, n) == map[Ready := File(f, true)];
    t := Reach(false, t1, Call(Writer(w), true));
  }

  lemma SavedBatch(s: State, f: nat) returns (t: State)
    requires Reachable(false, s) && Ours(s, 0, Idle) && f !in s.batches && Live(s, s.proc.seqNo + 1) == map[]
    ensures var n := s.proc.seqNo + 1;
      && Reachable(false, t) && Ours(t, 0, Idle) && t.proc.seqNo == n && t.batches == s.batches[f := Batch(n, [false])]
      && Live(t, n) == map[Ready := File(f, true)] && t.disk.Keys == s.disk.Keys + {n}
    ensures forall k: nat | k != s.proc.seqNo + 1 :: Live(t, k) == Live(s, k)
  {
    var t1 := BeginSucceeds(FIRST, AllCounted, s, 0, f, true);
    assert Live(t1, s.proc.seqNo + 1) == map[Active := File(f, true)];
    t := Released(t1, 0, s.proc.seqNo + 1, f);
  }

  // A step with the counters beside it.
  lemma Follow(size: Sizes, s: State, led: Ledger, e: Event) returns (t: State, led': Ledger)
    requires Reachable(false, s) && Booked(size, led, s) && Enabled(s, e) && Counted(s, e)
    ensures Reachable(false, t) && Booked(size, led', t) && t == Do(s, e) && led' == Post(size, led, s, e)
  {
    ReachableInv(s);
    StepBooked(size, s, e, led);
    t := Reach(false, s, e);
    led' := Post(size, led, s, e);
  }

  // Two batches wait, and New skips the first because its os.Stat fails.
  lemma SkippedByNew(size: Sizes, s: State) returns (t: State, led: Ledger)
    requires Reachable(false, s) && s.disk.Keys == {1, 2} && 0 in s.batches && 1 in s.batches
    requires Live(s, 1) == map[Ready := File(0, true)] && Live(s, 2) == map[Ready := File(1, true)]
    ensures Reachable(false, t) && Booked(size, led, t) && t.proc == Up(2, map[]) && t.disk == s.disk
      && t.batches == s.batches
    ensures led.files == 1 && led.missed == 1
  {
    t := Reach(false, s, Kill);
    led := Ledger(0, 0, {}, 0, 0, 0);
    assert Books(size, led, t);
    t, led := Follow(size, t, led, Boot);
    t, led := Follow(size, t, led, BootEntry(1, true, true, false));
    t, led := Follow(size, t, led, BootEntry(2, true, true, true));
    assert t.proc.todo == {};
    assert forall n: nat | n > 2 :: Live(t, n) == map[];
    t, led := Follow(size, t, led, BootEnd(true));
  }

  // Replay stores the first of them, which the counter takes for the only one.
  lemma FirstStored(size: Sizes, s: State, led: Ledger) returns (t: State, led': Ledger)
    requires Reachable(false, s) && Booked(size, led, s) && s.proc == Up(2, map[]) && 0 in s.batches && led.files == 1
    requires Live(s, 1) == map[Ready := File(0, true)] && Live(s, 2) == map[Ready := File(1, true)]
      && s.disk.Keys == {1, 2}
    ensures Reachable(false, t) && Booked(size, led', t) && t.proc.Up? && Pc(t, Actor.Replay).Idle?
    ensures led'.files == 0 && ReadyNumbers(t) == {2}
  {
    var t2, led2 := FirstAcked(size, s, led);
    var t3, led3 := Follow(size, t2, led2, Call(Actor.Replay, true));
    assert Live(t3, 1) == map[] && Live(t3, 2) == map[Ready := File(1, true)];
    t, led' := Follow(size, t3, led3, Call(Actor.Replay, true));
    assert Live(t, 1) == map[] && Live(t, 2) == map[Ready := File(1, true)];
  }

  lemma FirstAcked(size: Sizes, s: State, led: Ledger) returns (t: State, led': Ledger)
    requires Reachable(false, s) && Booked(size, led, s) && s.proc == Up(2, map[]) && 0 in s.batches
    requires Live(s, 1) == map[Ready := File(0, true)] && s.disk.Keys == {1, 2}
    ensures Reachable(false, t) && Booked(size, led', t) && t.disk == s.disk && led' == led
    ensures t.proc == Up(2, map[Actor.Replay := Discarding(1, 0)])
  {
    assert forall k: nat | k < 1 :: Ready !in Live(s, k);
    t, led' := Follow(size, s, led, Pick(1, true));
    t, led' := Follow(size, t, led', Answer(Actor.Replay, Stored, false));
  }

  // False of the code: "a tick goes on until nothing waits".  In this state the loop rests, the counter is
  // zero and a batch waits; every tick stops at once until a shard begins another batch.
  lemma SkippedStaysReady(size: Sizes) returns (s: State, led: Ledger)
    ensures Reachable(false, s) && Books(size, led, s) && s.proc.Up? && Pc(s, Actor.Replay).Idle?
    ensures led.files == 0 && ReadyNumbers(s) == {2}
  {
    var s0 := FirstStart(false);
    var s1 := SavedBatch(s0, 0);
    var s2 := SavedBatch(s1, 1);
    var s3, led3 := SkippedByNew(size, s2);
    s, led := FirstStored(size, s3, led3);
    Unfold(size, led, s);
  }
}
