/** What the steps of other actors leave alone: the rest of the writer shards and the replay loop,
    seen from one of them.  */
module Company {
  import opened Prelude
  import opened SpoolDisk
  import opened Wal
  import opened WalProof

  // Another actor's step; the process stays up.
  predicate Foreign(e: Event, me: Actor) {
    match e
    case Reserve(w, _, _, _) => Writer(w) != me
    case Call(a, _) => a != me
    case Answer(a, _, _) => a != me
    case SalvageRow(a, _) => a != me
    case SalvageEnd(a, _) => a != me
    case Pick(_, _) => me != Replay
    case _ => false
  }

  // Batches are never forgotten, and acknowledgements never taken back.
  ghost predicate Later(s: State, t: State) {
    && s.begun <= t.begun
    && forall f | f in s.batches ::
         && f in t.batches && t.batches[f].n == s.batches[f].n && |t.batches[f].acked| == |s.batches[f].acked|
         && forall i | 0 <= i < |s.batches[f].acked| && s.batches[f].acked[i] :: t.batches[f].acked[i]
  }

  lemma LaterTwice(s: State, t: State, u: State)
    requires Later(s, t) && Later(t, u)
    ensures Later(s, u)
  {
  }

  // The batches waiting for replay.
  function ReadyNumbers(s: State): set<nat> {
    set n | n in s.disk && Ready in s.disk[n].live
  }

  // Number n is behind the process: nobody works on it and it waits for nobody.
  predicate Gone(s: State, n: nat) {
    && n !in ReadyNumbers(s) && s.proc.Up? && n <= s.proc.seqNo
    && forall a | a in s.proc.pcs && Busy(s.proc.pcs[a]) :: s.proc.pcs[a].n != n
  }

  // The actor stands where it stood, its batch and its file are as they were, and what was gone is gone.
  ghost predicate Calm(s: State, t: State, me: Actor) {
    && t.proc.Up? && Pc(t, me) == Pc(s, me) && Later(s, t)
    && (Busy(Pc(s, me)) && Pc(s, me).f in s.batches ==>
       t.batches[Pc(s, me).f] == s.batches[Pc(s, me).f] && Live(t, Pc(s, me).n) == Live(s, Pc(s, me).n))
    && (me.Replay? ==> ReadyNumbers(s) <= ReadyNumbers(t) && forall n: nat | Gone(s, n) :: Gone(t, n))
  }

  lemma CalmTwice(s: State, t: State, u: State, me: Actor)
    requires Calm(s, t, me) && Calm(t, u, me)
    ensures Calm(s, u, me)
  {
    LaterTwice(s, t, u);
  }

  lemma SyncLive(disk: Disk, k: nat)
    ensures At(SyncMain(disk), k).live == At(disk, k).live && At(SyncQuarantine(disk), k).live == At(disk, k).live
  {
  }

  predicate Writing(pc: PC) {
    pc.OpeningTmp? || pc.FillingTmp? || pc.PlacingActive? || pc.CleaningTmp? || pc.CleaningActive?
  }

  lemma WritingTouches(s: State, a: Actor, ok: bool, k: nat)
    requires s.proc.Up? && Writing(Pc(s, a)) && Pc(s, a).n != k
    ensures Live(DoCall(s, a, ok), k) == Live(s, k)
  {
  }

  lemma MovingTouches(s: State, a: Actor, ok: bool, k: nat)
    requires s.proc.Up? && (Pc(s, a).Releasing? || Pc(s, a).Discarding? || Pc(s, a).SettingAside?) && Pc(s, a).n != k
    ensures Live(DoCall(s, a, ok), k) == Live(s, k)
  {
  }

  lemma SyncingTouches(s: State, a: Actor, ok: bool, k: nat)
    requires s.proc.Up? && (Pc(s, a).SyncingActive? || Pc(s, a).SyncingMain? || Pc(s, a).SyncingQuarantine?)
    ensures Live(DoCall(s, a, ok), k) == Live(s, k)
  {
    SyncLive(s.disk, k);
  }

  // A call changes only the entries of the number in hand.
  lemma CallTouches(s: State, a: Actor, ok: bool, k: nat)
    requires s.proc.Up? && CanCall(Pc(s, a)) && !(Busy(Pc(s, a)) && Pc(s, a).n == k)
    ensures Live(DoCall(s, a, ok), k) == Live(s, k)
  {
    var pc := Pc(s, a);
    if Writing(pc) { WritingTouches(s, a, ok, k); }
    else if pc.SyncingActive? || pc.SyncingMain? || pc.SyncingQuarantine? { SyncingTouches(s, a, ok, k); }
    else { MovingTouches(s, a, ok, k); }
  }

  lemma ReadyListed(s: State, n: nat)
    ensures n in ReadyNumbers(s) <==> Ready in Live(s, n)
  {
  }

  // A writer's call can only add to the released batches, and only the one it has in hand.
  lemma WriterCallReady(s: State, a: Actor, ok: bool, t: State)
    requires Inv(s) && Enabled(s, Call(a, ok)) && a.Writer? && t == DoCall(s, a, ok)
    ensures ReadyNumbers(s) <= ReadyNumbers(t)
    ensures forall k | k in ReadyNumbers(t) && k !in ReadyNumbers(s) :: Busy(Pc(s, a)) && Pc(s, a).n == k
  {
    var pc := Pc(s, a);
    assert PcOk(s, a, pc);
    forall k: nat
      ensures k in ReadyNumbers(s) ==> k in ReadyNumbers(t)
      ensures k in ReadyNumbers(t) && k !in ReadyNumbers(s) ==> Busy(pc) && pc.n == k
    {
      ReadyListed(s, k);
      ReadyListed(t, k);
      if Busy(pc) && pc.n == k {
        assert Ready !in Live(s, k);
      } else {
        CallTouches(s, a, ok, k);
      }
    }
  }

  // Distinct actors work on distinct batches.
  lemma OtherBatch(s: State, a: Actor, b: Actor)
    requires Inv(s) && s.proc.Up? && a != b && Busy(Pc(s, a)) && Busy(Pc(s, b))
    ensures Pc(s, a).n != Pc(s, b).n && Pc(s, a).f != Pc(s, b).f
    ensures Pc(s, a).f in s.batches && Pc(s, b).f in s.batches
  {
    assert PcOk(s, a, Pc(s, a)) && PcOk(s, b, Pc(s, b));
  }

  lemma ReserveCalm(s: State, w: nat, f: nat, rows: nat, save: bool, me: Actor)
    requires Inv(s) && Enabled(s, Reserve(w, f, rows, save)) && Writer(w) != me
    ensures Calm(s, Do(s, Reserve(w, f, rows, save)), me)
  {
    if Busy(Pc(s, me)) { assert PcOk(s, me, Pc(s, me)); }
  }

  lemma CallCalm(s: State, a: Actor, ok: bool, me: Actor)
    requires Inv(s) && Enabled(s, Call(a, ok)) && a != me
    ensures Calm(s, Do(s, Call(a, ok)), me)
  {
    var t := DoCall(s, a, ok);
    assert PcOk(s, a, Pc(s, a));
    CallBooks(s, a, ok, t);
    CallPlaces(s, a, ok, t);
    CallStays(s, a, ok, t);
    if Busy(Pc(s, me)) {
      assert PcOk(s, me, Pc(s, me));
      if Busy(Pc(s, a)) { OtherBatch(s, a, me); }
      CallTouches(s, a, ok, Pc(s, me).n);
    }
    if me.Replay? {
      WriterCallReady(s, a, ok, t);
      forall n: nat | Gone(s, n) ensures Gone(t, n) { }
    }
  }

  // What a call does to everything but the disk.
  lemma CallBooks(s: State, a: Actor, ok: bool, t: State)
    requires s.proc.Up? && CanCall(Pc(s, a)) && t == DoCall(s, a, ok)
    ensures t.proc.Up? && t.batches == s.batches && s.begun <= t.begun
  {
  }

  lemma WritingPlaces(s: State, a: Actor, ok: bool, t: State)
    requires s.proc.Up? && Writing(Pc(s, a)) && t == DoCall(s, a, ok)
    ensures t.proc.Up? && t.proc.seqNo == s.proc.seqNo && a in t.proc.pcs
      && t.proc.pcs == s.proc.pcs[a := t.proc.pcs[a]]
  {
  }

  lemma OtherPlaces(s: State, a: Actor, ok: bool, t: State)
    requires s.proc.Up? && CanCall(Pc(s, a)) && !Writing(Pc(s, a)) && t == DoCall(s, a, ok)
    ensures t.proc.Up? && t.proc.seqNo == s.proc.seqNo && a in t.proc.pcs
      && t.proc.pcs == s.proc.pcs[a := t.proc.pcs[a]]
  {
  }

  lemma CallPlaces(s: State, a: Actor, ok: bool, t: State)
    requires s.proc.Up? && CanCall(Pc(s, a)) && t == DoCall(s, a, ok)
    ensures t.proc.Up? && t.proc.seqNo == s.proc.seqNo && a in t.proc.pcs
      && t.proc.pcs == s.proc.pcs[a := t.proc.pcs[a]]
  {
    if Writing(Pc(s, a)) { WritingPlaces(s, a, ok, t); } else { OtherPlaces(s, a, ok, t); }
  }

  lemma CallStays(s: State, a: Actor, ok: bool, t: State)
    requires s.proc.Up? && CanCall(Pc(s, a)) && t == DoCall(s, a, ok)
    ensures t.proc.Up? && a in t.proc.pcs && (Busy(t.proc.pcs[a]) ==> Busy(Pc(s, a)) && t.proc.pcs[a].n == Pc(s, a).n)
  {
  }

  // An answer to another actor touches another batch.
  lemma AckCalm(s: State, a: Actor, acked: seq<bool>, pc: PC, me: Actor)
    requires Inv(s) && s.proc.Up? && a != me && a in s.proc.pcs && Busy(Pc(s, a)) && Pc(s, a).f in s.batches
      && |acked| == |s.batches[Pc(s, a).f].acked|
    requires forall i | 0 <= i < |acked| && s.batches[Pc(s, a).f].acked[i] :: acked[i]
    requires Busy(pc) ==> pc.n == Pc(s, a).n
    ensures Calm(s, Goto(Ack(s, Pc(s, a).f, acked), a, pc), me)
  {
    if Busy(Pc(s, me)) { OtherBatch(s, a, me); }
    assert Ack(s, Pc(s, a).f, acked).proc == s.proc;
  }

  lemma MoveCalm(s: State, a: Actor, pc: PC, me: Actor)
    requires Inv(s) && s.proc.Up? && a != me && a in s.proc.pcs && Busy(Pc(s, a)) && (Busy(pc) ==> pc.n == Pc(s, a).n)
    ensures Calm(s, Goto(s, a, pc), me)
  {
  }

  lemma PickCalm(s: State, n: nat, readable: bool, me: Actor)
    requires Inv(s) && Enabled(s, Pick(n, readable)) && me != Replay
    ensures Calm(s, Do(s, Pick(n, readable)), me)
  {
  }

  lemma AnswerCalm(s: State, a: Actor, reply: Reply, giveUp: bool, me: Actor)
    requires Inv(s) && s.proc.Up? && Enabled(s, Answer(a, reply, giveUp)) && a != me
    ensures Calm(s, DoAnswer(s, a, reply, giveUp), me)
  {
    var pc := Pc(s, a);
    match reply {
      case Stored => AckCalm(s, a, seq(|s.batches[pc.f].acked|, _ => true), Discarding(pc.n, pc.f), me);
      case RowRefused => MoveCalm(s, a, Salvaging(pc.n, pc.f, 0, false, false), me);
      case Failed => MoveCalm(s, a, AfterFailure(a, pc.n, pc.f, giveUp), me);
    }
  }

  lemma SalvageCalm(s: State, a: Actor, reply: Reply, me: Actor)
    requires Inv(s) && s.proc.Up? && Enabled(s, SalvageRow(a, reply)) && a != me
    ensures Calm(s, DoSalvageRow(s, a, reply), me)
  {
    var pc := Pc(s, a);
    match reply {
      case Stored => AckCalm(s, a, s.batches[pc.f].acked[pc.row := true],
                             Salvaging(pc.n, pc.f, pc.row + 1, pc.rejected, pc.dropped), me);
      case RowRefused => MoveCalm(s, a, Salvaging(pc.n, pc.f, pc.row + 1, true, pc.dropped), me);
      case Failed => MoveCalm(s, a, Salvaging(pc.n, pc.f, pc.row + 1, pc.rejected, true), me);
    }
  }

  // Main result: whatever another actor does, this one finds its batch, its file and its place as they were.
  lemma ForeignCalm(s: State, e: Event, me: Actor)
    requires Inv(s) && s.proc.Up? && Enabled(s, e) && Foreign(e, me)
    ensures Calm(s, Do(s, e), me)
  {
    match e
    case Reserve(w, f, rows, save) => ReserveCalm(s, w, f, rows, save, me);
    case Call(a, ok) => CallCalm(s, a, ok, me);
    case Answer(a, reply, giveUp) => AnswerCalm(s, a, reply, giveUp, me);
    case SalvageRow(a, reply) => SalvageCalm(s, a, reply, me);
    case SalvageEnd(a, giveUp) => MoveCalm(s, a, Pc(DoSalvageEnd(s, a, giveUp), a), me);
    case Pick(n, readable) => PickCalm(s, n, readable, me);
  }

  // A step that another actor can take now.
  predicate Possible(s: State, e: Event, me: Actor) {
    Foreign(e, me) && s.proc.Up? &&
    match e
    case Reserve(w, f, rows, _) => Pc(s, Writer(w)).Idle? && f !in s.batches && rows > 0
    case Call(a, _) => CanCall(Pc(s, a))
    case Answer(a, _, _) => Pc(s, a).Sending? && Pc(s, a).f in s.batches
    case SalvageRow(a, _) => Pc(s, a).Salvaging? && Pc(s, a).f in s.batches
      && Pc(s, a).row < |s.batches[Pc(s, a).f].acked|
    case SalvageEnd(a, _) => Pc(s, a).Salvaging? && Pc(s, a).f in s.batches
      && Pc(s, a).row == |s.batches[Pc(s, a).f].acked|
    case Pick(n, _) => Pc(s, Replay).Idle? && n in ReadyNumbers(s) && forall k | k in ReadyNumbers(s) :: n <= k
    case _ => false
  }

  lemma PossibleIsEnabled(s: State, e: Event, me: Actor)
    requires Possible(s, e, me)
    ensures Enabled(s, e) && Foreign(e, me) && Counted(s, e)
  {
    if e.Pick? {
      forall k: nat | k < e.n ensures Ready !in Live(s, k) { ReadyListed(s, k); }
    }
  }

  // Every possible step of the others is among these, so nothing is left out.
  lemma EnabledIsPossible(s: State, e: Event, me: Actor)
    requires s.proc.Up? && Enabled(s, e) && Foreign(e, me)
    ensures Possible(s, e, me)
  {
    if e.Pick? {
      ReadyListed(s, e.n);
      forall k | k in ReadyNumbers(s) ensures e.n <= k { ReadyListed(s, k); }
    }
  }

  // Next to the replay loop, one step releases one batch at most.
  lemma OneArrival(s: State, e: Event, t: State)
    requires Inv(s) && s.proc.Up? && Enabled(s, e) && Foreign(e, Replay) && t == Do(s, e)
    ensures |ReadyNumbers(t)| <= |ReadyNumbers(s)| + 1
  {
    if e.Call? {
      WriterCallReady(s, e.a, e.ok, t);
      var r := ReadyNumbers(s);
      assert ReadyNumbers(t) <= r + {if Busy(Pc(s, e.a)) then Pc(s, e.a).n else 0};
      SubsetSmaller(ReadyNumbers(t), r + {if Busy(Pc(s, e.a)) then Pc(s, e.a).n else 0});
    } else {
      assert t.disk == s.disk;
    }
  }

  lemma CalmStays(s: State, me: Actor)
    requires s.proc.Up?
    ensures Calm(s, s, me)
  {
  }
}
