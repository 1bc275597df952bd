/** Every step of the write-ahead log keeps the invariant.  */
module WalProof {
  import opened SpoolDisk
  import opened Wal

  // A step of actor `a` that leaves the other actors where they are.
  ghost predicate StepOf(s: State, t: State, a: Actor) {
    && s.proc.Up? && t.proc.Up? && t.proc.seqNo == s.proc.seqNo
    && t.proc.pcs.Keys == s.proc.pcs.Keys + {a}
    && forall b | b in s.proc.pcs && b != a :: t.proc.pcs[b] == s.proc.pcs[b]
  }

  lemma PcFrame(s: State, t: State, b: Actor, pc: PC)
    requires PcOk(s, b, pc)
    requires Busy(pc) ==>
      && pc.f in t.batches && t.batches[pc.f] == s.batches[pc.f]
      && (pc.f in t.begun ==> pc.f in s.begun)
      && Live(t, pc.n) == Live(s, pc.n)
    ensures PcOk(t, b, pc)
  {
  }

  lemma ActorsKeep(s: State, t: State, a: Actor, n: nat)
    requires ActorsOk(s) && Apart(s.proc) && StepOf(s, t, a)
    requires Busy(Pc(s, a)) && Pc(s, a).n == n
    requires forall f | f in s.batches && s.batches[f].n != n ::
      f in t.batches && t.batches[f] == s.batches[f] && (f in t.begun ==> f in s.begun)
    requires forall k: nat | k != n :: Live(t, k) == Live(s, k)
    requires PcOk(t, a, t.proc.pcs[a]) && (Busy(t.proc.pcs[a]) ==> t.proc.pcs[a].n == n)
    ensures ActorsOk(t) && Apart(t.proc)
  {
    forall b | b in t.proc.pcs && b != a
      ensures PcOk(t, b, t.proc.pcs[b])
      ensures Busy(t.proc.pcs[b]) ==> t.proc.pcs[b].n <= t.proc.seqNo && t.proc.pcs[b].n != n
    {
      assert b in s.proc.pcs && PcOk(s, b, s.proc.pcs[b]);
      PcFrame(s, t, b, s.proc.pcs[b]);
    }
  }

  lemma SlotsKeep(s: State, t: State, n: nat)
    requires SlotsOk(s) && t.batches == s.batches
    requires forall k: nat | k != n :: At(t.disk, k) == At(s.disk, k)
    requires At(t.disk, n).views == At(s.disk, n).views + {Live(t, n)}
    requires ViewOk(s, n, Live(t, n))
    requires At(t.disk, n).quarantineUnsynced ==> Quarantined in Live(t, n)
    ensures SlotsOk(t)
  {
    forall k: nat ensures SlotOk(t, k) {
      assert SlotOk(s, k);
      forall m | m in At(t.disk, k).views ensures ViewOk(t, k, m) {
        assert ViewOk(s, k, m);
      }
    }
  }

  lemma BegunKeep(s: State, t: State, n: nat)
    requires BegunSafe(s) && t.batches == s.batches && t.begun == s.begun
    requires forall k: nat | k != n :: At(t.disk, k) == At(s.disk, k)
    requires At(t.disk, n).views == At(s.disk, n).views + {Live(t, n)}
    requires forall f | f in s.begun && s.batches[f].n == n :: AllAcked(s, f) || Holds(Live(t, n), f)
    ensures BegunSafe(t)
  {
    forall f | f in t.begun ensures Safe(t, f) {
      assert Safe(s, f);
      assert AllAcked(s, f) ==> AllAcked(t, f);
    }
  }

  // One unsynced change of the entries numbered n, by the actor that has them in hand.
  lemma SlotStep(s: State, t: State, a: Actor, n: nat)
    requires Inv(s) && StepOf(s, t, a) && Busy(Pc(s, a)) && Pc(s, a).n == n
    requires t.batches == s.batches && t.begun == s.begun
    requires forall k: nat | k != n :: At(t.disk, k) == At(s.disk, k)
    requires At(t.disk, n).views == At(s.disk, n).views + {Live(t, n)}
    requires ViewOk(s, n, Live(t, n))
    requires At(t.disk, n).quarantineUnsynced ==> Quarantined in Live(t, n)
    requires forall f | f in s.begun && s.batches[f].n == n :: AllAcked(s, f) || Holds(Live(t, n), f)
    requires PcOk(t, a, t.proc.pcs[a]) && (Busy(t.proc.pcs[a]) ==> t.proc.pcs[a].n == n)
    ensures Inv(t)
  {
    ActorsKeep(s, t, a, n);
    SlotsKeep(s, t, n);
    BegunKeep(s, t, n);
  }

  // Syncing a directory: the listing stays, the older views can only go.
  ghost predicate Synced(d: Disk, d': Disk) {
    forall k: nat :: At(d', k).live == At(d, k).live && At(d', k).live in At(d', k).views
                     && At(d', k).views <= At(d, k).views
                     && (At(d', k).quarantineUnsynced ==> At(d, k).quarantineUnsynced)
  }

  lemma SyncsAreSyncs(s: State)
    requires SlotsOk(s)
    ensures Synced(s.disk, SyncMain(s.disk)) && Synced(s.disk, SyncQuarantine(s.disk))
    ensures forall k: nat | !At(s.disk, k).quarantineUnsynced ::
      At(SyncMain(s.disk), k).views == {Live(s, k)}
  {
    forall k: nat
      ensures Live(s, k) in At(s.disk, k).views
    {
      assert SlotOk(s, k);
    }
  }

  lemma DiskSyncKeeps(s: State, t: State)
    requires SlotsOk(s) && BegunSafe(s) && Synced(s.disk, t.disk) && t.batches == s.batches && t.begun == s.begun
    ensures SlotsOk(t) && BegunSafe(t)
  {
    forall k: nat ensures SlotOk(t, k) {
      assert SlotOk(s, k);
      forall m | m in At(t.disk, k).views ensures ViewOk(t, k, m) { assert ViewOk(s, k, m); }
    }
    forall f | f in t.begun ensures Safe(t, f) {
      assert Safe(s, f);
      assert AllAcked(s, f) ==> AllAcked(t, f);
    }
  }

  // A step that changes no listing and no batch: only the actor's place, and perhaps a sync.
  lemma QuietStep(s: State, t: State, a: Actor)
    requires Inv(s) && StepOf(s, t, a)
    requires Synced(s.disk, t.disk) && t.batches == s.batches && t.begun == s.begun
    requires PcOk(t, a, t.proc.pcs[a])
    requires Busy(t.proc.pcs[a]) ==> Busy(Pc(s, a)) && Pc(s, a).n == t.proc.pcs[a].n
    ensures Inv(t)
  {
    DiskSyncKeeps(s, t);
    forall b | b in t.proc.pcs && b != a ensures PcOk(t, b, t.proc.pcs[b]) {
      PcFrame(s, t, b, s.proc.pcs[b]);
    }
  }

  lemma GotoIsStep(s: State, u: State, a: Actor, pc: PC)
    requires s.proc.Up? && u.proc == s.proc
    ensures StepOf(s, Goto(u, a, pc), a) && Goto(u, a, pc).proc.pcs[a] == pc
  {
  }

  // ---- the file-system calls, one by one ----

  lemma WriteTmp(s: State, a: Actor, whole: bool, next: PC)
    requires Inv(s) && s.proc.Up?
    requires Pc(s, a).OpeningTmp? || Pc(s, a).FillingTmp?
    requires next == if whole then PlacingActive(Pc(s, a).n, Pc(s, a).f, Pc(s, a).save)
                     else FillingTmp(Pc(s, a).n, Pc(s, a).f, Pc(s, a).save)
    ensures Inv(Goto(s.(disk := Change(s.disk, Pc(s, a).n,
                                       Live(s, Pc(s, a).n)[Tmp := File(Pc(s, a).f, whole)])), a, next))
  {
    var n, f := Pc(s, a).n, Pc(s, a).f;
    var u := s.(disk := Change(s.disk, n, Live(s, n)[Tmp := File(f, whole)]));
    var t := Goto(u, a, next);
    GotoIsStep(s, u, a, next);
    assert SlotOk(s, n) && PcOk(s, a, Pc(s, a));
    assert Live(t, n) == map[Tmp := File(f, whole)];
    NoneKept(s, n);
    SlotStep(s, t, a, n);
  }

  // Where only leftovers are listed, every batch ever begun under that number is acknowledged.
  lemma NoneKept(s: State, n: nat)
    requires SlotsOk(s) && BegunSafe(s)
    requires Live(s, n).Keys <= {Tmp}
    ensures forall f | f in s.begun && s.batches[f].n == n :: AllAcked(s, f)
  {
    assert SlotOk(s, n);
    forall f | f in s.begun && s.batches[f].n == n ensures AllAcked(s, f) {
      assert Safe(s, f);
      if Holds(Live(s, n), f) { HoldsIsListed(Live(s, n), f); }
    }
  }

  lemma HoldsIsListed(m: Entries, f: nat)
    requires Holds(m, f)
    ensures !(m.Keys <= {Tmp})
  {
    assert Active in m || Ready in m || Quarantined in m;
  }

  lemma RenameOnly(disk: Disk, n: nat, from: Kind, to: Kind, file: File)
    requires At(disk, n).live == map[from := file] && from != to
    ensures At(Rename(disk, n, from, to), n).live == map[to := file]
    ensures At(Rename(disk, n, from, to), n).views == At(disk, n).views + {map[to := file]}
    ensures At(Rename(disk, n, from, to), n).quarantineUnsynced == (to == Quarantined || At(disk, n).quarantineUnsynced)
    ensures forall k: nat | k != n :: At(Rename(disk, n, from, to), k) == At(disk, k)
  {
    assert (At(disk, n).live - {from})[to := file] == map[to := file];
  }

  // Where f is listed, no other unacknowledged batch was begun under that number.
  lemma OnlyKept(s: State, n: nat, f: nat, kind: Kind)
    requires SlotsOk(s) && BegunSafe(s)
    requires Live(s, n) == map[kind := File(f, true)]
    ensures forall g | g in s.begun && s.batches[g].n == n && g != f :: AllAcked(s, g)
  {
    assert SlotOk(s, n);
    forall g | g in s.begun && s.batches[g].n == n && g != f ensures AllAcked(s, g) {
      assert Safe(s, g);
      assert Live(s, n)[kind].id == f;
      assert !Holds(Live(s, n), g);
    }
  }

  lemma PlaceActive(s: State, a: Actor)
    requires Inv(s) && s.proc.Up? && Pc(s, a).PlacingActive?
    ensures Tmp in Live(s, Pc(s, a).n)
    ensures Inv(DoCall(s, a, true))
  {
    var PlacingActive(n, f, save) := Pc(s, a);
    assert SlotOk(s, n) && PcOk(s, a, Pc(s, a));
    var u := s.(disk := Rename(s.disk, n, Tmp, Active));
    GotoIsStep(s, u, a, SyncingActive(n, f, save));
    var t := Goto(u, a, SyncingActive(n, f, save));
    assert Live(t, n) == map[Active := File(f, true)];
    NoneKept(s, n);
    SlotStep(s, t, a, n);
  }

  lemma RemoveTmp(s: State, a: Actor)
    requires Inv(s) && s.proc.Up? && Pc(s, a).CleaningTmp?
    ensures Inv(DoCall(s, a, true))
  {
    var CleaningTmp(n, f) := Pc(s, a);
    assert SlotOk(s, n) && PcOk(s, a, Pc(s, a));
    var u := s.(disk := Unlink(s.disk, n, Tmp));
    GotoIsStep(s, u, a, Idle);
    var t := Goto(u, a, Idle);
    assert Live(t, n) == map[];
    NoneKept(s, n);
    SlotStep(s, t, a, n);
  }

  // Unlinking the file in hand: allowed where its batch was not begun or is acknowledged.
  lemma RemoveInHand(s: State, a: Actor, kind: Kind, next: PC)
    requires Inv(s) && s.proc.Up? && Busy(Pc(s, a)) && !Busy(next)
    requires Live(s, Pc(s, a).n) == map[kind := File(Pc(s, a).f, true)] && kind != Quarantined
    requires Pc(s, a).f !in s.begun || AllAcked(s, Pc(s, a).f)
    ensures Inv(Goto(s.(disk := Unlink(s.disk, Pc(s, a).n, kind)), a, next))
  {
    var n, f := Pc(s, a).n, Pc(s, a).f;
    assert SlotOk(s, n);
    var u := s.(disk := Unlink(s.disk, n, kind));
    GotoIsStep(s, u, a, next);
    var t := Goto(u, a, next);
    assert Live(t, n) == map[];
    OnlyKept(s, n, f, kind);
    SlotStep(s, t, a, n);
  }

  // Renaming the file in hand to another lasting name.
  lemma MoveInHand(s: State, a: Actor, from: Kind, to: Kind, next: PC)
    requires Inv(s) && s.proc.Up? && Busy(Pc(s, a)) && !Busy(next)
    requires Live(s, Pc(s, a).n) == map[from := File(Pc(s, a).f, true)]
    requires from != Quarantined && from != Tmp && to != Tmp && to != from
    ensures Inv(Goto(s.(disk := Rename(s.disk, Pc(s, a).n, from, to)), a, next))
  {
    var n, f := Pc(s, a).n, Pc(s, a).f;
    assert SlotOk(s, n);
    var u := s.(disk := Rename(s.disk, n, from, to));
    GotoIsStep(s, u, a, next);
    var t := Goto(u, a, next);
    RenameOnly(s.disk, n, from, to, File(f, true));
    assert ViewOk(s, n, Live(s, n));
    assert Live(s, n)[from].id == f;
    assert Holds(Live(t, n), f);
    OnlyKept(s, n, f, from);
    SlotStep(s, t, a, n);
  }

  // Begin returns a handle: from here on the batch is on the disk whatever happens.
  lemma ReturnHandle(s: State, a: Actor)
    requires Inv(s) && s.proc.Up? && Pc(s, a).SyncingActive?
    ensures Inv(DoCall(s, a, true))
  {
    var SyncingActive(n, f, save) := Pc(s, a);
    assert SlotOk(s, n) && PcOk(s, a, Pc(s, a));
    SyncsAreSyncs(s);
    var u := s.(disk := SyncMain(s.disk));
    DiskSyncKeeps(s, u);
    var next := if save then Releasing(n, f) else Sending(n, f);
    GotoIsStep(s, u.(begun := s.begun + {f}), a, next);
    var t := Goto(u.(begun := s.begun + {f}), a, next);
    assert At(t.disk, n).views == {map[Active := File(f, true)]};
    assert Kept(t, f);
    forall k: nat ensures SlotOk(t, k) {
      assert SlotOk(u, k);
      forall m | m in At(t.disk, k).views ensures ViewOk(t, k, m) { assert ViewOk(u, k, m); }
    }
    forall g | g in t.begun ensures Safe(t, g) {
      if g != f {
        assert Safe(u, g);
        assert AllAcked(u, g) ==> AllAcked(t, g);
      }
    }
    ActorsKeep(s, t, a, n);
  }

  lemma ListedIsView(s: State)
    requires SlotsOk(s)
    ensures Synced(s.disk, s.disk)
  {
    forall k: nat ensures Live(s, k) in At(s.disk, k).views { assert SlotOk(s, k); }
  }

  // A failed call changes nothing but the caller's place.
  lemma FailedCallKeeps(s: State, a: Actor)
    requires Inv(s) && Enabled(s, Call(a, false))
    ensures Inv(DoCall(s, a, false))
  {
    assert PcOk(s, a, Pc(s, a));
    ListedIsView(s);
    QuietStep(s, DoCall(s, a, false), a);
  }

  lemma SyncCallKeeps(s: State, a: Actor)
    requires Inv(s) && s.proc.Up? && (Pc(s, a).SyncingMain? || Pc(s, a).SyncingQuarantine?)
    ensures Inv(DoCall(s, a, true))
  {
    SyncsAreSyncs(s);
    QuietStep(s, DoCall(s, a, true), a);
  }

  lemma CallKeeps(s: State, a: Actor, ok: bool)
    requires Inv(s) && Enabled(s, Call(a, ok))
    ensures Inv(DoCall(s, a, ok))
  {
    var pc := Pc(s, a);
    assert PcOk(s, a, pc);
    if !ok {
      FailedCallKeeps(s, a);
    } else {
      match pc
      case OpeningTmp(n, f, save) => WriteTmp(s, a, false, FillingTmp(n, f, save));
      case FillingTmp(n, f, save) => WriteTmp(s, a, true, PlacingActive(n, f, save));
      case PlacingActive(n, f, save) => PlaceActive(s, a);
      case SyncingActive(n, f, save) => ReturnHandle(s, a);
      case CleaningTmp(n, f) => RemoveTmp(s, a);
      case CleaningActive(n, f) => RemoveInHand(s, a, Active, Idle);
      case Releasing(n, f) => MoveInHand(s, a, Active, Ready, SyncingMain);
      case Discarding(n, f) => RemoveInHand(s, a, Named(Live(s, n)), SyncingMain);
      case SettingAside(n, f) => MoveInHand(s, a, Named(Live(s, n)), Quarantined, SyncingQuarantine);
      case SyncingQuarantine => SyncCallKeeps(s, a);
      case SyncingMain => SyncCallKeeps(s, a);
    }
  }

  // ---- database answers ----

  lemma PlaceKeeps(s: State, a: Actor, next: PC)
    requires Inv(s) && s.proc.Up? && Busy(Pc(s, a))
    requires Busy(next) ==> next.n == Pc(s, a).n
    requires PcOk(s, a, next)
    ensures Inv(Goto(s, a, next))
  {
    ListedIsView(s);
    GotoIsStep(s, s, a, next);
    var t := Goto(s, a, next);
    PcFrame(s, t, a, next);
    QuietStep(s, t, a);
  }

  // The database acknowledges rows of the batch in hand.
  lemma AckKeeps(s: State, a: Actor, acked: seq<bool>, next: PC)
    requires Inv(s) && s.proc.Up? && Busy(Pc(s, a)) && Pc(s, a).f in s.batches
    requires |acked| == |s.batches[Pc(s, a).f].acked|
    requires forall i | 0 <= i < |acked| && s.batches[Pc(s, a).f].acked[i] :: acked[i]
    requires Busy(next) && next.n == Pc(s, a).n && PcOk(Ack(s, Pc(s, a).f, acked), a, next)
    ensures Inv(Goto(Ack(s, Pc(s, a).f, acked), a, next))
  {
    var f := Pc(s, a).f;
    assert PcOk(s, a, Pc(s, a));
    var u := Ack(s, f, acked);
    GotoIsStep(s, u, a, next);
    var t := Goto(u, a, next);
    forall k: nat ensures SlotOk(t, k) {
      assert SlotOk(s, k);
      forall m | m in At(t.disk, k).views ensures ViewOk(t, k, m) { assert ViewOk(s, k, m); }
    }
    forall g | g in t.begun ensures Safe(t, g) {
      assert Safe(s, g);
      assert AllAcked(s, g) ==> AllAcked(t, g);
    }
    PcFrame(u, t, a, next);
    ActorsKeep(s, t, a, Pc(s, a).n);
  }

  lemma AnswerKeeps(s: State, a: Actor, reply: Reply, giveUp: bool)
    requires Inv(s) && Enabled(s, Answer(a, reply, giveUp))
    ensures Inv(DoAnswer(s, a, reply, giveUp))
  {
    var Sending(n, f) := Pc(s, a);
    assert PcOk(s, a, Pc(s, a));
    match reply
    case Stored => AckKeeps(s, a, seq(|s.batches[f].acked|, _ => true), Discarding(n, f));
    case RowRefused => PlaceKeeps(s, a, Salvaging(n, f, 0, false, false));
    case Failed => PlaceKeeps(s, a, AfterFailure(a, n, f, giveUp));
  }

  lemma SalvageRowKeeps(s: State, a: Actor, reply: Reply)
    requires Inv(s) && Enabled(s, SalvageRow(a, reply))
    ensures Inv(DoSalvageRow(s, a, reply))
  {
    var Salvaging(n, f, row, rejected, dropped) := Pc(s, a);
    assert PcOk(s, a, Pc(s, a));
    match reply
    case Stored => AckKeeps(s, a, s.batches[f].acked[row := true], Salvaging(n, f, row + 1, rejected, dropped));
    case RowRefused => PlaceKeeps(s, a, Salvaging(n, f, row + 1, true, dropped));
    case Failed => PlaceKeeps(s, a, Salvaging(n, f, row + 1, rejected, true));
  }

  lemma SalvageEndKeeps(s: State, a: Actor, giveUp: bool)
    requires Inv(s) && Enabled(s, SalvageEnd(a, giveUp))
    ensures Inv(DoSalvageEnd(s, a, giveUp))
  {
    var Salvaging(n, f, row, rejected, dropped) := Pc(s, a);
    assert PcOk(s, a, Pc(s, a));
    PlaceKeeps(s, a, DoSalvageEnd(s, a, giveUp).proc.pcs[a]);
  }

  // ---- starting work ----

  lemma PickKeeps(s: State, n: nat, readable: bool)
    requires Inv(s) && Enabled(s, Pick(n, readable))
    ensures Inv(Do(s, Pick(n, readable)))
  {
    assert SlotOk(s, n);
    assert ViewOk(s, n, Live(s, n));
    var f := Live(s, n)[Ready].id;
    assert Live(s, n) == map[Ready := File(f, true)];
    var next := if readable then Sending(n, f) else SettingAside(n, f);
    var t := Do(s, Pick(n, readable));
    GotoIsStep(s, s, Replay, next);
    ListedIsView(s);
    DiskSyncKeeps(s, t);
    forall b | b in t.proc.pcs && b != Replay
      ensures PcOk(t, b, t.proc.pcs[b]) && (Busy(t.proc.pcs[b]) ==> t.proc.pcs[b].n != n)
    {
      assert PcOk(s, b, s.proc.pcs[b]);
      PcFrame(s, t, b, s.proc.pcs[b]);
      WritersHoldNoReady(s, b);
    }
    assert n <= s.proc.seqNo;
  }

  lemma WritersHoldNoReady(s: State, b: Actor)
    requires s.proc.Up? && b in s.proc.pcs && PcOk(s, b, s.proc.pcs[b]) && b.Writer?
    ensures Busy(s.proc.pcs[b]) ==> Ready !in Live(s, s.proc.pcs[b].n)
  {
  }

  lemma ReserveKeeps(s: State, w: nat, f: nat, rows: nat, save: bool)
    requires Inv(s) && Enabled(s, Reserve(w, f, rows, save))
    ensures Inv(Do(s, Reserve(w, f, rows, save)))
  {
    var t := Do(s, Reserve(w, f, rows, save));
    var n := s.proc.seqNo + 1;
    forall k: nat ensures SlotOk(t, k) {
      assert SlotOk(s, k);
      forall m | m in At(t.disk, k).views ensures ViewOk(t, k, m) { assert ViewOk(s, k, m); }
    }
    forall g | g in t.begun ensures Safe(t, g) {
      assert Safe(s, g);
      assert AllAcked(s, g) ==> AllAcked(t, g);
    }
    forall b | b in t.proc.pcs && b != Writer(w)
      ensures PcOk(t, b, t.proc.pcs[b]) && (Busy(t.proc.pcs[b]) ==> t.proc.pcs[b].n < n)
    {
      assert PcOk(s, b, s.proc.pcs[b]);
      PcFrame(s, t, b, s.proc.pcs[b]);
    }
    assert f in s.begun ==> Safe(s, f);
    assert Live(s, n).Keys <= {Tmp};
    assert PcOk(t, Writer(w), OpeningTmp(n, f, save));
  }

  // ---- death and restart ----

  lemma PowerLossKeeps(s: State, left: map<nat, Entries>)
    requires Inv(s) && MayLeave(s.disk, left)
    ensures Inv(Do(s, PowerLoss(left)))
  {
    var t := Do(s, PowerLoss(left));
    forall k: nat ensures SlotOk(t, k) && At(t.disk, k).views <= At(s.disk, k).views {
      assert SlotOk(s, k);
      forall m | m in At(t.disk, k).views ensures ViewOk(t, k, m) { assert ViewOk(s, k, m); }
    }
    forall g | g in t.begun ensures Safe(t, g) {
      assert Safe(s, g);
      assert AllAcked(s, g) ==> AllAcked(t, g);
    }
  }

  lemma BootEntryKeeps(s: State, n: nat, tmpRemoved: bool, adoptOk: bool, statOk: bool)
    requires Inv(s) && s.proc.Booting? && n in s.proc.todo
    ensures Inv(DoBootEntry(s, n, tmpRemoved, adoptOk, statOk))
  {
    var t := DoBootEntry(s, n, tmpRemoved, adoptOk, statOk);
    assert SlotOk(s, n);
    assert ViewOk(s, n, Live(s, n));
    if Tmp in Live(s, n) && tmpRemoved {
      assert Live(t, n) == map[];
      NoneKept(s, n);
      SlotsKeep(s, t, n);
      BegunKeep(s, t, n);
    } else if Active in Live(s, n) && adoptOk {
      var f := Live(s, n)[Active].id;
      assert Live(s, n) == map[Active := File(f, true)];
      RenameOnly(s.disk, n, Active, Ready, File(f, true));
      assert Holds(Live(t, n), f);
      OnlyKept(s, n, f, Active);
      SlotsKeep(s, t, n);
      BegunKeep(s, t, n);
    } else {
      ListedIsView(s);
      DiskSyncKeeps(s, t);
    }
  }

  lemma BootEndKeeps(s: State, syncOk: bool)
    requires Inv(s) && s.proc.Booting? && s.proc.todo == {} && Below(s, s.proc.seqNo, {})
    ensures Inv(DoBootEnd(s, syncOk))
  {
    SyncsAreSyncs(s);
    ListedIsView(s);
    DiskSyncKeeps(s, DoBootEnd(s, syncOk));
  }

  lemma ProcOnlyKeeps(s: State, t: State)
    requires Inv(s) && t == s.(proc := t.proc)
    requires t.proc.Down? || t.proc == Booting(s.disk.Keys, 0, false)
    ensures Inv(t)
  {
    ListedIsView(s);
    DiskSyncKeeps(s, t);
    forall n: nat | n !in s.disk ensures Live(s, n).Keys <= {Tmp} { }
  }

  lemma StepKeeps(s: State, e: Event)
    requires Inv(s) && Enabled(s, e) && Counted(s, e)
    ensures Inv(Do(s, e))
  {
    match e
    case Reserve(w, f, rows, save) => ReserveKeeps(s, w, f, rows, save);
    case Call(a, ok) => CallKeeps(s, a, ok);
    case Answer(a, reply, giveUp) => AnswerKeeps(s, a, reply, giveUp);
    case SalvageRow(a, reply) => SalvageRowKeeps(s, a, reply);
    case SalvageEnd(a, giveUp) => SalvageEndKeeps(s, a, giveUp);
    case Pick(n, readable) => PickKeeps(s, n, readable);
    case Kill => ProcOnlyKeeps(s, s.(proc := Down));
    case PowerLoss(left) => PowerLossKeeps(s, left);
    case Boot => ProcOnlyKeeps(s, s.(proc := Booting(s.disk.Keys, 0, false)));
    case BootEntry(n, tmpRemoved, adoptOk, statOk) => BootEntryKeeps(s, n, tmpRemoved, adoptOk, statOk);
    case BootEnd(syncOk) => BootEndKeeps(s, syncOk);
  }

  lemma {:induction false} RunKeeps(events: seq<Event>, states: seq<State>, i: nat)
    requires IsRun(events, states) && i < |states|
    requires forall j | 0 <= j < |events| :: Counted(states[j], events[j])
    ensures Inv(states[i])
  {
    if i == 0 {
      assert SlotsOk(FIRST);
    } else {
      RunKeeps(events, states, i - 1);
      StepKeeps(states[i - 1], events[i - 1]);
      assert states[i] == Do(states[i - 1], events[i - 1]);
    }
  }

  // ---- when New counts everything ----

  ghost predicate BootBelow(s: State) {
    s.proc.Booting? ==> Below(s, s.proc.seqNo, s.proc.todo)
  }

  lemma BootEntryCounts(s: State, n: nat, tmpRemoved: bool, adoptOk: bool)
    requires Inv(s) && BootBelow(s) && s.proc.Booting? && n in s.proc.todo
    ensures BootBelow(DoBootEntry(s, n, tmpRemoved, adoptOk, true))
  {
    var t := DoBootEntry(s, n, tmpRemoved, adoptOk, true);
    assert SlotOk(s, n);
    assert ViewOk(s, n, Live(s, n));
    if t.proc.Booting? {
      forall k: nat | k > t.proc.seqNo && k !in t.proc.todo ensures Live(t, k).Keys <= {Tmp} {
        if k != n { assert Live(t, k) == Live(s, k); }
      }
    }
  }

  lemma BootBelowStep(s: State, e: Event)
    requires Inv(s) && BootBelow(s) && Enabled(s, e) && StatsHold(e)
    ensures Inv(Do(s, e)) && BootBelow(Do(s, e))
  {
    StepKeeps(s, e);
    match e
    case BootEntry(n, tmpRemoved, adoptOk, statOk) => BootEntryCounts(s, n, tmpRemoved, adoptOk);
    case Boot => assert forall n: nat | n !in s.disk :: Live(s, n).Keys <= {Tmp};
    case _ => assert !Do(s, e).proc.Booting?;
  }

  // With every os.Stat successful, New counts everything.
  lemma {:induction false} StatsCount(events: seq<Event>, states: seq<State>, i: nat)
    requires IsRun(events, states) && i < |states|
    requires forall j | 0 <= j < |events| :: StatsHold(events[j])
    ensures Inv(states[i]) && BootBelow(states[i])
  {
    if i == 0 {
      assert SlotsOk(FIRST);
    } else {
      StatsCount(events, states, i - 1);
      BootBelowStep(states[i - 1], events[i - 1]);
      assert states[i] == Do(states[i - 1], events[i - 1]);
    }
  }
}
