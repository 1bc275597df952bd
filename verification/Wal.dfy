/** The batch write-ahead log: writer shards, the replay loop, process death, power loss and
    restart, one file-system call or database reply at a time and in any interleaving.  */
module Wal {
  import opened SpoolDisk

  // What one call of Begin was given: its sequence number and its rows, each marked once the
  // database has acknowledged it.
  datatype Batch = Batch(n: nat, acked: seq<bool>)

  datatype Actor = Replay | Writer(w: nat)

  // Where a writer shard (flush, Begin, Ready, Done, Quarantine, salvage) or the replay loop
  // stands.  `n` is the sequence number in hand and `f` the batch written under it.
  datatype PC =
    | Idle
    | OpeningTmp(n: nat, f: nat, save: bool)
    | FillingTmp(n: nat, f: nat, save: bool)
    | PlacingActive(n: nat, f: nat, save: bool)
    | SyncingActive(n: nat, f: nat, save: bool)
    | CleaningTmp(n: nat, f: nat)
    | CleaningActive(n: nat, f: nat)
    | Sending(n: nat, f: nat)
    | Salvaging(n: nat, f: nat, row: nat, rejected: bool, dropped: bool)
    | Releasing(n: nat, f: nat)
    | Discarding(n: nat, f: nat)
    | SettingAside(n: nat, f: nat)
    | SyncingQuarantine
    | SyncingMain

  datatype Proc =
    | Down
    | Booting(todo: set<nat>, seqNo: nat, adopted: bool)
    | Up(seqNo: nat, pcs: map<Actor, PC>)

  datatype State = State(disk: Disk, proc: Proc, batches: map<nat, Batch>, begun: set<nat>)

  // The database's answer to one send.  `Failed` includes a commit whose answer was lost.
  datatype Reply = Stored | RowRefused | Failed

  datatype Event =
    | Reserve(w: nat, f: nat, rows: nat, save: bool)
    | Call(a: Actor, ok: bool)
    | Answer(a: Actor, reply: Reply, giveUp: bool)
    | SalvageRow(a: Actor, reply: Reply)
    | SalvageEnd(a: Actor, giveUp: bool)
    | Pick(n: nat, readable: bool)
    | Kill
    | PowerLoss(left: map<nat, Entries>)
    | Boot
    | BootEntry(n: nat, tmpRemoved: bool, adoptOk: bool, statOk: bool)
    | BootEnd(syncOk: bool)

  function Pc(s: State, a: Actor): PC {
    if s.proc.Up? && a in s.proc.pcs then s.proc.pcs[a] else Idle
  }

  function Goto(s: State, a: Actor, pc: PC): State
    requires s.proc.Up?
  {
    s.(proc := s.proc.(pcs := s.proc.pcs[a := pc]))
  }

  function Live(s: State, n: nat): Entries {
    At(s.disk, n).live
  }

  predicate AllAcked(s: State, f: nat) {
    f in s.batches && forall i | 0 <= i < |s.batches[f].acked| :: s.batches[f].acked[i]
  }

  function Ack(s: State, f: nat, acked: seq<bool>): State
    requires f in s.batches
  {
    s.(batches := s.batches[f := s.batches[f].(acked := acked)])
  }

  // Done and Quarantine look for the released name first and fall back to the active one.
  function Named(live: Entries): Kind {
    if Ready in live then Ready else Active
  }

  // ---- one step ----

  predicate CanCall(pc: PC) {
    !pc.Idle? && !pc.Sending? && !pc.Salvaging?
  }

  function DoCall(s: State, a: Actor, ok: bool): State
    requires s.proc.Up?
  {
    match Pc(s, a)
    case OpeningTmp(n, f, save) =>
      if ok then Goto(s.(disk := Change(s.disk, n, Live(s, n)[Tmp := File(f, false)])), a, FillingTmp(n, f, save))
      else Goto(s, a, Idle)
    case FillingTmp(n, f, save) =>
      if ok then Goto(s.(disk := Change(s.disk, n, Live(s, n)[Tmp := File(f, true)])), a, PlacingActive(n, f, save))
      else Goto(s, a, CleaningTmp(n, f))
    case PlacingActive(n, f, save) =>
      if ok && Tmp in Live(s, n) then Goto(s.(disk := Rename(s.disk, n, Tmp, Active)), a, SyncingActive(n, f, save))
      else Goto(s, a, CleaningTmp(n, f))
    case SyncingActive(n, f, save) =>
      if ok then
        Goto(s.(disk := SyncMain(s.disk), begun := s.begun + {f}), a,
             if save then Releasing(n, f) else Sending(n, f))
      else Goto(s, a, CleaningActive(n, f))
    case CleaningTmp(n, f) =>
      Goto(if ok then s.(disk := Unlink(s.disk, n, Tmp)) else s, a, Idle)
    case CleaningActive(n, f) =>
      Goto(if ok then s.(disk := Unlink(s.disk, n, Active)) else s, a, Idle)
    case Releasing(n, f) =>
      if Ready in Live(s, n) || !ok || Active !in Live(s, n) then Goto(s, a, Idle)
      else Goto(s.(disk := Rename(s.disk, n, Active, Ready)), a, SyncingMain)
    case Discarding(n, f) =>
      if ok then Goto(s.(disk := Unlink(s.disk, n, Named(Live(s, n)))), a, SyncingMain)
      else Goto(s, a, Idle)
    case SettingAside(n, f) =>
      if !ok || Quarantined in Live(s, n) || Named(Live(s, n)) !in Live(s, n) then Goto(s, a, Idle)
      else Goto(s.(disk := Rename(s.disk, n, Named(Live(s, n)), Quarantined)), a, SyncingQuarantine)
    case SyncingQuarantine =>
      if ok then Goto(s.(disk := SyncQuarantine(s.disk)), a, SyncingMain) else Goto(s, a, Idle)
    case SyncingMain =>
      Goto(if ok then s.(disk := SyncMain(s.disk)) else s, a, Idle)
    case _ => s
  }

  // A failed send: a writer retries or releases the batch to replay, the replay loop leaves it
  // for the next tick or quarantines it once it has failed too often.
  function AfterFailure(a: Actor, n: nat, f: nat, giveUp: bool): PC {
    if a.Replay? then (if giveUp then SettingAside(n, f) else Idle)
    else if giveUp then Releasing(n, f) else Sending(n, f)
  }

  function DoAnswer(s: State, a: Actor, reply: Reply, giveUp: bool): State
    requires Pc(s, a).Sending? && Pc(s, a).f in s.batches
  {
    var Sending(n, f) := Pc(s, a);
    match reply
    case Stored =>
      Goto(Ack(s, f, seq(|s.batches[f].acked|, _ => true)), a, Discarding(n, f))
    case RowRefused => Goto(s, a, Salvaging(n, f, 0, false, false))
    case Failed => Goto(s, a, AfterFailure(a, n, f, giveUp))
  }

  function DoSalvageRow(s: State, a: Actor, reply: Reply): State
    requires Enabled(s, SalvageRow(a, reply))
  {
    var Salvaging(n, f, row, rejected, dropped) := Pc(s, a);
    match reply
    case Stored => Goto(Ack(s, f, s.batches[f].acked[row := true]), a, Salvaging(n, f, row + 1, rejected, dropped))
    case RowRefused => Goto(s, a, Salvaging(n, f, row + 1, true, dropped))
    case Failed => Goto(s, a, Salvaging(n, f, row + 1, rejected, true))
  }

  function DoSalvageEnd(s: State, a: Actor, giveUp: bool): State
    requires Pc(s, a).Salvaging?
  {
    var Salvaging(n, f, row, rejected, dropped) := Pc(s, a);
    Goto(s, a,
         if dropped then (if a.Replay? then AfterFailure(a, n, f, giveUp) else Releasing(n, f))
         else if rejected then SettingAside(n, f)
         else Discarding(n, f))
  }

  // New reading the entries of one sequence number.
  function DoBootEntry(s: State, n: nat, tmpRemoved: bool, adoptOk: bool, statOk: bool): State
    requires s.proc.Booting?
  {
    var disk1 := if Tmp in Live(s, n) && tmpRemoved then Unlink(s.disk, n, Tmp) else s.disk;
    if Active in Live(s, n) && (Ready in Live(s, n) || !adoptOk || Active !in At(disk1, n).live) then
      s.(disk := disk1, proc := Down)
    else
      var adopt := Active in Live(s, n);
      var disk2 := if adopt then Rename(disk1, n, Active, Ready) else disk1;
      var counted := (Ready in At(disk2, n).live && statOk) || Quarantined in At(disk2, n).live;
      s.(disk := disk2,
         proc := Booting(s.proc.todo - {n},
                         if counted && n > s.proc.seqNo then n else s.proc.seqNo,
                         s.proc.adopted || adopt))
  }

  function DoBootEnd(s: State, syncOk: bool): State
    requires s.proc.Booting?
  {
    if !s.proc.adopted then s.(proc := Up(s.proc.seqNo, map[]))
    else if syncOk then s.(disk := SyncMain(s.disk), proc := Up(s.proc.seqNo, map[]))
    else s.(proc := Down)
  }

  ghost predicate Enabled(s: State, e: Event) {
    match e
    case Reserve(w, f, rows, save) =>
      s.proc.Up? && Pc(s, Writer(w)).Idle? && f !in s.batches && rows > 0
    case Call(a, ok) => s.proc.Up? && CanCall(Pc(s, a))
    case Answer(a, reply, giveUp) => Pc(s, a).Sending? && Pc(s, a).f in s.batches
    case SalvageRow(a, reply) =>
      var pc := Pc(s, a);
      pc.Salvaging? && pc.f in s.batches && pc.row < |s.batches[pc.f].acked|
    case SalvageEnd(a, giveUp) =>
      var pc := Pc(s, a);
      pc.Salvaging? && pc.f in s.batches && pc.row == |s.batches[pc.f].acked|
    case Pick(n, readable) =>
      && s.proc.Up? && Pc(s, Replay).Idle? && Ready in Live(s, n)
      && forall k: nat | k < n :: Ready !in Live(s, k)
    case Kill => true
    case PowerLoss(left) => MayLeave(s.disk, left)
    case Boot => s.proc.Down?
    case BootEntry(n, _, _, _) => s.proc.Booting? && n in s.proc.todo
    case BootEnd(_) => s.proc.Booting? && s.proc.todo == {}
  }

  function Do(s: State, e: Event): State
    requires Enabled(s, e)
  {
    match e
    case Reserve(w, f, rows, save) =>
      var n := s.proc.seqNo + 1;
      s.(proc := Up(n, s.proc.pcs[Writer(w) := OpeningTmp(n, f, save)]),
         batches := s.batches[f := Batch(n, seq(rows, _ => false))])
    case Call(a, ok) => DoCall(s, a, ok)
    case Answer(a, reply, giveUp) => DoAnswer(s, a, reply, giveUp)
    case SalvageRow(a, reply) => DoSalvageRow(s, a, reply)
    case SalvageEnd(a, giveUp) => DoSalvageEnd(s, a, giveUp)
    case Pick(n, readable) =>
      var f := Live(s, n)[Ready].id;
      Goto(s, Replay, if readable then Sending(n, f) else SettingAside(n, f))
    case Kill => s.(proc := Down)
    case PowerLoss(left) => s.(disk := Remaining(left), proc := Down)
    case Boot => s.(proc := Booting(s.disk.Keys, 0, false))
    case BootEntry(n, tmpRemoved, adoptOk, statOk) => DoBootEntry(s, n, tmpRemoved, adoptOk, statOk)
    case BootEnd(syncOk) => DoBootEnd(s, syncOk)
  }

  const FIRST: State := State(map[], Down, map[], {})

  // ---- runs ----

  ghost predicate IsRun(events: seq<Event>, states: seq<State>) {
    && |states| == |events| + 1
    && states[0] == FIRST
    && forall i | 0 <= i < |events| :: Enabled(states[i], events[i]) && states[i + 1] == Do(states[i], events[i])
  }

  // Every os.Stat of a listed batch file succeeds while New adopts the directory.
  ghost predicate StatsHold(e: Event) {
    e.BootEntry? ==> e.statOk
  }

  // New has counted every number it found: none in the directory is above the one it goes on from.
  ghost predicate Counted(s: State, e: Event) {
    e.BootEnd? && s.proc.Booting? ==> Below(s, s.proc.seqNo, {})
  }

  // ---- what every step keeps ----

  ghost predicate ViewOk(s: State, n: nat, m: Entries) {
    && (forall k, k' | k in m && k' in m :: k == k')
    && (forall k | k in m :: m[k].id in s.batches && s.batches[m[k].id].n == n && (k == Tmp || m[k].whole))
  }

  ghost predicate SlotOk(s: State, n: nat) {
    && At(s.disk, n).live in At(s.disk, n).views
    && (At(s.disk, n).quarantineUnsynced ==> Quarantined in At(s.disk, n).live)
    && forall m | m in At(s.disk, n).views :: ViewOk(s, n, m)
  }

  // The entries hold batch `f`, whole, under exactly one of the three lasting names.
  predicate Holds(m: Entries, f: nat) {
    m == map[Active := File(f, true)] || m == map[Ready := File(f, true)] || m == map[Quarantined := File(f, true)]
  }

  ghost predicate Kept(s: State, f: nat)
    requires f in s.batches
  {
    forall m | m in At(s.disk, s.batches[f].n).views :: Holds(m, f)
  }

  ghost predicate Safe(s: State, f: nat) {
    f in s.batches && (AllAcked(s, f) || Kept(s, f))
  }

  predicate Busy(pc: PC) {
    !pc.Idle? && !pc.SyncingMain? && !pc.SyncingQuarantine?
  }

  // The file an actor works on once Begin has returned: its own active file for a writer, a
  // released one for the replay loop.
  predicate InHand(s: State, a: Actor, n: nat, f: nat) {
    Live(s, n) == if a.Replay? then map[Ready := File(f, true)] else map[Active := File(f, true)]
  }

  predicate Fresh(s: State, a: Actor, n: nat, f: nat) {
    a.Writer? && f !in s.begun && Live(s, n).Keys <= {Tmp}
  }

  ghost predicate PcOk(s: State, a: Actor, pc: PC) {
    && (Busy(pc) ==> pc.f in s.batches && s.batches[pc.f].n == pc.n)
    && match pc
       case OpeningTmp(n, f, _) => Fresh(s, a, n, f)
       case FillingTmp(n, f, _) => Fresh(s, a, n, f) && Live(s, n) == map[Tmp := File(f, false)]
       case PlacingActive(n, f, _) => Fresh(s, a, n, f) && Live(s, n) == map[Tmp := File(f, true)]
       case CleaningTmp(n, f) => Fresh(s, a, n, f)
       case SyncingActive(n, f, _) => a.Writer? && InHand(s, a, n, f) && f !in s.begun
       case CleaningActive(n, f) => a.Writer? && InHand(s, a, n, f) && f !in s.begun
       case Sending(n, f) => InHand(s, a, n, f)
       case Salvaging(n, f, row, rejected, dropped) =>
         && InHand(s, a, n, f)
         && row <= |s.batches[f].acked|
         && (!rejected && !dropped ==> forall i | 0 <= i < row :: s.batches[f].acked[i])
       case Releasing(n, f) => a.Writer? && InHand(s, a, n, f)
       case Discarding(n, f) => InHand(s, a, n, f) && AllAcked(s, f)
       case SettingAside(n, f) => InHand(s, a, n, f)
       case _ => true
  }

  ghost predicate SlotsOk(s: State) {
    forall n: nat :: SlotOk(s, n)
  }

  ghost predicate BegunSafe(s: State) {
    forall f | f in s.begun :: Safe(s, f)
  }

  // Nothing on disk is numbered beyond `seqNo`, leftovers of unfinished writes aside.
  ghost predicate Below(s: State, seqNo: nat, todo: set<nat>) {
    forall n: nat | n > seqNo && n !in todo :: Live(s, n).Keys <= {Tmp}
  }

  ghost predicate ActorsOk(s: State) {
    s.proc.Up? ==> forall a | a in s.proc.pcs ::
      PcOk(s, a, s.proc.pcs[a]) && (Busy(s.proc.pcs[a]) ==> s.proc.pcs[a].n <= s.proc.seqNo)
  }

  ghost predicate Apart(proc: Proc) {
    proc.Up? ==> forall a, b | a in proc.pcs && b in proc.pcs && a != b && Busy(proc.pcs[a]) && Busy(proc.pcs[b]) ::
      proc.pcs[a].n != proc.pcs[b].n
  }

  ghost predicate NumbersOk(s: State) {
    match s.proc
    case Down => true
    case Booting(_, _, _) => true
    case Up(seqNo, _) => Below(s, seqNo, {})
  }

  ghost predicate Inv(s: State) {
    SlotsOk(s) && BegunSafe(s) && NumbersOk(s) && ActorsOk(s) && Apart(s.proc)
  }
}
