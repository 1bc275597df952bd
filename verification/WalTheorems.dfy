/** What the write-ahead log guarantees over every run, and the two places where it stops.  */
module WalTheorems {
  import opened SpoolDisk
  import opened Wal
  import opened WalProof

  // Batch f is listed exactly once, complete, as an active, ready or quarantined file.
  ghost predicate OnceOnDisk(disk: Disk, f: nat) {
    exists n: nat, k ::
      && k != Tmp && Lists(disk, n, k, f) && At(disk, n).live[k].whole
      && forall n': nat, k' | Lists(disk, n', k', f) :: n' == n && k' == k
  }

  predicate Lists(disk: Disk, n: nat, k: Kind, f: nat) {
    k in At(disk, n).live && At(disk, n).live[k].id == f
  }

  // ... and would still be if the power went now.
  ghost predicate SurvivesPowerLoss(disk: Disk, f: nat) {
    forall left | MayLeave(disk, left) :: OnceOnDisk(Remaining(left), f)
  }

  // Runs in which New may leave a number it found uncounted only if `statFaults`.
  ghost predicate RunOf(statFaults: bool, events: seq<Event>, states: seq<State>) {
    IsRun(events, states) && (statFaults || forall j | 0 <= j < |events| :: Counted(states[j], events[j]))
  }

  // It leaves none uncounted while every os.Stat of a listed file succeeds.
  lemma StatsSuffice(events: seq<Event>, states: seq<State>)
    requires IsRun(events, states) && forall j | 0 <= j < |events| :: StatsHold(events[j])
    ensures RunOf(false, events, states)
  {
    forall j | 0 <= j < |events| ensures Counted(states[j], events[j]) { StatsCount(events, states, j); }
  }

  function Last(states: seq<State>): State
    requires |states| > 0
  {
    states[|states| - 1]
  }

  ghost predicate NothingLost(s: State) {
    forall f | f in s.begun :: AllAcked(s, f) || (OnceOnDisk(s.disk, f) && SurvivesPowerLoss(s.disk, f))
  }

  lemma HeldOnce(s: State, d: Disk, f: nat)
    requires Inv(s) && f in s.batches
    requires forall n: nat :: At(d, n).live in At(s.disk, n).views
    requires Kept(s, f)
    ensures OnceOnDisk(d, f)
  {
    var n := s.batches[f].n;
    var live := At(d, n).live;
    assert Holds(live, f);
    var k := if live == map[Active := File(f, true)] then Active
             else if live == map[Ready := File(f, true)] then Ready else Quarantined;
    assert live == map[k := File(f, true)];
    assert Lists(d, n, k, f);
    forall n': nat, k' | Lists(d, n', k', f) ensures n' == n && k' == k {
      assert SlotOk(s, n');
      assert ViewOk(s, n', At(d, n').live);
    }
  }

  lemma InvMeansNothingLost(s: State)
    requires Inv(s)
    ensures NothingLost(s)
  {
    forall f | f in s.begun && !AllAcked(s, f)
      ensures OnceOnDisk(s.disk, f) && SurvivesPowerLoss(s.disk, f)
    {
      assert Safe(s, f);
      forall n: nat ensures At(s.disk, n).live in At(s.disk, n).views { assert SlotOk(s, n); }
      HeldOnce(s, s.disk, f);
      forall left | MayLeave(s.disk, left) ensures OnceOnDisk(Remaining(left), f) {
        HeldOnce(s, Remaining(left), f);
      }
    }
  }

  // Main result: at every instant of every run, a batch whose Begin returned a handle is either
  // acknowledged row by row or on the disk under exactly one name, now and after a power loss.
  lemma NeverLost(events: seq<Event>, states: seq<State>, i: nat)
    requires RunOf(false, events, states) && i < |states|
    ensures NothingLost(states[i])
  {
    RunKeeps(events, states, i);
    InvMeansNothingLost(states[i]);
  }

  // The handle given out next is above every number in the directory, and no number is ever
  // listed twice: New cannot find active and ready copies of one batch, nor Quarantine its target.
  lemma HandlesFresh(events: seq<Event>, states: seq<State>, i: nat, n: nat)
    requires RunOf(false, events, states) && i < |states|
    ensures forall m | m in At(states[i].disk, n).views ::
      !(Active in m && Ready in m) && !(Quarantined in m && Named(m) in m)
    ensures states[i].proc.Up? && n > states[i].proc.seqNo ==> Live(states[i], n).Keys <= {Tmp}
  {
    RunKeeps(events, states, i);
    assert SlotOk(states[i], n);
    forall m | m in At(states[i].disk, n).views
      ensures !(Active in m && Ready in m) && !(Quarantined in m && Named(m) in m)
    {
      assert ViewOk(states[i], n, m);
    }
  }

  // A number, and with it a deduplication token, is given out again only after every row of
  // each earlier batch begun under it was acknowledged.
  lemma ReusedOnlyWhenAcked(events: seq<Event>, states: seq<State>, i: nat, f: nat)
    requires RunOf(false, events, states) && i < |events| && events[i].Reserve?
    requires f in states[i].begun && f in states[i].batches && states[i].batches[f].n == states[i].proc.seqNo + 1
    ensures AllAcked(states[i], f)
  {
    RunKeeps(events, states, i);
    NoneKept(states[i], states[i].proc.seqNo + 1);
  }

  // ---- where the guarantee stops ----

  // Which faults a run may have: any at all, any that leaves no number uncounted, or none.
  datatype Mode = AnyFault | AllCounted | Smooth

  // Every call succeeds, the database stores what it is sent, and the process goes on.
  predicate Undisturbed(e: Event) {
    match e
    case Reserve(_, _, _, _) => true
    case Call(_, ok) => ok
    case Answer(_, reply, _) => reply.Stored?
    case _ => false
  }

  ghost predicate Allows(mode: Mode, s: State, e: Event) {
    (mode.AnyFault? || Counted(s, e)) && (mode.Smooth? ==> Undisturbed(e))
  }

  // A run from s0 on.
  ghost predicate PathOf(s0: State, mode: Mode, events: seq<Event>, states: seq<State>) {
    && |states| == |events| + 1 && states[0] == s0
    && (forall i | 0 <= i < |events| :: Enabled(states[i], events[i]) && states[i + 1] == Do(states[i], events[i]))
    && forall j | 0 <= j < |events| :: Allows(mode, states[j], events[j])
  }

  ghost predicate Path(s0: State, mode: Mode, s: State) {
    exists events, states :: PathOf(s0, mode, events, states) && Last(states) == s
  }

  function ModeOf(statFaults: bool): Mode { if statFaults then AnyFault else AllCounted }

  ghost predicate Reachable(statFaults: bool, s: State) {
    Path(FIRST, ModeOf(statFaults), s)
  }

  lemma ReachableInv(s: State)
    requires Reachable(false, s)
    ensures Inv(s)
  {
    var events, states :| PathOf(FIRST, AllCounted, events, states) && Last(states) == s;
    forall j | 0 <= j < |events|
      ensures Counted(states[j], events[j])
    {
      assert Allows(AllCounted, states[j], events[j]);
    }
    RunKeeps(events, states, |states| - 1);
  }

  lemma Stay(s: State, mode: Mode)
    ensures Path(s, mode, s)
  {
    assert PathOf(s, mode, [], [s]) && Last([s]) == s;
  }

  lemma Go(s0: State, mode: Mode, s: State, e: Event) returns (t: State)
    requires Path(s0, mode, s) && Enabled(s, e) && Allows(mode, s, e)
    ensures Path(s0, mode, t) && t == Do(s, e)
  {
    var events, states :| PathOf(s0, mode, events, states) && Last(states) == s;
    t := Do(s, e);
    assert PathOf(s0, mode, events + [e], states + [t]) && Last(states + [t]) == t;
  }

  lemma Reach(statFaults: bool, s: State, e: Event) returns (t: State)
    requires Reachable(statFaults, s) && Enabled(s, e) && (statFaults || Counted(s, e))
    ensures Reachable(statFaults, t) && t == Do(s, e)
  {
    t := Go(FIRST, ModeOf(statFaults), s, e);
  }

  lemma FirstStart(statFaults: bool) returns (s: State)
    ensures Reachable(statFaults, s) && s == State(map[], Up(0, map[]), map[], {})
  {
    Stay(FIRST, ModeOf(statFaults));
    s := Reach(statFaults, FIRST, Boot);
    s := Reach(statFaults, s, BootEnd(true));
  }

  // ---- one shard, all of whose calls succeed, next to whatever the others stand at ----

  // Shard w stands at this point.
  predicate Ours(s: State, w: nat, pc: PC) { s.proc.Up? && Pc(s, Writer(w)) == pc }

  // Only the entries of number n changed; nothing was forgotten.
  ghost predicate Only(s: State, t: State, n: nat) {
    && t.proc.Up? && s.proc.Up? && t.proc.seqNo == s.proc.seqNo && t.disk.Keys == s.disk.Keys + {n}
    && forall k: nat | k != n :: Live(t, k) == Live(s, k)
  }

  lemma Reserved(s0: State, mode: Mode, s: State, w: nat, f: nat, save: bool) returns (t: State)
    requires Path(s0, mode, s) && Ours(s, w, Idle) && f !in s.batches
    ensures var n := s.proc.seqNo + 1;
      Path(s0, mode, t) && t.disk == s.disk && t.begun == s.begun && Ours(t, w, OpeningTmp(n, f, save))
    ensures t.proc.seqNo == s.proc.seqNo + 1 && t.batches == s.batches[f := Batch(s.proc.seqNo + 1, [false])]
  {
    t := Go(s0, mode, s, Reserve(w, f, 1, save));
    assert seq(1, _ => false) == [false];
  }

  lemma TmpWritten(s0: State, mode: Mode, s: State, w: nat, n: nat, f: nat, save: bool, whole: bool)
      returns (t: State)
    requires Path(s0, mode, s) && Ours(s, w, if whole then FillingTmp(n, f, save) else OpeningTmp(n, f, save))
    ensures Path(s0, mode, t) && t.batches == s.batches && t.begun == s.begun && Only(s, t, n)
    ensures Ours(t, w, if whole then PlacingActive(n, f, save) else FillingTmp(n, f, save))
    ensures Live(t, n) == Live(s, n)[Tmp := File(f, whole)]
  {
    t := Go(s0, mode, s, Call(Writer(w), true));
  }

  lemma Placed(s0: State, mode: Mode, s: State, w: nat, n: nat, f: nat, save: bool) returns (t: State)
    requires Path(s0, mode, s) && Ours(s, w, PlacingActive(n, f, save)) && Tmp in Live(s, n)
    ensures Path(s0, mode, t) && t.batches == s.batches && t.begun == s.begun && Only(s, t, n)
    ensures Ours(t, w, SyncingActive(n, f, save)) && Live(t, n) == (Live(s, n) - {Tmp})[Active := Live(s, n)[Tmp]]
  {
    t := Go(s0, mode, s, Call(Writer(w), true));
  }

  lemma HandleReturned(s0: State, mode: Mode, s: State, w: nat, n: nat, f: nat, save: bool) returns (t: State)
    requires Path(s0, mode, s) && Ours(s, w, SyncingActive(n, f, save)) && n in s.disk
    ensures Path(s0, mode, t) && t.batches == s.batches && t.begun == s.begun + {f} && Only(s, t, n)
    ensures Ours(t, w, if save then Releasing(n, f) else Sending(n, f)) && Live(t, n) == Live(s, n)
  {
    t := Go(s0, mode, s, Call(Writer(w), true));
  }

  lemma OnlyTwice(s: State, t: State, u: State, n: nat)
    requires Only(s, t, n) && Only(t, u, n)
    ensures Only(s, u, n)
  {
  }

  // The temporary file is written and renamed.
  lemma FileWritten(s0: State, mode: Mode, s: State, w: nat, n: nat, f: nat, save: bool) returns (t: State)
    requires Path(s0, mode, s) && Ours(s, w, OpeningTmp(n, f, save))
    ensures Path(s0, mode, t) && t.batches == s.batches && t.begun == s.begun && Only(s, t, n)
    ensures Ours(t, w, SyncingActive(n, f, save)) && Live(t, n) == (Live(s, n) - {Tmp})[Active := File(f, true)]
      && n in t.disk
  {
    var t1 := TmpWritten(s0, mode, s, w, n, f, save, false);
    var t2 := TmpWritten(s0, mode, t1, w, n, f, save, true);
    OnlyTwice(s, t1, t2, n);
    t := Placed(s0, mode, t2, w, n, f, save);
    OnlyTwice(s, t2, t, n);
  }

  lemma BeginSucceeds(s0: State, mode: Mode, s: State, w: nat, f: nat, save: bool) returns (t: State)
    requires Path(s0, mode, s) && Ours(s, w, Idle) && f !in s.batches
    ensures var n := s.proc.seqNo + 1;
      && Path(s0, mode, t) && Ours(t, w, if save then Releasing(n, f) else Sending(n, f)) && t.proc.seqNo == n
      && t.batches == s.batches[f := Batch(n, [false])] && t.begun == s.begun + {f}
      && Live(t, n) == (Live(s, n) - {Tmp})[Active := File(f, true)] && t.disk.Keys == s.disk.Keys + {n}
      && forall k: nat | k != n :: Live(t, k) == Live(s, k)
  {
    var n := s.proc.seqNo + 1;
    var t1 := Reserved(s0, mode, s, w, f, save);
    var t2 := FileWritten(s0, mode, t1, w, n, f, save);
    t := HandleReturned(s0, mode, t2, w, n, f, save);
    OnlyTwice(t1, t2, t, n);
  }

  // The database stores the batch in hand and Done removes what it takes for its file.
  lemma StoredAndRemoved(s0: State, mode: Mode, s: State, w: nat, n: nat, f: nat) returns (t: State)
    requires Path(s0, mode, s) && Ours(s, w, Sending(n, f)) && f in s.batches
    ensures Path(s0, mode, t) && t.begun == s.begun && t.batches.Keys == s.batches.Keys
      && t.batches[f].n == s.batches[f].n
    ensures forall g | g in s.batches && g != f :: t.batches[g] == s.batches[g]
    ensures Only(s, t, n) && Live(t, n) == Live(s, n) - {Named(Live(s, n))} && Ours(t, w, SyncingMain)
  {
    var t1 := Acknowledged(s0, mode, s, w, n, f);
    t := Go(s0, mode, t1, Call(Writer(w), true));
  }

  lemma Acknowledged(s0: State, mode: Mode, s: State, w: nat, n: nat, f: nat) returns (t: State)
    requires Path(s0, mode, s) && Ours(s, w, Sending(n, f)) && f in s.batches
    ensures Path(s0, mode, t) && t.begun == s.begun && t.batches.Keys == s.batches.Keys && t.disk == s.disk
    ensures t.batches[f].n == s.batches[f].n && Ours(t, w, Discarding(n, f)) && t.proc.seqNo == s.proc.seqNo
    ensures forall g | g in s.batches && g != f :: t.batches[g] == s.batches[g]
  {
    t := Go(s0, mode, s, Answer(Writer(w), Stored, false));
  }

  // The process dies and New reads a directory that knows one number and counts nothing.
  lemma Restart(statFaults: bool, statOk: bool, s: State, n: nat) returns (t: State)
    requires Reachable(statFaults, s) && (statFaults || statOk) && s.disk.Keys == {n}
    requires Live(s, n) == map[] || (Live(s, n).Keys == {Ready} && !statOk)
    ensures Reachable(statFaults, t) && t == s.(proc := Up(0, map[]))
  {
    t := Reach(statFaults, s, Kill);
    t := Reach(statFaults, t, Boot);
    t := Reach(statFaults, t, BootEntry(n, true, true, statOk));
    assert t.proc.todo == {};
    t := Reach(statFaults, t, BootEnd(true));
  }

  // A number, and its token, given out a second time: the first batch was stored and removed,
  // so after a restart nothing on the disk remembers its number.
  lemma HandleReuse() returns (s: State)
    ensures Reachable(false, s) && {0, 1} <= s.begun
    ensures 0 in s.batches && 1 in s.batches && s.batches[0].n == s.batches[1].n
  {
    s := FirstStart(false);
    s := BeginSucceeds(FIRST, AllCounted, s, 0, 0, false);
    s := StoredAndRemoved(FIRST, AllCounted, s, 0, 1, 0);
    assert Live(s, 1) == map[];
    s := Restart(false, true, s, 1);
    s := BeginSucceeds(FIRST, AllCounted, s, 0, 1, false);
  }

  // ---- an uncounted number ----

  // What a batch that is begun under a number and stored leaves of it.
  function Passed(live: Entries, f: nat): Entries {
    var l := (live - {Tmp})[Active := File(f, true)];
    l - {Named(l)}
  }

  lemma SyncedAfter(s0: State, mode: Mode, s: State, w: nat) returns (t: State)
    requires Path(s0, mode, s) && Ours(s, w, SyncingMain)
    ensures Path(s0, mode, t) && Ours(t, w, Idle) && t.proc.seqNo == s.proc.seqNo && t.begun == s.begun
      && t.batches == s.batches
    ensures forall k: nat :: Live(t, k) == Live(s, k)
  {
    t := Go(s0, mode, s, Call(Writer(w), true));
  }

  // A batch is begun, stored and done with.
  lemma OneBatch(s0: State, mode: Mode, s: State, w: nat, f: nat) returns (t: State)
    requires Path(s0, mode, s) && Ours(s, w, Idle) && f !in s.batches
    ensures Path(s0, mode, t) && Ours(t, w, Idle) && t.proc.seqNo == s.proc.seqNo + 1 && s.begun <= t.begun
    ensures forall g | g in s.batches :: g in t.batches && t.batches[g] == s.batches[g]
    ensures Live(t, s.proc.seqNo + 1) == Passed(Live(s, s.proc.seqNo + 1), f)
    ensures forall k: nat | k != s.proc.seqNo + 1 :: Live(t, k) == Live(s, k)
  {
    var t1 := BeginSucceeds(s0, mode, s, w, f, false);
    var t2 := StoredAndRemoved(s0, mode, t1, w, s.proc.seqNo + 1, f);
    t := SyncedAfter(s0, mode, t2, w);
  }

  // What is listed was listed before, as far as these batches go.
  ghost predicate NothingNew(s: State, t: State) {
    forall k: nat, kind, f | f in s.batches && Lists(t.disk, k, kind, f) :: Lists(s.disk, k, kind, f)
  }

  // Numbers up to n are used up by batches that are stored.
  lemma {:induction false} Burn(s0: State, mode: Mode, s: State, w: nat, n: nat) returns (t: State)
    requires Path(s0, mode, s) && Ours(s, w, Idle) && s.proc.seqNo <= n
    ensures Path(s0, mode, t) && Ours(t, w, Idle) && t.proc.seqNo == n && s.begun <= t.begun && NothingNew(s, t)
    ensures forall k: nat | k > n :: Live(t, k) == Live(s, k)
    ensures forall f | f in s.batches :: f in t.batches && t.batches[f] == s.batches[f]
    decreases n - s.proc.seqNo
  {
    if s.proc.seqNo == n {
      t := s;
    } else {
      var f := Unused(s.batches.Keys);
      var t1 := OneBatch(s0, mode, s, w, f);
      ListsLess(s, t1, s.proc.seqNo + 1, f);
      t := Burn(s0, mode, t1, w, n);
    }
  }

  lemma ListsLess(s: State, t: State, n: nat, f: nat)
    requires f !in s.batches && Live(t, n) == Passed(Live(s, n), f)
    requires forall k: nat | k != n :: Live(t, k) == Live(s, k)
    ensures NothingNew(s, t)
  {
    forall k: nat, kind, g | g in s.batches && Lists(t.disk, k, kind, g) ensures Lists(s.disk, k, kind, g) {
      assert k != n ==> Live(t, k) == Live(s, k);
    }
  }

  lemma Unused(used: set<nat>) returns (f: nat)
    ensures f !in used
  {
    if used == {} {
      f := 0;
    } else {
      var top := Highest(used);
      f := top + 1;
    }
  }

  lemma {:induction false} Highest(used: set<nat>) returns (top: nat)
    requires used != {}
    ensures forall k | k in used :: k <= top
    decreases |used|
  {
    var x :| x in used;
    if used == {x} {
      top := x;
    } else {
      assert used - {x} != {};
      var rest := Highest(used - {x});
      top := if x < rest then rest else x;
      assert forall k | k in used :: k == x || k in used - {x};
    }
  }

  // Batch f, not acknowledged, is released under a number above the one the process goes on from.
  ghost predicate Uncounted(s: State, n: nat, f: nat) {
    && s.proc.Up? && n > s.proc.seqNo && f in s.begun && f in s.batches && !AllAcked(s, f)
    && Lists(s.disk, n, Ready, f) && forall n': nat, k' | Lists(s.disk, n', k', f) :: n' == n && k' == Ready
  }

  // Main result: from any such state the batch can be lost without any further fault.  Batches come and
  // are stored until the number is handed out again, and the batch that gets it, once stored, removes the
  // released file of the first.
  lemma UncountedLoses(s: State, n: nat, f: nat) returns (t: State)
    requires Uncounted(s, n, f)
    ensures Path(s, Smooth, t) && f in t.begun && !AllAcked(t, f) && !NothingLost(t)
  {
    Stay(s, Smooth);
    var ws := Unused(set a | a in s.proc.pcs && a.Writer? :: a.w);
    assert Writer(ws) !in s.proc.pcs by { assert Writer(ws).w == ws; }
    var t1 := Burn(s, Smooth, s, ws, n - 1);
    var g := Unused(t1.batches.Keys);
    t := OneBatch(s, Smooth, t1, ws, g);
    NotListed(s, t1, t, n, f, g);
  }

  lemma NotListed(s: State, t1: State, t: State, n: nat, f: nat, g: nat)
    requires Uncounted(s, n, f) && NothingNew(s, t1) && Live(t1, n) == Live(s, n) && f != g
    requires f in t.batches && t.batches[f] == s.batches[f] && f in t.begun
    requires Live(t, n) == Passed(Live(t1, n), g)
    requires forall k: nat | k != n :: Live(t, k) == Live(t1, k)
    ensures !AllAcked(t, f) && !NothingLost(t)
  {
    assert Named((Live(t1, n) - {Tmp})[Active := File(g, true)]) == Ready;
    forall k: nat, kind ensures !Lists(t.disk, k, kind, f) {
      if k == n {
        assert kind == Active ==> Live(t, n)[Active] == File(g, true);
        assert kind == Quarantined && Lists(t.disk, n, kind, f) ==> Lists(s.disk, n, kind, f);
      } else {
        assert Live(t, k) == Live(t1, k);
        assert Lists(t.disk, k, kind, f) ==> Lists(t1.disk, k, kind, f);
      }
    }
  }

  lemma ReleasedThenForgotten() returns (s: State)
    ensures Reachable(true, s) && Uncounted(s, 1, 0)
  {
    s := FirstStart(true);
    s := BeginSucceeds(FIRST, AnyFault, s, 0, 0, true);
    s := Reach(true, s, Call(Writer(0), true));
    assert Live(s, 1) == map[Ready := File(0, true)];
    s := Restart(true, false, s, 1);
    assert !s.batches[0].acked[0];
  }

  // New can leave a number uncounted: it ignores a failed os.Stat of a listed batch.
  lemma IgnoredStatLosesBatch() returns (s: State)
    ensures Reachable(true, s) && !NothingLost(s)
  {
    var u := ReleasedThenForgotten();
    s := UncountedLoses(u, 1, 0);
    JoinPaths(u, s);
  }

  lemma JoinPaths(s: State, t: State)
    requires Reachable(true, s) && Path(s, Smooth, t)
    ensures Reachable(true, t)
  {
    var e1, s1 :| PathOf(FIRST, AnyFault, e1, s1) && Last(s1) == s;
    var e2, s2 :| PathOf(s, Smooth, e2, s2) && Last(s2) == t;
    JoinRuns(e1, s1, e2, s2);
  }

  lemma JoinRuns(e1: seq<Event>, s1: seq<State>, e2: seq<Event>, s2: seq<State>)
    requires PathOf(FIRST, AnyFault, e1, s1) && |s2| == |e2| + 1 && s2[0] == Last(s1)
    requires forall i | 0 <= i < |e2| :: Enabled(s2[i], e2[i]) && s2[i + 1] == Do(s2[i], e2[i])
    ensures Path(FIRST, AnyFault, Last(s2))
  {
    var e, s := e1 + e2, s1 + s2[1..];
    forall i | 0 <= i < |e| ensures Enabled(s[i], e[i]) && s[i + 1] == Do(s[i], e[i]) {
      if i >= |e1| { assert s[i] == s2[i - |e1|] && s[i + 1] == s2[i - |e1| + 1] && e[i] == e2[i - |e1|]; }
    }
    assert PathOf(FIRST, AnyFault, e, s);
    assert Last(s) == Last(s2);
  }

  // No run loses a batch exactly if New leaves no number uncounted.
  lemma NeverLostIff(statFaults: bool)
    ensures !statFaults <==> forall s | Reachable(statFaults, s) :: NothingLost(s)
  {
    if statFaults {
      var s := IgnoredStatLosesBatch();
    } else {
      forall s | Reachable(statFaults, s) ensures NothingLost(s) {
        ReachableInv(s);
        InvMeansNothingLost(s);
      }
    }
  }
}
