/** The spool's counters over every run: `files` is the number of active and ready batches in the
    directory, `bytes` the size of these and the quarantined ones, up to what New skipped; and concurrent
    writers take the spool past its cap by less than one batch each.  */
module SpoolStats {
  import opened Prelude
  import opened SpoolDisk
  import opened Wal
  import opened WalProof
  import opened WalTheorems
  import opened Company

  // ---- sums over numbers ----

  ghost function Sum(weight: nat -> nat, ns: set<nat>): nat
    decreases |ns|
  {
    if ns == {} then 0 else var n :| n in ns; weight(n) + Sum(weight, ns - {n})
  }

  lemma {:induction false} SumTake(weight: nat -> nat, ns: set<nat>, n: nat)
    requires n in ns
    ensures Sum(weight, ns) == weight(n) + Sum(weight, ns - {n})
    decreases |ns|
  {
    var x :| x in ns && Sum(weight, ns) == weight(x) + Sum(weight, ns - {x});
    if x != n {
      SumTake(weight, ns - {x}, n);
      SumTake(weight, ns - {n}, x);
      assert ns - {x} - {n} == ns - {n} - {x};
    }
  }

  lemma {:induction false} SumSame(a: nat -> nat, b: nat -> nat, ns: set<nat>)
    requires forall k | k in ns :: a(k) == b(k)
    ensures Sum(a, ns) == Sum(b, ns)
    decreases |ns|
  {
    if ns != {} {
      var n :| n in ns;
      SumTake(a, ns, n);
      SumTake(b, ns, n);
      SumSame(a, b, ns - {n});
    }
  }

  // One weight changes; a number that was not there weighed nothing.
  lemma SumChange(a: nat -> nat, ns: set<nat>, b: nat -> nat, n: nat)
    requires (forall k: nat | k != n :: a(k) == b(k)) && (n !in ns ==> a(n) == 0)
    ensures Sum(b, ns + {n}) + a(n) == Sum(a, ns) + b(n)
  {
    var rest := ns - {n};
    SumTake(b, ns + {n}, n);
    assert ns + {n} - {n} == rest;
    SumSame(a, b, rest);
    if n in ns { SumTake(a, ns, n); } else { assert rest == ns; }
  }

  // Numbers that weigh nothing do not matter.
  lemma SumWider(w: nat -> nat, ns: set<nat>, n: nat)
    requires n !in ns ==> w(n) == 0
    ensures Sum(w, ns + {n}) == Sum(w, ns)
  {
    SumTake(w, ns + {n}, n);
    if n in ns { SumTake(w, ns, n); } else { assert ns + {n} - {n} == ns; }
    assert ns + {n} - {n} == ns - {n};
  }

  // ---- the counters ----

  // `orphans` are active files that a failed cleanup left behind uncounted; `start` is what New found.
  // By `missed` files and `missedBytes` bytes the counters are short, because New skips a file whose
  // os.Stat fails; a counter that is at zero when a file goes makes up for one.
  datatype Ledger = Ledger(files: int, bytes: int, orphans: set<nat>, start: int, missed: int, missedBytes: int) {
    function Files(): int { files + missed }
    function Bytes(): int { bytes + missedBytes }

    predicate Sane() { files >= 0 && bytes >= 0 && missed >= 0 && missedBytes >= 0 }

    // A file no longer waits; its bytes may stay.
    function FileGone(): Ledger {
      if files > 0 then this.(files := files - 1) else this.(files := Clamp(files - 1), missed := missed - 1)
    }

    function BytesGone(size: nat): Ledger {
      if bytes >= size then this.(bytes := bytes - size)
      else this.(bytes := Clamp(bytes - size), missedBytes := missedBytes - (size - bytes))
    }
  }

  type Sizes = nat -> nat

  function Clamp(x: int): int { if x < 0 then 0 else x }

  predicate ComesIn(pc: PC) { pc.SyncingActive? || pc.CleaningActive? }

  // A file is on its way in: placed, and not yet counted.
  predicate Pending(s: State, n: nat) {
    s.proc.Up? && exists a | a in s.proc.pcs :: ComesIn(s.proc.pcs[a]) && s.proc.pcs[a].n == n
  }

  predicate Waits(s: State, led: Ledger, n: nat) {
    (Active in Live(s, n) || Ready in Live(s, n)) && n !in led.orphans && !Pending(s, n)
  }

  // The file of number n.
  function FileId(live: Entries): nat {
    if Active in live then live[Active].id else if Ready in live then live[Ready].id
    else if Quarantined in live then live[Quarantined].id else 0
  }

  function FileWeight(s: State, led: Ledger): nat -> nat {
    (n: nat) => if Waits(s, led, n) then 1 else 0
  }

  function Weight(size: Sizes, live: Entries, waits: bool): nat {
    if waits || Quarantined in live then size(FileId(live)) else 0
  }

  function ByteWeight(size: Sizes, s: State, led: Ledger): nat -> nat {
    (n: nat) => Weight(size, Live(s, n), Waits(s, led, n))
  }

  // What a call that succeeds does to the counters.
  function PostCall(size: Sizes, led: Ledger, live: Entries, pc: PC, ok: bool): Ledger {
    match pc
    case SyncingActive(n, f, _) => if ok then led.(files := led.files + 1, bytes := led.bytes + size(f)) else led
    case CleaningActive(n, f) => if ok then led else led.(orphans := led.orphans + {n})
    case Discarding(n, f) =>
      if ok then led.FileGone().BytesGone(size(FileId(live))) else led
    case SettingAside(n, f) =>
      if ok && Quarantined !in live && Named(live) in live then led.FileGone() else led
    case _ => led
  }

  // The names of the number in hand.
  function InHandOf(s: State, pc: PC): Entries {
    if Busy(pc) then Live(s, pc.n) else map[]
  }

  // What New counts of a number that it has read, its active file by now released.
  function PostEntry(size: Sizes, led: Ledger, live: Entries, statOk: bool): Ledger {
    if (Ready in live && statOk) || Quarantined in live then
      led.(files := led.files + (if Ready in live then 1 else 0), bytes := led.bytes + size(FileId(live)))
    else if Ready in live then led.(missed := led.missed + 1, missedBytes := led.missedBytes + size(FileId(live)))
    else led
  }

  function Post(size: Sizes, led: Ledger, s: State, e: Event): Ledger
    requires Enabled(s, e)
  {
    match e
    case Call(a, ok) => PostCall(size, led, InHandOf(s, Pc(s, a)), Pc(s, a), ok)
    case Boot => Ledger(0, 0, {}, 0, 0, 0)
    case BootEntry(n, _, _, statOk) =>
      PostEntry(size, led, Live(Do(s, e), n), statOk)
    case BootEnd(_) => led.(start := led.bytes)
    case _ => led
  }

  // While New reads the directory, the numbers it has read are counted and hold no active file.
  function Seen(s: State, w: nat -> nat): nat -> nat
    requires s.proc.Booting?
  {
    (n: nat) => if n in s.proc.todo then 0 else w(n)
  }

  ghost predicate Books(size: Sizes, led: Ledger, s: State) {
    (!s.proc.Down? ==> led.Sane()) &&
    match s.proc
    case Down => true
    case Booting(todo, _, _) =>
      && led.orphans == {} && (forall n: nat | n !in todo :: Active !in Live(s, n))
      && led.Files() == Sum(Seen(s, FileWeight(s, led)), s.disk.Keys)
      && led.Bytes() == Sum(Seen(s, ByteWeight(size, s, led)), s.disk.Keys)
    case Up(seqNo, pcs) =>
      && led.Files() == Sum(FileWeight(s, led), s.disk.Keys)
      && led.Bytes() == Sum(ByteWeight(size, s, led), s.disk.Keys)
      && forall n | n in led.orphans :: Abandoned(s, n)
  }

  // Left behind by a failed cleanup: nobody works on it and replay does not see it.
  ghost predicate Abandoned(s: State, n: nat)
    requires s.proc.Up?
  {
    n <= s.proc.seqNo && Live(s, n).Keys <= {Active} && forall a | a in s.proc.pcs && Busy(s.proc.pcs[a]) ::
      s.proc.pcs[a].n != n
  }

  // ---- what a step changes ----

  // The directory knows no more numbers than before but n, and these weigh what they did.
  ghost predicate Elsewhere(s: State, led: Ledger, t: State, led': Ledger, n: nat) {
    && t.proc.Up? && s.proc.Up? && (t.disk.Keys == s.disk.Keys || t.disk.Keys == s.disk.Keys + {n})
    && forall k: nat | k != n :: Live(t, k) == Live(s, k) && (Waits(t, led', k) <==> Waits(s, led, k))
  }

  lemma Shifted(size: Sizes, s: State, led: Ledger, t: State, led': Ledger, n: nat)
    requires Elsewhere(s, led, t, led', n)
    ensures Sum(FileWeight(t, led'), t.disk.Keys) + FileWeight(s, led)(n)
            == Sum(FileWeight(s, led), s.disk.Keys) + FileWeight(t, led')(n)
    ensures Sum(ByteWeight(size, t, led'), t.disk.Keys) + ByteWeight(size, s, led)(n)
            == Sum(ByteWeight(size, s, led), s.disk.Keys) + ByteWeight(size, t, led')(n)
  {
    var a, b := FileWeight(s, led), FileWeight(t, led');
    var c, d := ByteWeight(size, s, led), ByteWeight(size, t, led');
    assert n !in s.disk ==> Live(s, n) == map[];
    assert n !in t.disk ==> Live(t, n) == map[];
    SumChange(a, s.disk.Keys, b, n);
    SumChange(c, s.disk.Keys, d, n);
    if t.disk.Keys == s.disk.Keys {
      SumWider(b, s.disk.Keys, n);
      SumWider(d, s.disk.Keys, n);
    }
  }

  // The counters moved as the weights of number n did.
  lemma BooksShift(size: Sizes, s: State, led: Ledger, t: State, led': Ledger, n: nat)
    requires Books(size, led, s) && Elsewhere(s, led, t, led', n)
    requires led'.Files() == led.Files() + FileWeight(t, led')(n) - FileWeight(s, led)(n) && led'.Sane()
    requires led'.Bytes() == led.Bytes() + ByteWeight(size, t, led')(n) - ByteWeight(size, s, led)(n)
    requires forall k | k in led'.orphans :: Abandoned(t, k)
    ensures Books(size, led', t)
  {
    Shifted(size, s, led, t, led', n);
  }

  // A waiting file is in the counters.
  lemma CountedIn(size: Sizes, s: State, led: Ledger, n: nat)
    requires Books(size, led, s) && s.proc.Up? && Waits(s, led, n)
    ensures led.Files() >= 1 && led.Bytes() >= size(FileId(Live(s, n)))
  {
    assert n in s.disk;
    SumTake(FileWeight(s, led), s.disk.Keys, n);
    SumTake(ByteWeight(size, s, led), s.disk.Keys, n);
  }

  // Others' numbers are pending or not as before.
  lemma PendingElse(s: State, t: State, a: Actor, k: nat)
    requires s.proc.Up? && t.proc.Up? && a in t.proc.pcs && t.proc.pcs == s.proc.pcs[a := t.proc.pcs[a]]
    requires Busy(Pc(s, a)) ==> Pc(s, a).n != k
    requires Busy(t.proc.pcs[a]) ==> t.proc.pcs[a].n != k
    ensures Pending(t, k) <==> Pending(s, k)
  {
    if Pending(s, k) {
      var b :| b in s.proc.pcs && ComesIn(s.proc.pcs[b]) && s.proc.pcs[b].n == k;
      assert b != a && b in t.proc.pcs && t.proc.pcs[b] == s.proc.pcs[b];
    }
    if Pending(t, k) {
      var b :| b in t.proc.pcs && ComesIn(t.proc.pcs[b]) && t.proc.pcs[b].n == k;
      assert b != a && b in s.proc.pcs && t.proc.pcs[b] == s.proc.pcs[b];
    }
  }

  // The number in an actor's hand is pending only by its own doing.
  lemma OwnPending(s: State, a: Actor, n: nat)
    requires s.proc.Up? && Apart(s.proc) && a in s.proc.pcs && Busy(s.proc.pcs[a]) && s.proc.pcs[a].n == n
    ensures Pending(s, n) <==> ComesIn(s.proc.pcs[a])
  {
  }

  // After the step the actor may have let go of the number; nobody else has it.
  lemma StillPending(s: State, t: State, a: Actor, n: nat)
    requires s.proc.Up? && Apart(s.proc) && a in s.proc.pcs && Busy(s.proc.pcs[a]) && s.proc.pcs[a].n == n
    requires t.proc.Up? && a in t.proc.pcs && t.proc.pcs == s.proc.pcs[a := t.proc.pcs[a]]
      && (Busy(t.proc.pcs[a]) ==> t.proc.pcs[a].n == n)
    ensures Pending(t, n) <==> ComesIn(t.proc.pcs[a])
  {
    if Pending(t, n) {
      var b :| b in t.proc.pcs && ComesIn(t.proc.pcs[b]) && t.proc.pcs[b].n == n;
      assert b == a;
    }
  }

  // Everything but the number in hand stays as it is.
  lemma CallElsewhere(s: State, a: Actor, ok: bool, t: State, led: Ledger, led': Ledger, n: nat)
    requires Inv(s) && Enabled(s, Call(a, ok)) && t == DoCall(s, a, ok) && (Busy(Pc(s, a)) ==> n == Pc(s, a).n)
    requires led'.orphans == led.orphans || led'.orphans == led.orphans + {n}
    ensures Elsewhere(s, led, t, led', n)
  {
    CallPlaces(s, a, ok, t);
    CallStays(s, a, ok, t);
    CallKeys(s, a, ok, t, n);
    forall k: nat | k != n ensures Live(t, k) == Live(s, k) && (Waits(t, led', k) <==> Waits(s, led, k)) {
      CallTouches(s, a, ok, k);
      PendingElse(s, t, a, k);
    }
  }

  lemma CallKeys(s: State, a: Actor, ok: bool, t: State, n: nat)
    requires s.proc.Up? && CanCall(Pc(s, a)) && t == DoCall(s, a, ok) && (Busy(Pc(s, a)) ==> n == Pc(s, a).n)
    ensures t.disk.Keys == s.disk.Keys || t.disk.Keys == s.disk.Keys + {n}
  {
    var pc := Pc(s, a);
    if Writes(pc) { WriteKeys(s, a, ok, t, n); }
    else if pc.Releasing? || pc.Discarding? || pc.SettingAside? { MoveKeys(s, a, ok, t, n); }
  }

  predicate Writes(pc: PC) {
    pc.OpeningTmp? || pc.FillingTmp? || pc.PlacingActive? || pc.SyncingActive? || pc.CleaningTmp? || pc.CleaningActive?
  }

  lemma WriteKeys(s: State, a: Actor, ok: bool, t: State, n: nat)
    requires s.proc.Up? && t == DoCall(s, a, ok) && Writes(Pc(s, a)) && n == Pc(s, a).n
    ensures t.disk.Keys == s.disk.Keys || t.disk.Keys == s.disk.Keys + {n}
  {
  }

  lemma MoveKeys(s: State, a: Actor, ok: bool, t: State, n: nat)
    requires s.proc.Up? && t == DoCall(s, a, ok)
      && (Pc(s, a).Releasing? || Pc(s, a).Discarding? || Pc(s, a).SettingAside?)
    requires n == Pc(s, a).n
    ensures t.disk.Keys == s.disk.Keys || t.disk.Keys == s.disk.Keys + {n}
  {
  }

  // A syncing call of an actor with nothing in hand changes no weight at all.
  lemma QuietBooks(size: Sizes, s: State, a: Actor, ok: bool, t: State, led: Ledger)
    requires Inv(s) && Books(size, led, s) && Enabled(s, Call(a, ok)) && t == DoCall(s, a, ok) && !Busy(Pc(s, a))
    ensures Books(size, led, t)
  {
    CallPlaces(s, a, ok, t);
    CallStays(s, a, ok, t);
    CallTouches(s, a, ok, 0);
    PendingElse(s, t, a, 0);
    CallElsewhere(s, a, ok, t, led, led, 0);
    StillAbandoned(s, a, ok, t, led, led);
    BooksShift(size, s, led, t, led, 0);
  }

  // What a call leaves of the number in hand.
  function Leaves(pc: PC, ok: bool, live: Entries): Entries {
    if !ok then live
    else match pc
      case OpeningTmp(_, f, _) => map[Tmp := File(f, false)]
      case FillingTmp(_, f, _) => map[Tmp := File(f, true)]
      case PlacingActive(_, f, _) => map[Active := File(f, true)]
      case CleaningTmp(_, _) => map[]
      case CleaningActive(_, _) => map[]
      case Releasing(_, f) => map[Ready := File(f, true)]
      case Discarding(_, _) => map[]
      case SettingAside(_, f) => map[Quarantined := File(f, true)]
      case _ => live
  }

  lemma CallLeaves(s: State, a: Actor, ok: bool, t: State)
    requires Inv(s) && Enabled(s, Call(a, ok)) && t == DoCall(s, a, ok) && Busy(Pc(s, a))
    ensures Live(t, Pc(s, a).n) == Leaves(Pc(s, a), ok, Live(s, Pc(s, a).n))
  {
    if Writes(Pc(s, a)) { WriteLeaves(s, a, ok, t); } else { MoveLeaves(s, a, ok, t); }
  }

  lemma WriteLeaves(s: State, a: Actor, ok: bool, t: State)
    requires s.proc.Up? && PcOk(s, a, Pc(s, a)) && t == DoCall(s, a, ok) && Writes(Pc(s, a))
    ensures Live(t, Pc(s, a).n) == Leaves(Pc(s, a), ok, Live(s, Pc(s, a).n))
  {
    SyncLive(s.disk, Pc(s, a).n);
  }

  lemma MoveLeaves(s: State, a: Actor, ok: bool, t: State)
    requires s.proc.Up? && PcOk(s, a, Pc(s, a)) && t == DoCall(s, a, ok)
    requires Pc(s, a).Releasing? || Pc(s, a).Discarding? || Pc(s, a).SettingAside?
    ensures Live(t, Pc(s, a).n) == Leaves(Pc(s, a), ok, Live(s, Pc(s, a).n))
  {
  }

  // Before the call: what is in hand waits, unless it is still on its way in.
  lemma InHandWaits(size: Sizes, s: State, a: Actor, led: Ledger)
    requires Inv(s) && Books(size, led, s) && s.proc.Up? && a in s.proc.pcs && Busy(Pc(s, a))
    ensures Waits(s, led, Pc(s, a).n) <==> !Writes(Pc(s, a))
    ensures Shaped(Pc(s, a), Live(s, Pc(s, a).n)) && Pc(s, a).n !in led.orphans
  {
    var pc := Pc(s, a);
    assert PcOk(s, a, pc);
    OwnPending(s, a, pc.n);
    forall k | k in led.orphans ensures k != pc.n { assert Abandoned(s, k); }
  }

  // The names an actor has in hand.
  predicate Shaped(pc: PC, live: Entries)
    requires Busy(pc)
  {
    match pc
    case OpeningTmp(_, _, _) => live.Keys <= {Tmp}
    case FillingTmp(_, f, _) => live == map[Tmp := File(f, false)]
    case PlacingActive(_, f, _) => live == map[Tmp := File(f, true)]
    case CleaningTmp(_, _) => live.Keys <= {Tmp}
    case _ => live == map[Active := File(pc.f, true)] || live == map[Ready := File(pc.f, true)]
  }

  // Where the actor stands then.
  lemma CallNext(s: State, a: Actor, ok: bool, t: State)
    requires Inv(s) && Enabled(s, Call(a, ok)) && t == DoCall(s, a, ok) && Busy(Pc(s, a)) && a in t.proc.pcs
    ensures ComesIn(t.proc.pcs[a]) == ComingIn(Pc(s, a), ok)
    ensures Pc(s, a).CleaningActive? ==> !Busy(t.proc.pcs[a])
  {
    assert PcOk(s, a, Pc(s, a));
  }

  predicate ComingIn(pc: PC, ok: bool) {
    (pc.PlacingActive? && ok) || (pc.SyncingActive? && !ok)
  }

  // The counters move as the number in hand does.
  lemma HandMoves(size: Sizes, pc: PC, ok: bool, live: Entries, live': Entries, led: Ledger, led': Ledger,
                  was: bool, waits: bool)
    requires Busy(pc) && CanCall(pc) && Shaped(pc, live) && live' == Leaves(pc, ok, live)
      && led' == PostCall(size, led, live, pc, ok)
    requires was == !Writes(pc) && pc.n !in led.orphans
    requires waits == ((Active in live' || Ready in live') && !ComingIn(pc, ok) && pc.n !in led'.orphans)
    requires led.Sane() && (was ==> led.Files() >= 1 && led.Bytes() >= size(FileId(live)))
    ensures led'.Files() == led.Files() + (if waits then 1 else 0) - (if was then 1 else 0) && led'.Sane()
    ensures led'.Bytes() == led.Bytes() + Weight(size, live', waits) - Weight(size, live, was)
  {
  }

  // Whatever was left behind before still is.
  lemma StillAbandoned(s: State, a: Actor, ok: bool, t: State, led: Ledger, led': Ledger)
    requires Inv(s) && Enabled(s, Call(a, ok)) && t == DoCall(s, a, ok) && t.proc.Up?
    requires forall k | k in led.orphans :: Abandoned(s, k)
    requires led'.orphans == led.orphans
      || (Busy(Pc(s, a)) && led'.orphans == led.orphans + {Pc(s, a).n} && Abandoned(t, Pc(s, a).n))
    ensures forall k | k in led'.orphans :: Abandoned(t, k)
  {
    CallPlaces(s, a, ok, t);
    CallStays(s, a, ok, t);
    forall k | k in led'.orphans && (Busy(Pc(s, a)) ==> k != Pc(s, a).n) ensures Abandoned(t, k) {
      assert Abandoned(s, k);
      CallTouches(s, a, ok, k);
    }
    forall k | k in led.orphans ensures Busy(Pc(s, a)) ==> k != Pc(s, a).n { assert Abandoned(s, k); }
  }

  lemma NewlyAbandoned(s: State, a: Actor, t: State)
    requires Inv(s) && Enabled(s, Call(a, false)) && t == DoCall(s, a, false) && t.proc.Up? && Pc(s, a).CleaningActive?
    ensures Abandoned(t, Pc(s, a).n)
  {
    assert PcOk(s, a, Pc(s, a));
    CallPlaces(s, a, false, t);
    CallStays(s, a, false, t);
    CallLeaves(s, a, false, t);
    CallNext(s, a, false, t);
  }

  // A call of an actor with a batch in hand.
  lemma BusyBooks(size: Sizes, s: State, a: Actor, ok: bool, t: State, led: Ledger, led': Ledger)
    requires Inv(s) && Books(size, led, s) && Enabled(s, Call(a, ok)) && t == DoCall(s, a, ok) && Busy(Pc(s, a))
    requires led' == PostCall(size, led, Live(s, Pc(s, a).n), Pc(s, a), ok)
    ensures Books(size, led', t)
  {
    var pc := Pc(s, a);
    var n := pc.n;
    CallPlaces(s, a, ok, t);
    CallStays(s, a, ok, t);
    InHandWaits(size, s, a, led);
    if !Writes(pc) { CountedIn(size, s, led, n); }
    CallElsewhere(s, a, ok, t, led, led', n);
    if pc.CleaningActive? && !ok { NewlyAbandoned(s, a, t); }
    StillAbandoned(s, a, ok, t, led, led');
    HandWeighs(size, s, a, ok, t, led, led');
    BooksShift(size, s, led, t, led', n);
  }

  lemma HandWeighs(size: Sizes, s: State, a: Actor, ok: bool, t: State, led: Ledger, led': Ledger)
    requires Inv(s) && Books(size, led, s) && Enabled(s, Call(a, ok)) && t == DoCall(s, a, ok) && Busy(Pc(s, a))
    requires led' == PostCall(size, led, Live(s, Pc(s, a).n), Pc(s, a), ok)
    requires !Writes(Pc(s, a)) ==> led.Files() >= 1 && led.Bytes() >= size(FileId(Live(s, Pc(s, a).n)))
    ensures led'.Files() == led.Files() + FileWeight(t, led')(Pc(s, a).n) - FileWeight(s, led)(Pc(s, a).n)
      && led'.Sane()
    ensures led'.Bytes() == led.Bytes() + ByteWeight(size, t, led')(Pc(s, a).n) - ByteWeight(size, s, led)(Pc(s, a).n)
  {
    var pc := Pc(s, a);
    CallPlaces(s, a, ok, t);
    CallStays(s, a, ok, t);
    InHandWaits(size, s, a, led);
    CallLeaves(s, a, ok, t);
    StillPending(s, t, a, pc.n);
    CallNext(s, a, ok, t);
    HandMoves(size, pc, ok, Live(s, pc.n), Live(t, pc.n), led, led', Waits(s, led, pc.n), Waits(t, led', pc.n));
  }

  lemma CallBooks(size: Sizes, s: State, a: Actor, ok: bool, t: State, led: Ledger, led': Ledger)
    requires Inv(s) && Books(size, led, s) && Enabled(s, Call(a, ok)) && t == DoCall(s, a, ok)
    requires led' == PostCall(size, led, InHandOf(s, Pc(s, a)), Pc(s, a), ok)
    ensures Books(size, led', t)
  {
    if Busy(Pc(s, a)) { BusyBooks(size, s, a, ok, t, led, led'); } else { QuietBooks(size, s, a, ok, t, led); }
  }

  // A step that touches no file: an answer, a pick, a reserved number.
  lemma PlaceBooks(size: Sizes, s: State, a: Actor, t: State, led: Ledger)
    requires Books(size, led, s) && s.proc.Up? && t.proc.Up? && t.disk == s.disk && t.proc.seqNo >= s.proc.seqNo
    requires a in t.proc.pcs && t.proc.pcs == s.proc.pcs[a := t.proc.pcs[a]]
    requires !ComesIn(Pc(s, a)) && !ComesIn(t.proc.pcs[a])
    requires Busy(t.proc.pcs[a]) ==> t.proc.pcs[a].n !in led.orphans
    ensures Books(size, led, t)
  {
    forall k: nat ensures Waits(t, led, k) <==> Waits(s, led, k) { SamePending(s, t, a, k); }
    forall k | k in led.orphans ensures Abandoned(t, k) { assert Abandoned(s, k); }
    BooksShift(size, s, led, t, led, 0);
  }

  lemma SamePending(s: State, t: State, a: Actor, k: nat)
    requires s.proc.Up? && t.proc.Up? && a in t.proc.pcs && t.proc.pcs == s.proc.pcs[a := t.proc.pcs[a]]
    requires !ComesIn(Pc(s, a)) && !ComesIn(t.proc.pcs[a])
    ensures Pending(t, k) <==> Pending(s, k)
  {
    if Pending(s, k) {
      var b :| b in s.proc.pcs && ComesIn(s.proc.pcs[b]) && s.proc.pcs[b].n == k;
      assert b != a && b in t.proc.pcs && t.proc.pcs[b] == s.proc.pcs[b];
    }
    if Pending(t, k) {
      var b :| b in t.proc.pcs && ComesIn(t.proc.pcs[b]) && t.proc.pcs[b].n == k;
      assert b != a && b in s.proc.pcs && t.proc.pcs[b] == s.proc.pcs[b];
    }
  }

  // An actor with a batch in hand has not left it behind.
  lemma HeldNotAbandoned(size: Sizes, s: State, a: Actor, led: Ledger)
    requires Books(size, led, s) && s.proc.Up? && a in s.proc.pcs && Busy(s.proc.pcs[a])
    ensures s.proc.pcs[a].n !in led.orphans
  {
    forall k | k in led.orphans ensures k != s.proc.pcs[a].n { assert Abandoned(s, k); }
  }

  // What an answer of the database changes.
  ghost predicate AnswerTo(s: State, a: Actor, t: State) {
    && s.proc.Up? && (Pc(s, a).Sending? || Pc(s, a).Salvaging?)
    && t.proc.Up? && t.disk == s.disk && t.proc.seqNo == s.proc.seqNo
    && a in t.proc.pcs && t.proc.pcs == s.proc.pcs[a := t.proc.pcs[a]]
    && !ComesIn(t.proc.pcs[a]) && (Busy(t.proc.pcs[a]) ==> t.proc.pcs[a].n == Pc(s, a).n && !Writes(t.proc.pcs[a]))
  }

  lemma Answered(s: State, a: Actor, e: Event, t: State)
    requires Enabled(s, e) && t == Do(s, e) && (e.Answer? || e.SalvageRow? || e.SalvageEnd?) && e.a == a
    ensures AnswerTo(s, a, t)
  {
  }

  lemma AnswerBooks(size: Sizes, s: State, a: Actor, t: State, led: Ledger)
    requires Books(size, led, s) && AnswerTo(s, a, t)
    ensures Books(size, led, t)
  {
    HeldNotAbandoned(size, s, a, led);
    PlaceBooks(size, s, a, t, led);
  }

  lemma PickBooks(size: Sizes, s: State, n: nat, readable: bool, t: State, led: Ledger)
    requires Books(size, led, s) && Enabled(s, Pick(n, readable)) && t == Do(s, Pick(n, readable))
    ensures Books(size, led, t)
  {
    forall k | k in led.orphans ensures k != n { assert Abandoned(s, k); }
    PlaceBooks(size, s, Replay, t, led);
  }

  lemma ReserveBooks(size: Sizes, s: State, e: Event, t: State, led: Ledger)
    requires Books(size, led, s) && e.Reserve? && Enabled(s, e) && t == Do(s, e)
    ensures Books(size, led, t)
  {
    forall k | k in led.orphans ensures k <= s.proc.seqNo { assert Abandoned(s, k); }
    PlaceBooks(size, s, Writer(e.w), t, led);
  }

  // ---- New ----

  lemma {:induction false} SumZero(w: nat -> nat, ns: set<nat>)
    requires forall k | k in ns :: w(k) == 0
    ensures Sum(w, ns) == 0
    decreases |ns|
  {
    if ns != {} {
      var n :| n in ns;
      SumTake(w, ns, n);
      SumZero(w, ns - {n});
    }
  }

  lemma BootBooks(size: Sizes, s: State, t: State, led: Ledger)
    requires Enabled(s, Boot) && t == Do(s, Boot) && led == Ledger(0, 0, {}, 0, 0, 0)
    ensures Books(size, led, t)
  {
    NothingYet(size, led, t);
  }

  lemma NothingYet(size: Sizes, led: Ledger, t: State)
    requires t.proc.Booting? && t.proc.todo == t.disk.Keys
    requires led.Sane() && led.Files() == led.Bytes() == 0 && led.orphans == {}
    ensures Books(size, led, t)
  {
    NoneSeen(t, FileWeight(t, led));
    NoneSeen(t, ByteWeight(size, t, led));
  }

  lemma NoneSeen(t: State, w: nat -> nat)
    requires t.proc.Booting? && t.proc.todo == t.disk.Keys
    ensures Sum(Seen(t, w), t.disk.Keys) == 0
  {
    SumZero(Seen(t, w), t.disk.Keys);
  }

  // What reading one number leaves, unless New gives up.
  lemma EntryLeaves(s: State, e: Event, t: State)
    requires SlotsOk(s) && e.BootEntry? && Enabled(s, e) && t == Do(s, e) && t.proc.Booting?
    ensures t.proc.todo == s.proc.todo - {e.n} && (t.disk.Keys == s.disk.Keys || t.disk.Keys == s.disk.Keys + {e.n})
    ensures Active !in Live(t, e.n) && !(Ready in Live(t, e.n) && Quarantined in Live(t, e.n))
    ensures ReadOne(s, t, e.n)
  {
    assert SlotOk(s, e.n);
    assert ViewOk(s, e.n, Live(s, e.n));
  }

  // The numbers read so far gain one.
  ghost predicate ReadOne(s: State, t: State, n: nat) {
    && s.proc.Booting? && t.proc.Booting? && n in s.proc.todo && t.proc.todo == s.proc.todo - {n}
    && (t.disk.Keys == s.disk.Keys || t.disk.Keys == s.disk.Keys + {n})
    && forall k: nat | k != n :: Live(t, k) == Live(s, k)
  }

  lemma ReadSums(size: Sizes, s: State, t: State, n: nat, led: Ledger, led': Ledger)
    requires ReadOne(s, t, n) && led'.orphans == led.orphans
    ensures Sum(Seen(t, FileWeight(t, led')), t.disk.Keys)
            == Sum(Seen(s, FileWeight(s, led)), s.disk.Keys) + FileWeight(t, led')(n)
    ensures Sum(Seen(t, ByteWeight(size, t, led')), t.disk.Keys)
            == Sum(Seen(s, ByteWeight(size, s, led)), s.disk.Keys) + ByteWeight(size, t, led')(n)
  {
    var a, b := FileWeight(s, led), FileWeight(t, led');
    var c, d := ByteWeight(size, s, led), ByteWeight(size, t, led');
    assert n !in t.disk ==> Live(t, n) == map[];
    forall k: nat | k != n ensures a(k) == b(k) && c(k) == d(k) { assert Live(t, k) == Live(s, k); }
    SeenSum(s, t, n, a, b);
    SeenSum(s, t, n, c, d);
  }

  lemma SeenSum(s: State, t: State, n: nat, a: nat -> nat, b: nat -> nat)
    requires ReadOne(s, t, n) && (forall k: nat | k != n :: a(k) == b(k)) && (n !in t.disk ==> b(n) == 0)
    ensures Sum(Seen(t, b), t.disk.Keys) == Sum(Seen(s, a), s.disk.Keys) + b(n)
  {
    SumChange(Seen(s, a), s.disk.Keys, Seen(t, b), n);
    if t.disk.Keys == s.disk.Keys { SumWider(Seen(t, b), s.disk.Keys, n); }
  }

  lemma EntryBooks(size: Sizes, s: State, e: Event, t: State, led: Ledger, led': Ledger)
    requires Inv(s) && Books(size, led, s) && e.BootEntry? && Enabled(s, e) && t == Do(s, e)
    requires led' == Post(size, led, s, e)
    ensures Books(size, led', t)
  {
    if t.proc.Booting? {
      EntryLeaves(s, e, t);
      ReadSums(size, s, t, e.n, led, led');
      EntryCounts(size, led, led', Live(t, e.n), t, e.n, e.statOk);
      ReadBooks(size, s, t, e.n, led, led');
    }
  }

  lemma EntryCounts(size: Sizes, led: Ledger, led': Ledger, live: Entries, t: State, n: nat,
                    statOk: bool)
    requires t.proc.Booting? && live == Live(t, n) && led.Sane() && Active !in live
      && !(Ready in live && Quarantined in live)
    requires led.orphans == {} && led' == PostEntry(size, led, live, statOk)
    ensures led'.orphans == {} && led'.Sane() && led'.Files() == led.Files() + FileWeight(t, led')(n)
      && led'.Bytes() == led.Bytes() + ByteWeight(size, t, led')(n)
  {
  }

  lemma ReadBooks(size: Sizes, s: State, t: State, n: nat, led: Ledger, led': Ledger)
    requires Books(size, led, s) && ReadOne(s, t, n) && Active !in Live(t, n) && led'.orphans == {} && led'.Sane()
    requires led'.Files() == led.Files() + FileWeight(t, led')(n)
      && led'.Bytes() == led.Bytes() + ByteWeight(size, t, led')(n)
    ensures Books(size, led', t)
  {
    ReadSums(size, s, t, n, led, led');
  }

  lemma EndBooks(size: Sizes, s: State, e: Event, t: State, led: Ledger, led': Ledger)
    requires Books(size, led, s) && e.BootEnd? && Enabled(s, e) && t == Do(s, e)
    requires led' == led.(start := led.bytes)
    ensures Books(size, led', t)
  {
    if t.proc.Up? {
      EndLeaves(s, e, t);
      UpBooks(size, s, t, led, led');
    }
  }

  lemma EndLeaves(s: State, e: Event, t: State)
    requires e.BootEnd? && Enabled(s, e) && t == Do(s, e) && t.proc.Up?
    ensures t.disk.Keys == s.disk.Keys && t.proc.pcs == map[] && forall k: nat :: Live(t, k) == Live(s, k)
  {
    forall k: nat ensures Live(t, k) == Live(s, k) { SyncLive(s.disk, k); }
  }

  lemma UpBooks(size: Sizes, s: State, t: State, led: Ledger, led': Ledger)
    requires Books(size, led, s) && s.proc.Booting? && s.proc.todo == {} && t.proc.Up? && t.proc.pcs == map[]
    requires t.disk.Keys == s.disk.Keys && forall k: nat :: Live(t, k) == Live(s, k)
    requires led' == led.(start := led.bytes)
    ensures Books(size, led', t)
  {
    SumSame(Seen(s, FileWeight(s, led)), FileWeight(t, led'), s.disk.Keys);
    SumSame(Seen(s, ByteWeight(size, s, led)), ByteWeight(size, t, led'), s.disk.Keys);
  }

  // ---- over every run ----

  lemma StepBooks(size: Sizes, s: State, e: Event, t: State, led: Ledger, led': Ledger)
    requires Inv(s) && Books(size, led, s) && Enabled(s, e) && t == Do(s, e)
      && led' == Post(size, led, s, e)
    ensures Books(size, led', t)
  {
    match e
    case Reserve(_, _, _, _) => ReserveBooks(size, s, e, t, led);
    case Call(a, ok) => CallBooks(size, s, a, ok, t, led, led');
    case Answer(a, _, _) => Answered(s, a, e, t); AnswerBooks(size, s, a, t, led);
    case SalvageRow(a, _) => Answered(s, a, e, t); AnswerBooks(size, s, a, t, led);
    case SalvageEnd(a, _) => Answered(s, a, e, t); AnswerBooks(size, s, a, t, led);
    case Pick(n, readable) => PickBooks(size, s, n, readable, t, led);
    case Kill =>
    case PowerLoss(_) =>
    case Boot => BootBooks(size, s, t, led');
    case BootEntry(_, _, _, _) => EntryBooks(size, s, e, t, led, led');
    case BootEnd(_) => EndBooks(size, s, e, t, led, led');
  }

  // A run, and the counters beside it.
  ghost predicate KeptBy(size: Sizes, events: seq<Event>, states: seq<State>, leds: seq<Ledger>) {
    && IsRun(events, states) && |leds| == |states|
    && forall i | 0 <= i < |events| ::
       Enabled(states[i], events[i]) && leds[i + 1] == Post(size, leds[i], states[i], events[i])
  }

  lemma {:induction false} RunBooks(size: Sizes, events: seq<Event>, states: seq<State>, leds: seq<Ledger>, i: nat)
    requires KeptBy(size, events, states, leds) && i < |states| && RunOf(false, events, states)
    ensures Books(size, leds[i], states[i])
  {
    if i > 0 {
      RunBooks(size, events, states, leds, i - 1);
      RunKeeps(events, states, i - 1);
      StepBooks(size, states[i - 1], events[i - 1], states[i], leds[i - 1], leds[i]);
    }
  }

  // The numbers that the directory lists as active or ready.
  function Listed(s: State): set<nat> {
    set n | n in s.disk && (Active in Live(s, n) || Ready in Live(s, n))
  }

  // The numbers listed under any lasting name.
  function Lasting(s: State): set<nat> {
    set n | n in s.disk && (Active in Live(s, n) || Ready in Live(s, n) || Quarantined in Live(s, n))
  }

  function SizeAt(size: Sizes, s: State): nat -> nat { (n: nat) => size(FileId(Live(s, n))) }

  lemma {:induction false} SumOver(w: nat -> nat, v: nat -> nat, ns: set<nat>, ms: set<nat>)
    requires ms <= ns && forall k | k in ns :: w(k) == if k in ms then v(k) else 0
    ensures Sum(w, ns) == Sum(v, ms)
    decreases |ns|
  {
    if ns != {} {
      var n :| n in ns;
      SumTake(w, ns, n);
      if n in ms { SumTake(v, ms, n); } else { assert ms - {n} == ms; }
      SumOver(w, v, ns - {n}, ms - {n});
    }
  }

  lemma {:induction false} SumOnes(ns: set<nat>)
    ensures Sum((n: nat) => 1, ns) == |ns|
    decreases |ns|
  {
    if ns != {} {
      var n :| n in ns;
      SumTake((n: nat) => 1, ns, n);
      SumOnes(ns - {n});
    }
  }

  // The files that a writer is just placing, and those that a failed cleanup left behind.
  function Out(s: State, led: Ledger): set<nat>
    requires s.proc.Up?
  {
    led.orphans + set a | a in s.proc.pcs && ComesIn(s.proc.pcs[a]) :: s.proc.pcs[a].n
  }

  lemma OutIs(s: State, led: Ledger, n: nat)
    requires s.proc.Up?
    ensures n in Out(s, led) <==> n in led.orphans || Pending(s, n)
  {
  }

  // Main result: at every instant of every run in which New leaves no number uncounted, `files` is the
  // number of active and ready files and `bytes` the size of these and the quarantined ones, short of
  // those that New skipped, and apart from the files being placed and those whose removal failed after a
  // failed directory sync.
  lemma CountersMatch(size: Sizes, events: seq<Event>, states: seq<State>, leds: seq<Ledger>, i: nat)
    requires KeptBy(size, events, states, leds) && i < |states| && states[i].proc.Up? && RunOf(false, events, states)
    ensures leds[i].Sane() && leds[i].files + leds[i].missed == |Listed(states[i]) - Out(states[i], leds[i])|
    ensures leds[i].bytes + leds[i].missedBytes
            == Sum(SizeAt(size, states[i]), Lasting(states[i]) - Out(states[i], leds[i]))
  {
    RunBooks(size, events, states, leds, i);
    RunKeeps(events, states, i);
    BooksCount(size, states[i], leds[i], Out(states[i], leds[i]));
  }

  lemma BooksCount(size: Sizes, s: State, led: Ledger, out: set<nat>)
    requires Inv(s) && Books(size, led, s) && s.proc.Up? && out == Out(s, led)
    ensures led.Files() == |Listed(s) - out| && led.Bytes() == Sum(SizeAt(size, s), Lasting(s) - out)
  {
    forall n: nat ensures n in out <==> n in led.orphans || Pending(s, n) { OutIs(s, led, n); }
    FilesCount(s, led, out);
    OutHasNoQuarantine(size, s, led, out);
    BytesCount(size, s, led, out);
  }

  lemma FilesCount(s: State, led: Ledger, out: set<nat>)
    requires forall n: nat :: n in out <==> n in led.orphans || Pending(s, n)
    ensures Sum(FileWeight(s, led), s.disk.Keys) == |Listed(s) - out|
  {
    var one := (n: nat) => 1;
    SumOver(FileWeight(s, led), one, s.disk.Keys, Listed(s) - out);
    SumOnes(Listed(s) - out);
  }

  lemma BytesCount(size: Sizes, s: State, led: Ledger, out: set<nat>)
    requires forall n: nat :: n in out <==> n in led.orphans || Pending(s, n)
    requires forall n | n in out :: Quarantined !in Live(s, n)
    ensures Sum(ByteWeight(size, s, led), s.disk.Keys) == Sum(SizeAt(size, s), Lasting(s) - out)
  {
    SumOver(ByteWeight(size, s, led), SizeAt(size, s), s.disk.Keys, Lasting(s) - out);
  }

  // Nothing is missed unless New skipped it, and what is missed only gets less until the next start.
  lemma MissedLess(size: Sizes, s: State, e: Event, t: State, led: Ledger, led': Ledger)
    requires Inv(s) && Books(size, led, s) && Enabled(s, e) && t == Do(s, e) && led' == Post(size, led, s, e)
    requires StatsHold(e)
    ensures led'.missed <= led.missed || e.Boot?
    ensures e.Boot? ==> led'.missed == led'.missedBytes == 0
    ensures led'.missedBytes <= led.missedBytes || e.Boot?
  {
  }

  // So the counters are exact in every run in which every os.Stat of a listed file succeeds.
  lemma {:induction false} NothingMissed(size: Sizes, events: seq<Event>, states: seq<State>, leds: seq<Ledger>, i: nat)
    requires KeptBy(size, events, states, leds) && i < |states| && forall j | 0 <= j < |events| :: StatsHold(events[j])
    ensures RunOf(false, events, states) && (states[i].proc.Down? || leds[i].missed == leds[i].missedBytes == 0)
  {
    StatsSuffice(events, states);
    if i > 0 {
      NothingMissed(size, events, states, leds, i - 1);
      RunBooks(size, events, states, leds, i - 1);
      RunKeeps(events, states, i - 1);
      StillNone(size, states[i - 1], events[i - 1], states[i], leds[i - 1], leds[i]);
    }
  }

  lemma StillNone(size: Sizes, s: State, e: Event, t: State, led: Ledger, led': Ledger)
    requires Inv(s) && Books(size, led, s) && Enabled(s, e) && t == Do(s, e) && led' == Post(size, led, s, e)
    requires StatsHold(e) && (s.proc.Down? || led.missed == led.missedBytes == 0)
    ensures t.proc.Down? || led'.missed == led'.missedBytes == 0
  {
    StepBooks(size, s, e, t, led, led');
    MissedLess(size, s, e, t, led, led');
  }

  // The files that count and are not released yet.
  function WaitingActive(s: State, led: Ledger): set<nat>
    requires s.proc.Up?
  {
    set n | n in s.disk && Active in Live(s, n) && n !in Out(s, led)
  }

  // Main result: what the counter says about the released batches.  When it is zero there are as many
  // released batches, besides the active files that wait, as New missed; so none, if it missed none.
  lemma ZeroFiles(size: Sizes, s: State, led: Ledger)
    requires Inv(s) && Books(size, led, s) && s.proc.Up?
    ensures |ReadyNumbers(s)| + |WaitingActive(s, led)| == led.files + led.missed && led.Sane()
    ensures led.files == 0 ==> (ReadyNumbers(s) == {} <==> |WaitingActive(s, led)| == led.missed)
  {
    BooksCount(size, s, led, Out(s, led));
    ListedSplit(size, s, led, ReadyNumbers(s), WaitingActive(s, led), Out(s, led));
  }

  lemma ListedSplit(size: Sizes, s: State, led: Ledger, ready: set<nat>, active: set<nat>, out: set<nat>)
    requires Inv(s) && Books(size, led, s) && s.proc.Up? && out == Out(s, led)
    requires ready == ReadyNumbers(s) && active == WaitingActive(s, led)
    ensures |Listed(s) - out| == |ready| + |active|
  {
    forall n | n in ready ensures n !in out && n !in active {
      assert SlotOk(s, n) && ViewOk(s, n, Live(s, n));
      NotOut(size, s, led, n);
    }
    assert Listed(s) - out == ready + active && ready !! active;
  }

  // A released batch is neither being placed nor left behind.
  lemma NotOut(size: Sizes, s: State, led: Ledger, n: nat)
    requires Inv(s) && Books(size, led, s) && s.proc.Up? && Ready in Live(s, n)
    ensures n !in Out(s, led)
  {
    forall k | k in led.orphans ensures k != n { assert Abandoned(s, k); }
    forall a | a in s.proc.pcs && ComesIn(s.proc.pcs[a])
      ensures s.proc.pcs[a].n != n
    {
      assert PcOk(s, a, s.proc.pcs[a]);
    }
  }

  // ---- for those who only pass the books on ----

  // The books, folded.
  ghost predicate Booked(size: Sizes, led: Ledger, s: State) {
    forall x: int {:trigger Folded(x)} :: Folded(x) ==> Books(size, led, s)
  }

  lemma Unfold(size: Sizes, led: Ledger, s: State)
    requires Booked(size, led, s)
    ensures Books(size, led, s)
  {
    assert Folded(0);
  }

  lemma StepBooked(size: Sizes, s: State, e: Event, led: Ledger)
    requires Inv(s) && Booked(size, led, s) && Enabled(s, e)
    ensures Booked(size, Post(size, led, s, e), Do(s, e))
  {
    Unfold(size, led, s);
    StepBooks(size, s, e, Do(s, e), led, Post(size, led, s, e));
  }

  lemma OutHasNoQuarantine(size: Sizes, s: State, led: Ledger, out: set<nat>)
    requires Inv(s) && Books(size, led, s) && s.proc.Up? && out == Out(s, led)
    ensures forall n | n in out :: Quarantined !in Live(s, n)
  {
    forall k | k in led.orphans ensures Quarantined !in Live(s, k) { assert Abandoned(s, k); }
    forall a | a in s.proc.pcs && ComesIn(s.proc.pcs[a]) ensures Quarantined !in Live(s, s.proc.pcs[a].n) {
      assert PcOk(s, a, s.proc.pcs[a]);
    }
  }

  // ---- the cap ----

  // Writers between their look at the cap and their commit.
  function Inflight(s: State): set<Actor>
    requires s.proc.Up?
  {
    set a | a in s.proc.pcs && Writes(s.proc.pcs[a])
  }

  // `writers` shards, each batch at most `maxBatch` bytes in its file.
  datatype Limits = Limits(maxBytes: nat, writers: nat, maxBatch: nat) {
    // The cap, or what New found if that was above it.
    function Base(start: int): int { if start < maxBytes then maxBytes else start + 1 }

    function Room(busy: int): int { (writers - busy) * maxBatch }
  }

  // Begin gives out a number only below the cap.
  ghost predicate Admits(lim: Limits, led: Ledger, e: Event) {
    e.Reserve? ==> e.w < lim.writers && led.bytes < lim.maxBytes
  }

  ghost predicate Capped(lim: Limits, led: Ledger, s: State) {
    && led.bytes >= 0
    && (s.proc.Up? ==> Inflight(s) <= Shards(lim.writers) && led.bytes < lim.Base(led.start) + lim.Room(|Inflight(s)|))
  }

  function Shards(n: nat): set<Actor> { set w | 0 <= w < n :: Writer(w) }

  lemma {:induction false} ShardCount(n: nat)
    ensures |Shards(n)| == n
  {
    if n > 0 {
      ShardCount(n - 1);
      assert Shards(n) == Shards(n - 1) + {Writer(n - 1)};
    }
  }

  // Fewer writers under way leave more room.
  lemma MoreRoom(lim: Limits, few: nat, many: nat)
    requires few <= many
    ensures lim.Room(few) >= lim.Room(many)
    ensures few < many ==> lim.Room(few) >= lim.Room(many) + lim.maxBatch
  {
    Spread(lim.writers - many, many - few, lim.maxBatch);
    assert lim.Room(few) == (lim.writers - many + (many - few)) * lim.maxBatch;
    if few < many { Spread(1, many - few - 1, lim.maxBatch); }
  }

  lemma Spread(a: int, b: nat, m: nat)
    ensures (a + b) * m == a * m + b * m && b * m >= 0
  {
  }

  lemma CapShrinks(lim: Limits, led: Ledger, s: State, led': Ledger, t: State)
    requires Capped(lim, led, s) && s.proc.Up? && t.proc.Up? && Inflight(t) <= Inflight(s)
    requires led'.start == led.start && 0 <= led'.bytes && led'.bytes <= led.bytes
    ensures Capped(lim, led', t)
  {
    SubsetSmaller(Inflight(t), Inflight(s));
    MoreRoom(lim, |Inflight(t)|, |Inflight(s)|);
  }

  lemma CapCommits(lim: Limits, led: Ledger, s: State, a: Actor, led': Ledger, t: State)
    requires Capped(lim, led, s) && s.proc.Up? && t.proc.Up? && a in Inflight(s) && Inflight(t) <= Inflight(s) - {a}
    requires led'.start == led.start && led.bytes <= led'.bytes && led'.bytes <= led.bytes + lim.maxBatch
    ensures Capped(lim, led', t)
  {
    SubsetSmaller(Inflight(t), Inflight(s) - {a});
    MoreRoom(lim, |Inflight(t)|, |Inflight(s)|);
  }

  lemma CapReserves(lim: Limits, led: Ledger, s: State, e: Event, t: State)
    requires Capped(lim, led, s) && e.Reserve? && Enabled(s, e) && t == Do(s, e) && Admits(lim, led, e)
    ensures Capped(lim, led, t)
  {
    assert Inflight(t) <= Inflight(s) + {Writer(e.w)} <= Shards(lim.writers);
    ShardCount(lim.writers);
    SubsetSmaller(Inflight(t), Shards(lim.writers));
    MoreRoom(lim, |Inflight(t)|, lim.writers);
  }

  // After a call, a writer is still under way only if it was, and not once it has committed.
  lemma CallInflight(s: State, a: Actor, ok: bool, t: State)
    requires s.proc.Up? && CanCall(Pc(s, a)) && t == DoCall(s, a, ok)
    ensures t.proc.Up? && Inflight(t) <= Inflight(s)
      && (Pc(s, a).SyncingActive? && ok ==> a in Inflight(s) && a !in Inflight(t))
  {
    CallPlaces(s, a, ok, t);
    assert Writes(t.proc.pcs[a]) ==> Writes(Pc(s, a)) by { CallWrites(s, a, ok, t); }
    assert Pc(s, a).SyncingActive? && ok ==> !Writes(t.proc.pcs[a]);
  }

  lemma CallWrites(s: State, a: Actor, ok: bool, t: State)
    requires s.proc.Up? && CanCall(Pc(s, a)) && t == DoCall(s, a, ok) && t.proc.Up? && a in t.proc.pcs
    ensures Writes(t.proc.pcs[a]) ==> Writes(Pc(s, a))
  {
  }

  lemma CapCalls(size: Sizes, lim: Limits, led: Ledger, s: State, a: Actor, ok: bool, led': Ledger, t: State)
    requires Capped(lim, led, s) && s.proc.Up? && CanCall(Pc(s, a)) && t == DoCall(s, a, ok)
    requires (forall f: nat :: size(f) <= lim.maxBatch)
      && led' == PostCall(size, led, InHandOf(s, Pc(s, a)), Pc(s, a), ok)
    ensures Capped(lim, led', t)
  {
    CallInflight(s, a, ok, t);
    if Pc(s, a).SyncingActive? && ok { CapCommits(lim, led, s, a, led', t); } else { CapShrinks(lim, led, s, led', t); }
  }

  lemma CapStep(size: Sizes, lim: Limits, led: Ledger, s: State, e: Event, led': Ledger, t: State)
    requires Capped(lim, led, s) && Enabled(s, e) && Admits(lim, led, e) && t == Do(s, e)
      && led' == Post(size, led, s, e)
    requires forall f: nat :: size(f) <= lim.maxBatch
    ensures Capped(lim, led', t)
  {
    match e
    case Reserve(_, _, _, _) => CapReserves(lim, led, s, e, t);
    case Call(a, ok) => CapCalls(size, lim, led, s, a, ok, led', t);
    case Answer(a, _, _) => Answered(s, a, e, t); CapShrinks(lim, led, s, led', t);
    case SalvageRow(a, _) => Answered(s, a, e, t); CapShrinks(lim, led, s, led', t);
    case SalvageEnd(a, _) => Answered(s, a, e, t); CapShrinks(lim, led, s, led', t);
    case Pick(n, readable) => CapShrinks(lim, led, s, led', t);
    case BootEnd(_) => CapStarts(lim, led', t);
    case _ =>
  }

  lemma CapStarts(lim: Limits, led: Ledger, s: State)
    requires led.bytes == led.start >= 0 && (s.proc.Up? ==> s.proc.pcs == map[])
    ensures Capped(lim, led, s)
  {
    if s.proc.Up? {
      assert Inflight(s) == {};
      MoreRoom(lim, 0, lim.writers);
    }
  }

  // Main result: with `writers` shards and files of at most `maxBatch` bytes, what the counters call
  // the spool's size passes its cap, or what New found, by less than one batch for each shard.
  lemma {:induction false} CapOverrun(size: Sizes, lim: Limits, events: seq<Event>, states: seq<State>,
                                      leds: seq<Ledger>, i: nat)
    requires KeptBy(size, events, states, leds) && i < |states| && leds[0].bytes >= 0
    requires (forall j | 0 <= j < |events| :: Admits(lim, leds[j], events[j]))
      && forall f: nat :: size(f) <= lim.maxBatch
    ensures Capped(lim, leds[i], states[i])
    ensures states[i].proc.Up? ==> leds[i].bytes < lim.Base(leds[i].start) + lim.writers * lim.maxBatch
  {
    if i > 0 {
      CapOverrun(size, lim, events, states, leds, i - 1);
      CapStep(size, lim, leds[i - 1], states[i - 1], events[i - 1], leds[i], states[i]);
    }
    if states[i].proc.Up? { MoreRoom(lim, 0, |Inflight(states[i])|); }
  }
}
