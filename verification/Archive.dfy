/** Moving old days from hot storage to S3: export, count, mark, drop.  Inserts, the manual archive
    endpoint and failures of any store may come between any two statements of a sweep.  */
module Archive {

  type Day = nat
  type Isp = nat

  datatype Row = Row(id: nat, day: Day, isp: Isp)

  // One object per tenant and day.
  datatype Object = Object(day: Day, isp: Isp)

  function OnDay(rows: set<Row>, day: Day): set<Row> { set r | r in rows && r.day == day }

  function Of(rows: set<Row>, o: Object): set<Row> { set r | r in rows && r.day == o.day && r.isp == o.isp }

  // What `exportDay` reports: the rows counted, and whether an object holds them.
  datatype Result = Failed | Exported(rows: nat, stored: bool)

  // All of it at one moment.
  datatype State = State(hot: set<Row>, s3: map<Object, set<Row>>, marked: set<Day>, all: set<Row>,
                         late: set<Row>, exposed: set<Row>, armed: set<Day>, gone: set<Day>)

  // What others may do between two statements: insert rows, write objects, mark days.  (Contracts
  // compare this to `true` so that proofs chain it by `GrownTwice`.)
  ghost predicate Grown(a: State, b: State) {
    && a.hot <= b.hot && a.all <= b.all && a.marked <= b.marked && a.armed == b.armed && a.gone == b.gone
    && a.late <= b.late && a.exposed <= b.exposed
    && (forall o | o in a.s3 :: o in b.s3 && b.s3[o] == a.s3[o])
    && (forall o | o in b.s3 && o !in a.s3 :: Of(a.hot, o) <= b.s3[o])
    && (forall r | r in b.all && r !in a.all && (r.day in a.armed || r.day in a.marked) :: r in b.late)
    && (forall r | r in b.late && r !in a.late :: r !in a.all && (r.day in b.marked || r.day in b.armed))
    && (forall r | r in b.exposed && r !in a.exposed :: r.day in b.marked && r.day !in a.marked)
  }

  lemma GrownTwice(a: State, b: State, c: State)
    requires Grown(a, b) && Grown(b, c)
    ensures Grown(a, c)
  {
    forall o | o in c.s3 && o !in a.s3 ensures Of(a.hot, o) <= c.s3[o] {
      if o !in b.s3 { assert Of(a.hot, o) <= Of(b.hot, o); }
    }
  }

  // One object was written and nothing else happened.
  ghost predicate Wrote(a: State, b: State, o: Object) { b == a.(s3 := a.s3[o := Of(a.hot, o)]) }

  // There are rows to export, and no object yet.
  predicate Fresh(a: State, o: Object) { o !in a.s3 && Of(a.hot, o) != {} }

  // How a sweep of a day goes: `lands` are rows that land on the way from its completeness check to its
  // drop; and if it is quiet, nothing else happens meanwhile and nothing fails.
  datatype Choices = Choices(quiet: bool, lands: set<Row>)

  // What a sweep did with one candidate day.
  datatype Outcome = Kept | Redropped(refused: bool) | Archived(rows: nat)

  // ---- the manual archive endpoint ----

  // Between a tenant's count and its upload, the rows counted.
  datatype Phase = Between | Counted(rows: set<Row>)

  // A running request: the registered tenants, the next of them, failures and rows so far; `known` is
  // every row there was when a tenant was counted.
  datatype Manual = Manual(day: Day, isps: seq<Isp>, next: nat, failed: nat, total: nat, phase: Phase,
                           known: map<Isp, set<Row>>)

  predicate Distinct(isps: seq<Isp>) { forall i, j | 0 <= i < j < |isps| :: isps[i] != isps[j] }

  // Of a day never dropped, the tenant's rows of that moment are in its object.
  predicate Stored(s3: map<Object, set<Row>>, gone: set<Day>, o: Object, rows: set<Row>) {
    o.day !in gone ==> forall r | r in Of(rows, o) :: o in s3 && r in s3[o]
  }

  // Whatever object there is was written before the count, or after it.
  predicate Comparable(s3: map<Object, set<Row>>, o: Object, rows: set<Row>) {
    o in s3 ==> s3[o] <= rows || rows <= s3[o]
  }

  predicate HandlerOk(m: Manual, s3: map<Object, set<Row>>, hot: set<Row>, gone: set<Day>) {
    && m.next <= |m.isps| && Distinct(m.isps)
    && (m.failed == 0 ==> forall j | 0 <= j < m.next ::
       m.isps[j] in m.known && Stored(s3, gone, Object(m.day, m.isps[j]), m.known[m.isps[j]]))
    && (m.phase.Counted? ==> m.next < |m.isps| && m.isps[m.next] in m.known && CountOk(m, s3, hot, gone))
  }

  predicate CountOk(m: Manual, s3: map<Object, set<Row>>, hot: set<Row>, gone: set<Day>)
    requires m.phase.Counted? && m.next < |m.isps| && m.isps[m.next] in m.known
  {
    var o := Object(m.day, m.isps[m.next]);
    m.day !in gone ==> m.phase.rows == Of(m.known[o.isp], o) && m.phase.rows <= hot && Comparable(s3, o, m.phase.rows)
  }

  // Objects are never changed, new ones hold at least what was hot, and rows leave with their day.
  ghost predicate Steps(s3: map<Object, set<Row>>, hot: set<Row>, gone: set<Day>, s3': map<Object, set<Row>>,
                        hot': set<Row>, gone': set<Day>) {
    && (forall o | o in s3 :: o in s3' && s3'[o] == s3[o]) && (forall o | o in s3' && o !in s3 :: Of(hot, o) <= s3'[o])
    && gone <= gone' && (forall r | r in hot :: r in hot' || r.day in gone')
  }

  lemma HandlerKept(m: Manual, s3: map<Object, set<Row>>, hot: set<Row>, gone: set<Day>,
                    s3': map<Object, set<Row>>, hot': set<Row>, gone': set<Day>)
    requires HandlerOk(m, s3, hot, gone) && Steps(s3, hot, gone, s3', hot', gone')
    ensures HandlerOk(m, s3', hot', gone')
  {
    if m.phase.Counted? && m.day !in gone' {
      var o := Object(m.day, m.isps[m.next]);
      assert m.phase.rows <= Of(hot, o);
    }
  }

  // A row the marker of this request does not cover: of a tenant that is not registered, or landed after
  // its tenant was counted.
  predicate Explains(m: Manual, r: Row) {
    m.day == r.day && (r.isp in m.isps ==> r.isp in m.known && r !in m.known[r.isp])
  }

  // The rows of a day that some object holds.
  function StoredOn(s3: map<Object, set<Row>>, day: Day): set<Row> {
    set o, r | o in s3 && r in s3[o] && r.day == day :: r
  }

  // Every row that left hot storage is in S3.
  ghost predicate Lossless(a: State, b: State) {
    forall r | r in a.hot && r !in b.hot :: Object(r.day, r.isp) in b.s3 && r in b.s3[Object(r.day, r.isp)]
  }

  // ---- the counting argument ----

  lemma EqualCounts<T>(a: set<T>, b: set<T>)
    requires a <= b && |a| == |b|
    ensures a == b
  {
    assert b == a + (b - a);
  }

  lemma CountDisjoint<T>(a: set<T>, b: set<T>)
    requires a !! b
    ensures |a + b| == |a| + |b|
  {
  }

  // After a clean export, a row of the day that no object holds is explained.
  lemma Uncovered(m: Manual, s3: map<Object, set<Row>>, hot: set<Row>, gone: set<Day>, r: Row)
    requires HandlerOk(m, s3, hot, gone) && m.failed == 0 && m.next == |m.isps| && m.day !in gone && r.day == m.day
    requires !(Object(r.day, r.isp) in s3 && r in s3[Object(r.day, r.isp)])
    ensures Explains(m, r)
  {
    if r.isp in m.isps {
      var j :| 0 <= j < |m.isps| && m.isps[j] == r.isp;
      var o := Object(m.day, m.isps[j]);
      var known := m.known[o.isp];
      assert Stored(s3, gone, o, known);
      assert r !in Of(known, o);
    }
  }

  // Comparable sets of equal size are equal.
  lemma SameRows(s3: map<Object, set<Row>>, o: Object, rows: set<Row>)
    requires o in s3 && Comparable(s3, o, rows) && |s3[o]| == |rows|
    ensures s3[o] == rows
  {
    if s3[o] <= rows { EqualCounts(s3[o], rows); } else { EqualCounts(rows, s3[o]); }
  }

  class World {
    var hot: set<Row>
    var s3: map<Object, set<Row>>
    var marked: set<Day>
    // Every row ever inserted.
    var all: set<Row>
    var manuals: seq<Manual>

    // The rows that landed on a day after its completeness check or its marker; the rows no object
    // held when the manual endpoint marked their day.
    ghost var late: set<Row>
    ghost var exposed: set<Row>
    // The request that marked an exposed row's day.
    ghost var why: map<Row, Manual>
    // The day between its completeness check and its drop; the days ever dropped.
    ghost var armed: set<Day>
    ghost var gone: set<Day>

    constructor ()
      ensures Inv() && all == {} && late == {} && exposed == {} && armed == {} && gone == {} && marked == {}
        && s3 == map[] && manuals == []
    {
      hot, s3, marked, all, late, exposed, armed, gone := {}, map[], {}, {}, {}, {}, {}, {};
      manuals, why := [], map[];
    }

    predicate InS3(r: Row)
      reads this
    {
      Object(r.day, r.isp) in s3 && r in s3[Object(r.day, r.isp)]
    }

    ghost predicate Covered(r: Row)
      reads this
    {
      InS3(r) || r in late || r in exposed
    }

    ghost predicate Inv()
      reads this
    {
      && hot <= all && gone <= marked
      && (forall r | r in all && r.day !in gone :: r in hot)
      && (forall r | r in all && (r.day in marked || r.day in armed) :: Covered(r))
      && (forall o, r | o in s3 && r in s3[o] :: r.day == o.day && r.isp == o.isp && r in all)
      && (forall r | r in exposed :: r in why && Explains(why[r], r))
      && Handlers()
    }

    ghost predicate Handlers()
      reads this
    {
      forall k | 0 <= k < |manuals| :: HandlerOk(manuals[k], s3, hot, gone)
    }

    twostate lemma HandlersKept()
      requires old(Handlers()) && manuals == old(manuals) && Steps(old(s3), old(hot), old(gone), s3, hot, gone)
      ensures Handlers()
    {
      forall k | 0 <= k < |manuals| ensures HandlerOk(manuals[k], s3, hot, gone) {
        HandlerKept(manuals[k], old(s3), old(hot), old(gone), s3, hot, gone);
      }
    }

    // ---- the rest of the system ----

    method Insert(rows: set<Row>)
      requires Inv()
      modifies this
      ensures Inv() && hot == old(hot) + (rows - old(all)) && all == old(all) + rows
      ensures s3 == old(s3) && marked == old(marked) && armed == old(armed) && gone == old(gone)
        && exposed == old(exposed)
      ensures late == old(late) + set r | r in rows && r !in old(all) && (r.day in marked || r.day in armed)
      ensures manuals == old(manuals) && why == old(why)
    {
      var added := rows - all;
      hot := hot + added;
      late := late + set r | r in added && (r.day in marked || r.day in armed);
      all := all + rows;
      HandlersKept();
    }

    // The sink writes what it selects, and never overwrites.
    method WriteObject(o: Object)
      requires Inv() && o !in s3
      modifies this`s3
      ensures Inv() && s3 == old(s3)[o := Of(hot, o)]
    {
      s3 := s3[o := Of(hot, o)];
      HandlersKept();
    }

    // ---- the manual endpoint, statement by statement ----

    method SetManual(k: nat, m: Manual)
      requires Inv() && k < |manuals| && HandlerOk(m, s3, hot, gone)
      modifies this`manuals
      ensures Inv() && manuals == old(manuals)[k := m]
    {
      manuals := manuals[k := m];
    }

    method ManualStart(day: Day, isps: seq<Isp>)
      requires Inv()
      modifies this`manuals
      ensures Inv()
        && manuals == if Distinct(isps) then old(manuals) + [Manual(day, isps, 0, 0, 0, Between, map[])]
           else old(manuals)
    {
      if Distinct(isps) { manuals := manuals + [Manual(day, isps, 0, 0, 0, Between, map[])]; }
    }

    // Counts the next tenant; a failure is noted and the loop goes on.
    method ManualCount(k: nat, countFails: bool)
      requires Inv() && k < |manuals| && manuals[k].phase == Between && manuals[k].next < |manuals[k].isps|
      modifies this`manuals
      ensures Inv()
      ensures !countFails ==> var m := old(manuals)[k];
        manuals == old(manuals)[k := m.(phase := Counted(Of(hot, Object(m.day, m.isps[m.next]))),
                                        known := m.known[m.isps[m.next] := all])]
    {
      var m := manuals[k];
      var o := Object(m.day, m.isps[m.next]);
      if countFails {
        SetManual(k, m.(failed := m.failed + 1, next := m.next + 1));
      } else {
        var known := m.known[o.isp := all];
        assert forall j | 0 <= j < m.next :: m.isps[j] != o.isp;
        assert m.day !in gone ==> Of(hot, o) == Of(all, o);
        SetManual(k, m.(phase := Counted(Of(hot, o)), known := known));
      }
    }

    // Uses an object with as many rows as were counted, or uploads one; either may fail.
    method ManualStore(k: nat, statFails: bool, fails: bool)
      requires Inv() && k < |manuals| && manuals[k].phase.Counted?
      modifies this`manuals, this`s3
      ensures Inv() && (forall o | o in old(s3) :: o in s3 && s3[o] == old(s3)[o])
        && (forall o | o in s3 && o !in old(s3) :: Of(hot, o) <= s3[o])
      ensures var m := old(manuals)[k]; var o := Object(m.day, m.isps[m.next]);
        !fails && o !in old(s3) && m.phase.rows != {} ==> (
          && s3 == old(s3)[o := Of(hot, o)]
          && manuals == old(manuals)[k := m.(phase := Between, total := m.total + |m.phase.rows|, next := m.next + 1)])
    {
      var m := manuals[k];
      var o, rows := Object(m.day, m.isps[m.next]), m.phase.rows;
      var bad := m.(phase := Between, failed := m.failed + 1, next := m.next + 1);
      var good := m.(phase := Between, total := m.total + |rows|, next := m.next + 1);
      if rows == {} {
        SetManual(k, good);
      } else if o in s3 && !statFails {
        if fails || |s3[o]| != |rows| {
          SetManual(k, bad);
        } else {
          if m.day !in gone { SameRows(s3, o, rows); }
          SetManual(k, good);
        }
      } else if fails || o in s3 {
        SetManual(k, bad);
      } else {
        WriteObject(o);
        SetManual(k, good);
      }
    }

    // Marks only after a clean export of some rows, and without counting the partition.
    method ManualMark(k: nat, refused: bool)
      requires Inv() && k < |manuals| && manuals[k].next == |manuals[k].isps|
      modifies this`marked, this`exposed, this`why
      ensures Inv() && var m := manuals[k];
        marked == if !refused && m.failed == 0 && m.total > 0 then old(marked) + {m.day} else old(marked)
      ensures exposed == old(exposed) + set r | r in all && r.day in marked && r.day !in old(marked) && !InS3(r)
        && r !in late
    {
      var m := manuals[k];
      if refused || m.failed > 0 || m.total == 0 { return; }
      ghost var missing := set r | r in all && r.day == m.day && m.day !in marked && !InS3(r) && r !in late;
      forall r | r in missing ensures Explains(m, r) { Uncovered(m, s3, hot, gone, r); }
      Expose(m, missing);
    }

    // The marker is set; what it does not cover is on record.
    method Expose(m: Manual, ghost missing: set<Row>)
      requires Inv() && missing == set r | r in all && r.day == m.day && m.day !in marked && !InS3(r) && r !in late
      requires forall r | r in missing :: Explains(m, r)
      modifies this`marked, this`exposed, this`why
      ensures Inv() && marked == old(marked) + {m.day} && exposed == old(exposed) + missing
    {
      exposed := exposed + missing;
      why := why + map r | r in missing :: m;
      marked := marked + {m.day};
    }

    ghost function Now(): State
      reads this
    {
      State(hot, s3, marked, all, late, exposed, armed, gone)
    }

    // One step of an insert or of a request.
    method OtherStep(step: nat, rows: set<Row>, day: Day, isps: seq<Isp>, k: nat, a: bool, b: bool)
      requires Inv()
      modifies this
      ensures Inv() && Grown(old(Now()), Now())
    {
      if step == 0 { Insert(rows); }
      else if step == 1 { ManualStart(day, isps); }
      else if k < |manuals| {
        if manuals[k].phase.Counted? { ManualStore(k, a, b); }
        else if manuals[k].next < |manuals[k].isps| { ManualCount(k, a); }
        else { ManualMark(k, a); }
      }
    }

    method Others(quiet: bool)
      requires Inv()
      modifies this
      ensures Inv() && Grown(old(Now()), Now()) && (quiet ==> Now() == old(Now()))
    {
      ghost var start := Now();
      var steps: nat := *;
      if quiet { return; }
      while steps > 0
        invariant Inv() && Grown(start, Now())
      {
        ghost var was := Now();
        var step: nat, rows: set<Row>, day: Day, isps: seq<Isp>, k: nat, a: bool, b: bool := *, *, *, *, *, *, *;
        OtherStep(step, rows, day, isps, k, a, b);
        GrownTwice(start, was, Now());
        steps := steps - 1;
      }
    }

    method Fails(quiet: bool) returns (fails: bool)
      ensures quiet ==> !fails
    {
      fails := *;
      if quiet { fails := false; }
    }

    // ---- exporting one tenant's day ----

    // Reuses an object that is already there if it holds as many rows as were counted.
    method VerifyExisting(o: Object, cu: nat, ghost counted: set<Row>, quiet: bool) returns (res: Result)
      requires Inv() && o in s3 && cu == |counted|
      requires o.day !in gone ==> s3[o] <= counted || counted <= s3[o]
      modifies this
      ensures Inv() && Grown(old(Now()), Now())
      ensures res.Exported? ==> res == Exported(cu, true) && (o.day !in gone ==> o in s3 && s3[o] == counted)
    {
      var failed := Fails(quiet);
      var archived := |s3[o]|;
      if o.day !in gone && archived == cu {
        if s3[o] <= counted { EqualCounts(s3[o], counted); } else { EqualCounts(counted, s3[o]); }
      }
      Others(quiet);
      res := if failed || archived != cu then Failed else Exported(cu, true);
    }

    // ClickHouse streams the rows to S3; it refuses to overwrite, may fail, and may succeed
    // without saying so.
    method Upload(o: Object, quiet: bool) returns (ok: bool)
      requires Inv()
      modifies this
      ensures Inv() && Grown(old(Now()), Now()) && (ok ==> o in s3 && Of(old(hot), o) <= s3[o])
      ensures quiet && o !in old(s3) ==> ok && Wrote(old(Now()), Now(), o)
    {
      ghost var start := Now();
      Others(quiet);
      if o in s3 { return false; }
      var refused := Fails(quiet);
      var unacknowledged := Fails(quiet);
      if refused { return false; }
      ghost var before := Now();
      WriteObject(o);
      GrownTwice(start, before, Now());
      ghost var written := Now();
      Others(quiet);
      GrownTwice(start, written, Now());
      ok := !unacknowledged && o in s3;
    }

    // Any statement may fail, and the upload may fail after it took effect.  `counted` are the rows
    // behind the reported number: an object holds them all.
    method ExportDay(o: Object, quiet: bool) returns (res: Result, ghost counted: set<Row>)
      requires Inv()
      modifies this
      ensures Inv() && Grown(old(Now()), Now())
      ensures res.Exported? ==>
        res.rows == |counted| && (res.stored <==> counted != {})
        && Of(old(hot), o) <= counted <= Of(hot, o)
      ensures res.Exported? && counted != {} && o.day !in gone ==> o in s3 && counted <= s3[o]
      ensures quiet && Fresh(old(Now()), o) ==>
        res == Exported(|counted|, true) && counted == Of(old(hot), o) && Wrote(old(Now()), Now(), o)
    {
      ghost var start := Now();
      Others(quiet);
      counted := Of(hot, o);
      var cu := |Of(hot, o)|;
      ghost var atCount := Now();
      var failed := Fails(quiet);
      if failed { return Failed, counted; }
      if cu == 0 { return Exported(0, false), counted; }
      res := StoreDay(o, cu, counted, quiet);
      GrownTwice(start, atCount, Now());
    }

    // The object is there already and is verified, or it is uploaded.
    method StoreDay(o: Object, cu: nat, ghost counted: set<Row>, quiet: bool) returns (res: Result)
      requires Inv() && counted == Of(hot, o) && cu == |counted| > 0
      modifies this
      ensures Inv() && Grown(old(Now()), Now())
      ensures res.Exported? ==> res == Exported(cu, true) && (o.day !in gone ==> o in s3 && counted <= s3[o])
      ensures quiet && Fresh(old(Now()), o) ==> res == Exported(cu, true) && Wrote(old(Now()), Now(), o)
    {
      ghost var start := Now();
      Others(quiet);
      ghost var atStat := Now();
      var statFailed := Fails(quiet);
      if o in s3 && !statFailed {
        res := VerifyExisting(o, cu, counted, quiet);
      } else {
        var stored := Upload(o, quiet);
        res := if stored then Exported(cu, true) else Failed;
      }
      GrownTwice(start, atStat, Now());
    }

    // All registered tenants' rows of a day, tenant by tenant.
    method ExportAll(isps: seq<Isp>, day: Day, quiet: bool)
        returns (ok: bool, dRows: nat, objs: nat, ghost seen: set<Row>)
      requires Inv() && forall i, j | 0 <= i < j < |isps| :: isps[i] != isps[j]
      modifies this
      ensures Inv() && Grown(old(Now()), Now())
      ensures ok ==> Seen(isps, day, seen) && dRows == |seen| && objs <= |isps|
      ensures ok ==> forall r | r in OnDay(old(hot), day) && r.isp in isps :: r in seen
      ensures quiet && |isps| == 1 && Fresh(old(Now()), Object(day, isps[0])) ==>
        ok && seen == Of(old(hot), Object(day, isps[0])) && Wrote(old(Now()), Now(), Object(day, isps[0]))
    {
      ghost var start := Now();
      ok, dRows, objs, seen := true, 0, 0, {};
      for i := 0 to |isps|
        invariant Inv() && Grown(start, Now()) && ok && dRows == |seen| && objs <= i
          && Seen(isps[..i], day, seen)
        invariant forall r | r in OnDay(start.hot, day) && r.isp in isps[..i] :: r in seen
        invariant i == 0 ==> Now() == start && seen == {}
        invariant i == 1 && quiet && Fresh(start, Object(day, isps[0])) ==>
          seen == Of(start.hot, Object(day, isps[0])) && Wrote(start, Now(), Object(day, isps[0]))
      {
        ghost var was := Now();
        var res;
        res, seen := ExportNext(isps, i, day, seen, quiet, start);
        if res.Failed? { return false, dRows, objs, seen; }
        dRows := dRows + res.rows;
        if res.stored { objs := objs + 1; }
      }
      assert isps[..|isps|] == isps;
    }

    // The next tenant, seen from the start of the export.
    method ExportNext(isps: seq<Isp>, i: nat, day: Day, ghost seen: set<Row>, quiet: bool, ghost start: State)
        returns (res: Result, ghost seen': set<Row>)
      requires Inv() && i < |isps| && (forall j | 0 <= j < i :: isps[j] != isps[i]) && Grown(start, Now())
      requires Seen(isps[..i], day, seen) && forall r | r in OnDay(start.hot, day) && r.isp in isps[..i] :: r in seen
      modifies this
      ensures Inv() && Grown(start, Now())
      ensures res.Exported? ==> Seen(isps[..i + 1], day, seen') && |seen'| == |seen| + res.rows
      ensures res.Exported? ==> forall r | r in OnDay(start.hot, day) && r.isp in isps[..i + 1] :: r in seen'
      ensures quiet && seen == {} && Fresh(old(Now()), Object(day, isps[i])) ==>
        res.Exported? && seen' == Of(old(hot), Object(day, isps[i]))
          && Wrote(old(Now()), Now(), Object(day, isps[i]))
    {
      ghost var was, counted := Now(), {};
      res, counted := ExportDay(Object(day, isps[i]), quiet);
      GrownTwice(start, was, Now());
      seen' := seen;
      if res.Failed? { return; }
      SeenMore(isps, i, day, seen, counted, was);
      assert isps[..i + 1] == isps[..i] + [isps[i]];
      seen' := seen + counted;
    }

    // Rows of these tenants that were counted: still hot, and stored unless the day was dropped before.
    ghost predicate Seen(isps: seq<Isp>, day: Day, seen: set<Row>)
      reads this
    {
      seen <= OnDay(hot, day) && (forall r | r in seen :: r.isp in isps && (day !in gone ==> InS3(r)))
    }

    // Growth keeps what was seen, and one more tenant's rows add up.
    lemma SeenMore(isps: seq<Isp>, i: nat, day: Day, seen: set<Row>, counted: set<Row>, was: State)
      requires i < |isps| && (forall j | 0 <= j < i :: isps[j] != isps[i]) && Grown(was, Now())
      requires seen <= OnDay(was.hot, day) && forall r | r in seen :: r.isp in isps[..i]
      requires day !in was.gone ==> forall r | r in seen ::
        Object(day, r.isp) in was.s3 && r in was.s3[Object(day, r.isp)]
      requires counted <= Of(hot, Object(day, isps[i]))
      requires counted != {} && day !in gone ==> Object(day, isps[i]) in s3 && counted <= s3[Object(day, isps[i])]
      ensures Seen(isps[..i + 1], day, seen + counted) && |seen + counted| == |seen| + |counted|
    {
      assert isps[..i + 1] == isps[..i] + [isps[i]];
      assert seen !! counted by { assert forall r | r in counted :: r.isp == isps[i]; }
      CountDisjoint(seen, counted);
    }

    // Dropping is instant, may fail, and may succeed without saying so.
    method DropDay(day: Day, refused: bool, unacknowledged: bool) returns (ok: bool)
      requires Inv() && day in marked
      modifies this
      ensures Inv() && marked == old(marked) && s3 == old(s3) && all == old(all) && late == old(late)
        && exposed == old(exposed) && armed == old(armed)
      ensures if refused then hot == old(hot) && gone == old(gone)
        else hot == old(hot) - OnDay(old(hot), day) && gone == old(gone) + {day}
      ensures ok <==> !refused && !unacknowledged
    {
      if refused { return false; }
      hot := hot - OnDay(hot, day);
      gone := gone + {day};
      HandlersKept();
      ok := !unacknowledged;
    }

    // The exact condition under which dropping a day loses nothing: its objects hold as many rows as
    // the partition.  It is what the sweep checks before it marks a day, and no longer checks after.
    lemma CompleteIff(day: Day)
      requires Inv() && day !in gone
      ensures (forall r | r in OnDay(hot, day) :: InS3(r)) <==> |StoredOn(s3, day)| == |OnDay(hot, day)|
    {
      var stored, held := StoredOn(s3, day), OnDay(hot, day);
      assert stored <= held;
      assert forall r | r in held :: InS3(r) <==> r in stored;
      if |stored| == |held| { EqualCounts(stored, held); }
      if forall r | r in held :: InS3(r) { assert stored == held; }
    }

    // A marked day that is hot again is dropped without a count.
    method Redrop(day: Day, refused: bool, unacknowledged: bool)
      requires Inv() && day in marked
      modifies this
      ensures Inv() && marked == old(marked) && s3 == old(s3) && all == old(all) && late == old(late)
        && exposed == old(exposed) && armed == old(armed)
      ensures hot == if refused then old(hot) else old(hot) - OnDay(old(hot), day)
      ensures day !in old(gone) ==> (Lossless(old(Now()), Now())
              <==> refused || |StoredOn(s3, day)| == |OnDay(old(hot), day)|)
    {
      if day !in gone { CompleteIff(day); }
      assert forall r | r in OnDay(hot, day) :: r in hot;
      var ok := DropDay(day, refused, unacknowledged);
    }

    // Ends the watch over a day: without its marker, nothing is decided about its late rows.
    ghost method Disarm(day: Day)
      requires Inv()
      modifies this`armed, this`late
      ensures Inv() && armed == old(armed) - {day} && late <= old(late)
        && (forall r | r in old(late) && r !in late :: r.day == day && day !in marked)
      ensures day in marked ==> late == old(late)
    {
      armed := armed - {day};
      if day !in marked { late := late - OnDay(late, day); }
    }

    // Counts the whole partition, and from then on watches for rows that land on the day.
    method CountPartition(isps: seq<Isp>, day: Day, dRows: nat, ghost seen: set<Row>, quiet: bool)
        returns (complete: bool)
      requires Inv() && dRows == |seen| && Seen(isps, day, seen)
      modifies this
      ensures Inv() && old(hot) <= hot && old(all) <= all && gone == old(gone) && old(marked) <= marked
      ensures armed == if complete then old(armed) + {day} else old(armed)
      ensures complete ==> Seen(isps, day, seen) && seen == OnDay(hot, day)
      ensures quiet && seen == OnDay(old(hot), day) ==> complete && Now() == old(Now()).(armed := armed)
    {
      Others(quiet);
      var failed := Fails(quiet);
      var hotRows := |OnDay(hot, day)|;
      complete := !failed && hotRows == dRows;
      if complete {
        EqualCounts(seen, OnDay(hot, day));
        armed := armed + {day};
      }
    }

    // Stores the marker of a day that is complete; may fail after it took effect.
    method Mark(day: Day, quiet: bool) returns (ok: bool)
      requires Inv() && day in armed
      modifies this`marked
      ensures Inv() && old(marked) <= marked <= old(marked) + {day} && (ok ==> day in marked) && (quiet ==> ok)
    {
      var refused := Fails(quiet);
      var unacknowledged := Fails(quiet);
      if refused { return false; }
      marked := marked + {day};
      ok := !unacknowledged;
    }

    // From the completeness check to the drop.  `seen` are then the rows at the check, and `at` is the
    // state in which the day is dropped.
    method Finish(isps: seq<Isp>, day: Day, dRows: nat, ghost seen: set<Row>, c: Choices)
        returns (out: Outcome, ghost at: State)
      requires Inv() && day !in armed && dRows == |seen| && Seen(isps, day, seen)
      modifies this
      ensures Inv() && armed == old(armed) && old(all) <= all && old(marked) <= marked
        && (out.Kept? || out == Archived(dRows))
      ensures out.Archived? ==> day in marked && OnDay(hot, day) == {} && OnDay(old(hot), day) <= seen
      ensures out.Archived? && day !in old(gone) ==> Complete(day, seen) && LossIff(day, seen, at)
      ensures c.quiet && seen == OnDay(old(hot), day) ==>
        out.Archived? && s3 == old(s3) && all == old(all) + c.lands && exposed == old(exposed)
    {
      at := Now();
      var complete := CountPartition(isps, day, dRows, seen, c.quiet);
      if !complete { return Kept, at; }
      assert day !in gone ==> OnDay(all, day) == seen;
      Others(c.quiet);
      var ok := Mark(day, c.quiet);
      if ok { ok, at := MarkedDrop(day, seen, c); }
      Disarm(day);
      out := if ok then Archived(dRows) else Kept;
    }

    // The exact condition under which the drop loses nothing, twice: as a count that could be taken, and as
    // what may have happened since the check.
    ghost predicate LossIff(day: Day, seen: set<Row>, at: State)
      reads this
    {
      && (Lossless(at, Now()) <==> |StoredOn(at.s3, day)| == |OnDay(at.hot, day)|)
      && (Lossless(at, Now()) <==> forall r | r in OnDay(at.hot, day) && r !in seen :: InS3(r))
    }

    // Every row of the day was there at the check and is in S3, or landed later.
    ghost predicate Complete(day: Day, seen: set<Row>)
      reads this
    {
      forall r | r in OnDay(all, day) :: if r in seen then InS3(r) else r in late
    }

    method MarkedDrop(day: Day, ghost seen: set<Row>, c: Choices) returns (ok: bool, ghost at: State)
      requires Inv() && day in marked && day in armed && seen <= all
      requires day !in gone ==> Complete(day, seen)
      modifies this
      ensures Inv() && armed == old(armed) && old(all) <= all && old(marked) <= marked && (ok ==> OnDay(hot, day) == {})
      ensures day !in old(gone) ==> Complete(day, seen) && (ok ==> LossIff(day, seen, at))
      ensures c.quiet ==> ok && s3 == old(s3) && all == old(all) + c.lands && exposed == old(exposed)
    {
      Others(c.quiet);
      Insert(c.lands);
      var refused := Fails(c.quiet);
      var unacknowledged := Fails(c.quiet);
      at := Now();
      if day !in gone { CompleteIff(day); }
      assert forall r | r in OnDay(hot, day) :: r in hot;
      ok := DropDay(day, refused, unacknowledged);
    }

    // The day is one registered tenant's, and new to the archive.
    static predicate OneTenant(s: State, isps: seq<Isp>, day: Day) {
      |isps| == 1 && day !in s.marked && Fresh(s, Object(day, isps[0]))
        && Of(s.hot, Object(day, isps[0])) == OnDay(s.hot, day)
    }

    // One candidate day of a sweep.  `before` is the state in which a marked day is dropped again, `at` that
    // in which a day is dropped once it is archived.
    method ArchiveDay(isps: seq<Isp>, day: Day, c: Choices)
        returns (out: Outcome, ghost seen: set<Row>, ghost before: State, ghost at: State)
      requires Inv() && day !in armed && forall i, j | 0 <= i < j < |isps| :: isps[i] != isps[j]
      modifies this
      ensures Inv() && armed == old(armed) && old(all) <= all && old(marked) <= marked
      ensures out.Archived? ==> day in marked && OnDay(hot, day) == {} && out.rows == |seen| > 0
      ensures out.Archived? && day !in old(gone) ==> Complete(day, seen) && LossIff(day, seen, at)
      ensures out.Redropped? && day !in before.gone ==>
        (Lossless(before, Now()) <==> out.refused || |StoredOn(before.s3, day)| == |OnDay(before.hot, day)|)
      ensures c.quiet && OneTenant(old(Now()), isps, day) ==>
        out.Archived? && s3 == old(s3)[Object(day, isps[0]) := OnDay(old(hot), day)] && all == old(all) + c.lands
        && exposed == old(exposed)
      ensures c.quiet && day in old(marked) ==> out.Redropped?
    {
      seen := {};
      Others(c.quiet);
      before, at := Now(), Now();
      var readFailed := Fails(c.quiet);
      if day in marked && !readFailed {
        var refused: bool, unacknowledged: bool := *, *;
        Redrop(day, refused, unacknowledged);
        return Redropped(refused), {}, before, at;
      }
      var ok, dRows, objs;
      ok, dRows, objs, seen := ExportAll(isps, day, c.quiet);
      if !ok || dRows == 0 { return Kept, {}, before, at; }
      out, at := Finish(isps, day, dRows, seen, c);
    }

    // Main result: a sweep over any days keeps the invariant, so every row ever inserted stays in hot
    // storage or in S3, except rows that landed on a day after its check or marker, and rows of tenants
    // unknown to the manual request that marked their day, or that landed after it counted the tenant.
    // Each candidate has its turn; what is archived is counted.
    method Sweep(isps: seq<Isp>, candidates: seq<Day>, choices: Day -> Choices)
        returns (days: nat, rows: nat, ghost outs: seq<Outcome>, ghost states: seq<State>)
      requires Inv() && armed == {} && forall i, j | 0 <= i < j < |isps| :: isps[i] != isps[j]
      modifies this
      ensures Inv() && armed == {} && old(all) <= all && old(marked) <= marked
      ensures forall r | r in all && r !in hot && !InS3(r) ::
        r.day in marked && (r in late || (r in exposed && r in why && Explains(why[r], r)))
      ensures |outs| == |candidates| == |states| - 1 && states[0] == old(Now()) && states[|outs|] == Now()
        && days == DaysIn(outs) && rows == RowsIn(outs)
      ensures forall i | 0 <= i < |outs| ::
        Went(isps, candidates[i], choices(candidates[i]), states[i], states[i + 1], outs[i])
    {
      days, rows, outs, states := 0, 0, [], [Now()];
      for i := 0 to |candidates|
        invariant Inv() && armed == {} && old(all) <= all && old(marked) <= marked
        invariant |outs| == i == |states| - 1 && states[0] == old(Now()) && states[i] == Now()
          && days == DaysIn(outs) && rows == RowsIn(outs)
        invariant forall k | 0 <= k < i ::
          Went(isps, candidates[k], choices(candidates[k]), states[k], states[k + 1], outs[k])
      {
        var out := SweepDay(isps, candidates[i], choices(candidates[i]));
        if out.Archived? { days, rows := days + 1, rows + out.rows; }
        OutcomeLast(outs, out);
        outs, states := outs + [out], states + [Now()];
      }
    }

    method SweepDay(isps: seq<Isp>, day: Day, c: Choices) returns (out: Outcome)
      requires Inv() && armed == {} && forall i, j | 0 <= i < j < |isps| :: isps[i] != isps[j]
      modifies this
      ensures Inv() && armed == {} && old(all) <= all && old(marked) <= marked
      ensures Went(isps, day, c, old(Now()), Now(), out)
    {
      ghost var seen, before, at;
      out, seen, before, at := ArchiveDay(isps, day, c);
    }

    // An archived day is marked, had rows, and has left hot storage.  Nothing keeps a quiet sweep from dropping a
    // marked day again, nor from archiving the rows of a registered tenant alone on a new day.
    static predicate Went(isps: seq<Isp>, day: Day, c: Choices, a: State, b: State, out: Outcome) {
      && (out.Archived? ==> day in b.marked && OnDay(b.hot, day) == {} && out.rows > 0)
      && (c.quiet && day in a.marked ==> out.Redropped?)
      && (c.quiet && OneTenant(a, isps, day) ==>
            out.Archived? && b.s3 == a.s3[Object(day, isps[0]) := OnDay(a.hot, day)])
    }
  }

  // The candidates archived, and the rows in them.
  function DaysIn(outs: seq<Outcome>): nat {
    if outs == [] then 0 else (if outs[0].Archived? then 1 else 0) + DaysIn(outs[1..])
  }

  function RowsIn(outs: seq<Outcome>): nat { if outs == [] then 0 else RowsOf(outs[0]) + RowsIn(outs[1..]) }

  function RowsOf(out: Outcome): nat { if out.Archived? then out.rows else 0 }

  lemma {:induction false} OutcomeLast(outs: seq<Outcome>, out: Outcome)
    ensures DaysIn(outs + [out]) == DaysIn(outs) + (if out.Archived? then 1 else 0)
      && RowsIn(outs + [out]) == RowsIn(outs) + RowsOf(out)
  {
    if outs == [] {
      assert [out][1..] == [];
    } else {
      OutcomeLast(outs[1..], out);
      assert (outs + [out])[1..] == outs[1..] + [out];
    }
  }

  // A request for day 0 and tenant 1, up to its marker, when row 0 of that tenant is there.
  method MarkDayZero(w: World)
    requires w.Inv() && w.manuals == [] && w.s3 == map[] && Of(w.hot, Object(0, 1)) == {Row(0, 0, 1)}
      && 0 !in w.marked && w.late == {}
    modifies w
    ensures w.Inv() && 0 in w.marked && w.s3 == map[Object(0, 1) := {Row(0, 0, 1)}] && w.hot == old(w.hot)
      && w.all == old(w.all)
    ensures w.late == {} && w.gone == old(w.gone) && w.armed == old(w.armed)
      && w.exposed == old(w.exposed) + set r | r in w.all && r.day == 0 && !w.InS3(r)
  {
    w.ManualStart(0, [1]);
    w.ManualCount(0, false);
    w.ManualStore(0, false, false);
    w.ManualMark(0, false);
  }

  // False of the code: "a day dropped by a sweep is in S3".  A row of a tenant that is not registered,
  // on a day the manual endpoint has marked, is lost when the next sweep drops the day again.
  method ManualMarkLoses() returns (w: World, r: Row)
    ensures fresh(w) && w.Inv() && r in w.all && r !in w.hot && !w.InS3(r) && r in w.exposed && r !in w.late
  {
    w := new World();
    r := Row(1, 0, 9);
    w.Insert({Row(0, 0, 1), r});
    MarkDayZero(w);
    w.Redrop(0, false, false);
  }

  // So is a row that lands on a marked day.
  method MarkedRowLost() returns (w: World, r: Row)
    ensures fresh(w) && w.Inv() && r in w.all && r !in w.hot && !w.InS3(r) && r in w.late && r !in w.exposed
  {
    w := new World();
    r := Row(1, 0, 1);
    w.Insert({Row(0, 0, 1)});
    MarkDayZero(w);
    w.Insert({r});
    w.Redrop(0, false, false);
  }

  // And so is a row that lands between the completeness check and the drop, in a sweep in which nothing
  // fails and nothing else happens.
  method LateRowLost() returns (w: World, r: Row)
    ensures fresh(w) && w.Inv() && r in w.all && r !in w.hot && !w.InS3(r) && r in w.late && r !in w.exposed
  {
    w := new World();
    r := Row(1, 0, 1);
    var first := Row(0, 0, 1);
    w.Insert({first});
    assert first in Of(w.hot, Object(0, 1));
    assert Of(w.hot, Object(0, 1)) == OnDay(w.hot, 0) == {first};
    var out;
    ghost var seen, before, at;
    out, seen, before, at := w.ArchiveDay([1], 0, Choices(true, {r}));
    assert r in OnDay(w.all, 0) && r !in OnDay(w.hot, 0);
  }
}
