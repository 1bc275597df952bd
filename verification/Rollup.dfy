/** The rollup watermark: summing tables filled window by window, with commits and failures between any
    two statements.  */
module Rollup {

  const LAG := 10

  // A raw row and the time it says it was created.
  datatype Row = Row(id: nat, created: int)

  function Window(raw: set<Row>, lo: int, hi: int): set<Row> { set r | r in raw && lo < r.created <= hi }

  function UpTo(raw: set<Row>, hi: int): set<Row> { set r | r in raw && r.created <= hi }

  function Max(marks: seq<int>): int
    requires marks != []
  {
    if |marks| == 1 then marks[0] else var m := Max(marks[1..]); if marks[0] > m then marks[0] else m
  }

  predicate Increasing(marks: seq<int>) {
    forall i, j | 0 <= i < j < |marks| :: marks[i] < marks[j]
  }

  lemma {:induction false} LastIsMax(marks: seq<int>)
    requires marks != [] && Increasing(marks)
    ensures Max(marks) == marks[|marks| - 1]
    decreases |marks|
  {
    if |marks| > 1 { LastIsMax(marks[1..]); }
  }

  // Between two statements: time passes, then a row is committed.
  datatype Event = Event(pause: nat, row: Row)

  // How a statement ends: refused, or done, and then perhaps without saying so.
  datatype Ending = Ending(refused: bool, unacknowledged: bool)

  predicate Succeeds(e: Ending) { !e.refused && !e.unacknowledged }

  // What happens around and to the statements of one job.
  datatype Script = Script(before: seq<Event>, readFails: bool, start: seq<Event>, hourly: Ending,
                           between: seq<Event>, subs: Ending,
                           after: seq<Event>, mark: Ending)

  // Both backfill statements run and take effect.
  predicate Backfilled(s: Script) { !s.readFails && Succeeds(s.hourly) && !s.subs.refused }

  // The first backfill statement finds nothing and the second finds a row committed between them.
  predicate Straggles(raw: set<Row>, clock: int, s: Script) {
    var cutoff := clock + Pauses(s.before) + Pauses(s.start) - LAG;
    UpTo(raw + Rows(s.before) + Rows(s.start), cutoff) == {} && UpTo(Rows(s.between), cutoff) != {}
  }

  function Rows(events: seq<Event>): set<Row> { set i | 0 <= i < |events| :: events[i].row }

  function Pauses(events: seq<Event>): nat {
    if events == [] then 0 else Pauses(events[..|events| - 1]) + events[|events| - 1].pause
  }

  // A summing table, by the rows that went into it: once at least, and twice at least.
  datatype Summed = Summed(rows: set<Row>, twice: set<Row>)

  function Add(t: Summed, rows: set<Row>): Summed { Summed(t.rows + rows, t.twice + t.rows * rows) }

  const EMPTY := Summed({}, {})

  class Tables {
    var clock: int
    var raw: set<Row>
    var hourly: Summed
    var subs: Summed
    var marks: seq<int>

    // A statement failed; a row was committed more than LAG after its creation; the tables have been skewed.
    ghost var failed: bool
    ghost var late: bool
    ghost var straggler: bool

    constructor (now: int)
      ensures Inv() && Full() && raw == {} && marks == [] && clock == now && hourly == EMPTY == subs && !failed
        && !late && !straggler
    {
      clock, raw, hourly, subs, marks := now, {}, EMPTY, EMPTY, [];
      failed, late, straggler := false, false, false;
    }

    // The latest moment a sum may reach to.
    ghost function Limit(): int
      reads this
    {
      if marks == [] then clock - LAG else marks[|marks| - 1]
    }

    ghost predicate Ordered()
      reads this
    {
      Increasing(marks) && forall i | 0 <= i < |marks| :: marks[i] <= clock - LAG
    }

    // Not seeded, and only the subscriber table has rows.
    predicate Skewed()
      reads this
    {
      marks == [] && hourly.rows == {} && subs.rows != {}
    }

    // Nothing is summed twice, and nothing beyond the watermark is summed at all; the subscriber table
    // is excepted once the tables have been skewed, which takes a late row.
    ghost predicate Inv()
      reads this
    {
      && Ordered() && hourly.twice == {} && (!straggler ==> subs.twice == {}) && (!late ==> !straggler)
      && hourly.rows <= UpTo(raw, Limit()) && subs.rows <= UpTo(raw, Limit())
      && (Skewed() ==> straggler)
    }

    // Without failures and late rows, everything up to the watermark is summed.
    ghost predicate Full()
      reads this
    {
      !failed && !late ==> if marks == [] then hourly == EMPTY == subs
        else hourly.rows == subs.rows == UpTo(raw, marks[|marks| - 1])
    }

    // Time passes and rows are committed.
    method Others(events: seq<Event>)
      requires Inv()
      modifies this`clock, this`raw, this`late
      ensures Inv() && clock == old(clock) + Pauses(events) && raw == old(raw) + Rows(events) && (old(late) ==> late)
      ensures !late ==> forall hi | hi <= old(clock) - LAG :: UpTo(raw, hi) == UpTo(old(raw), hi)
      ensures old(Full()) ==> Full()
    {
      for i := 0 to |events|
        invariant Inv() && clock == old(clock) + Pauses(events[..i]) && raw == old(raw) + Rows(events[..i])
          && (old(late) ==> late)
        invariant !late ==> forall r | r in raw && r !in old(raw) :: r.created > old(clock) - LAG
      {
        assert events[..i + 1][..i] == events[..i] && Rows(events[..i + 1]) == Rows(events[..i]) + {events[i].row};
        Commit(events[i].pause, events[i].row);
      }
      assert events[..|events|] == events;
    }

    method Commit(pause: nat, row: Row)
      requires Inv()
      modifies this`clock, this`raw, this`late
      ensures Inv() && clock == old(clock) + pause && raw == old(raw) + {row}
        && late == (old(late) || row.created <= clock - LAG)
    {
      clock := clock + pause;
      late := late || row.created <= clock - LAG;
      raw := raw + {row};
    }

    // ---- statements; each may be refused, or take effect without saying so ----

    method SumHourly(rows: set<Row>, e: Ending) returns (ok: bool)
      requires Inv() && rows <= UpTo(raw, Limit()) && rows !! hourly.rows
      modifies this`hourly, this`failed
      ensures Inv() && ok == Succeeds(e) && failed == (old(failed) || !ok)
      ensures hourly == if e.refused then old(hourly) else Add(old(hourly), rows)
    {
      if !e.refused { hourly := Add(hourly, rows); }
      ok := Succeeds(e);
      failed := failed || !ok;
    }

    method SumSubs(rows: set<Row>, e: Ending) returns (ok: bool)
      requires Inv() && rows <= UpTo(raw, Limit()) && (!straggler ==> rows !! subs.rows)
      requires late || marks != [] || hourly.rows != {} || rows == {}
      modifies this`subs, this`failed, this`straggler
      ensures Inv() && ok == Succeeds(e) && failed == (old(failed) || !ok)
      ensures subs == if e.refused then old(subs) else Add(old(subs), rows)
      ensures straggler == (old(straggler) || Skewed())
    {
      if !e.refused { subs := Add(subs, rows); }
      straggler := straggler || Skewed();
      ok := Succeeds(e);
      failed := failed || !ok;
    }

    method Mark(cutoff: int, e: Ending) returns (ok: bool)
      requires Inv() && cutoff <= clock - LAG && (marks != [] ==> marks[|marks| - 1] < cutoff)
      requires hourly.rows <= UpTo(raw, cutoff) && subs.rows <= UpTo(raw, cutoff)
      modifies this`marks, this`failed
      ensures Inv() && ok == Succeeds(e) && failed == (old(failed) || !ok)
      ensures marks == if e.refused then old(marks) else old(marks) + [cutoff]
    {
      if !e.refused { marks := marks + [cutoff]; }
      ok := Succeeds(e);
      failed := failed || !ok;
    }

    // ---- the two jobs ----

    // Backfills and seeds the watermark, once.  A backfill sums rows twice exactly if it reaches the
    // subscriber table and the tables were skewed when it began.
    method EnsureRollups(s: Script) returns (ok: bool)
      requires Inv() && Full()
      modifies this
      ensures Inv() && Full() && old(marks) <= marks && old(raw) <= raw
      ensures old(subs.twice) == {} ==>
        (subs.twice != {} <==> old(Skewed()) && !s.readFails && Succeeds(s.hourly) && !s.subs.refused)
      ensures old(marks == [] && hourly.rows == {} && subs.rows == {}) && Backfilled(s) && s.mark.refused ==>
        (Skewed() <==> Straggles(old(raw), old(clock), s))
      ensures marks == if old(marks) == [] && !s.readFails && !s.mark.refused
                          && (old(hourly.rows) != {} || (Succeeds(s.hourly) && Succeeds(s.subs)))
                       then [old(clock) + Pauses(s.before) + Pauses(s.start) - 10] else old(marks)
    {
      Others(s.before);
      if s.readFails { failed := true; return false; }
      if marks != [] { return true; }
      Others(s.start);
      ok := Seed(clock - LAG, s);
    }

    method Seed(cutoff: int, s: Script) returns (ok: bool)
      requires Inv() && Full() && marks == [] && cutoff == clock - LAG
      modifies this
      ensures Inv() && Full() && old(raw) <= raw
      ensures old(subs.twice) == {} ==> (subs.twice != {} <==> old(Skewed()) && Succeeds(s.hourly) && !s.subs.refused)
      ensures old(hourly.rows == {} && subs.rows == {}) && Succeeds(s.hourly) && !s.subs.refused ==>
        hourly.rows == UpTo(old(raw), cutoff) && subs.rows == UpTo(old(raw) + Rows(s.between), cutoff)
      ensures marks == if !s.mark.refused && (old(hourly.rows) != {} || (Succeeds(s.hourly) && Succeeds(s.subs)))
                       then [cutoff] else []
    {
      ok := Backfill(cutoff, s);
      if !ok { return; }
      Others(s.after);
      ok := Mark(cutoff, s.mark);
    }

    // Sums everything up to the cutoff, unless the rollup has rows already.  Reading whether it has is
    // taken to succeed: its error is not looked at.
    method Backfill(cutoff: int, s: Script) returns (ok: bool)
      requires Inv() && Full() && marks == [] && cutoff == clock - LAG
      modifies this
      ensures Inv() && marks == [] && old(clock) <= clock && old(raw) <= raw && (old(failed) ==> failed)
      ensures hourly.rows <= UpTo(raw, cutoff) && subs.rows <= UpTo(raw, cutoff)
      ensures if ok then !failed && !late ==> hourly.rows == subs.rows == UpTo(raw, cutoff) else failed
      ensures ok <==> old(hourly.rows) != {} || (Succeeds(s.hourly) && Succeeds(s.subs))
      ensures old(subs.twice) == {} ==> (subs.twice != {} <==> old(Skewed()) && Succeeds(s.hourly) && !s.subs.refused)
      ensures old(hourly.rows == {} && subs.rows == {}) && Succeeds(s.hourly) && !s.subs.refused ==>
        hourly.rows == UpTo(old(raw), cutoff) && subs.rows == UpTo(old(raw) + Rows(s.between), cutoff)
    {
      if hourly.rows != {} { return true; }
      ok := SumHourly(UpTo(raw, cutoff), s.hourly);
      if !ok { return; }
      ok := BackfillSubs(cutoff, s);
    }

    method BackfillSubs(cutoff: int, s: Script) returns (ok: bool)
      requires Inv() && marks == [] && cutoff <= clock - LAG && hourly.rows == UpTo(raw, cutoff)
        && subs.rows <= UpTo(raw, cutoff)
      requires !failed && !late ==> subs == EMPTY
      requires subs.rows != {} ==> straggler
      modifies this
      ensures Inv() && marks == [] && old(clock) <= clock && old(raw) <= raw && (old(failed) ==> failed)
      ensures hourly.rows <= UpTo(raw, cutoff) && subs.rows <= UpTo(raw, cutoff)
      ensures if ok then !failed && !late ==> hourly.rows == subs.rows == UpTo(raw, cutoff) else failed
      ensures ok <==> Succeeds(s.subs)
      ensures old(subs.twice) == {} ==> (subs.twice != {} <==> old(subs.rows) != {} && !s.subs.refused)
      ensures hourly == old(hourly)
        && (!s.subs.refused ==> subs.rows == old(subs.rows) + UpTo(old(raw) + Rows(s.between), cutoff))
    {
      Others(s.between);
      var rows := UpTo(raw, cutoff);
      assert subs.rows * rows == subs.rows;
      ok := SumSubs(rows, s.subs);
    }

    // The watermark moves first: a failure skips the window instead of summing it twice.
    method RollupTick(s: Script) returns (ok: bool)
      requires Inv() && Full()
      modifies this
      ensures Inv() && Full() && old(marks) <= marks && |marks| <= |old(marks)| + 1 && old(raw) <= raw
      ensures subs.twice == old(subs.twice)
      ensures var cutoff := old(clock) + Pauses(s.before) - 10;
        marks == if old(marks) != [] && !s.readFails && !s.mark.refused && old(marks)[|old(marks)| - 1] < cutoff
                 then old(marks) + [cutoff] else old(marks)
    {
      Others(s.before);
      if s.readFails { failed := true; return false; }
      if marks == [] { return true; }
      var wm := Max(marks);
      LastIsMax(marks);
      var cutoff := clock - LAG;
      if cutoff <= wm { return true; }
      ok := Mark(cutoff, s.mark);
      if ok { ok := SumWindow(wm, cutoff, s); }
    }

    method SumWindow(wm: int, cutoff: int, s: Script) returns (ok: bool)
      requires Inv() && marks != [] && marks[|marks| - 1] == cutoff && wm < cutoff
      requires hourly.rows <= UpTo(raw, wm) && subs.rows <= UpTo(raw, wm)
      requires !failed && !late ==> hourly.rows == subs.rows == UpTo(raw, wm)
      modifies this
      ensures Inv() && Full() && marks == old(marks) && old(raw) <= raw && subs.twice == old(subs.twice)
    {
      Others(s.start);
      Windows(raw, wm, cutoff);
      ok := SumHourly(Window(raw, wm, cutoff), s.hourly);
      if !ok { return; }
      Others(s.between);
      Windows(raw, wm, cutoff);
      ok := SumSubs(Window(raw, wm, cutoff), s.subs);
    }

    // Main result: over any run of both jobs, watermarks strictly increase and the hourly table sums no
    // row twice; nor does the subscriber table, unless a row was committed late.  Without failures or late
    // rows, both sum every row up to the watermark.
    method Run(jobs: seq<(bool, Script)>)
      requires Inv() && Full()
      modifies this
      ensures Inv() && Full() && old(marks) <= marks && Increasing(marks)
      ensures hourly.twice == {} && (!late ==> subs.twice == {})
      ensures !late && !failed && marks != [] ==> hourly == subs == Summed(UpTo(raw, marks[|marks| - 1]), {})
    {
      for i := 0 to |jobs|
        invariant Inv() && Full() && old(marks) <= marks
      {
        var ok;
        if jobs[i].0 { ok := EnsureRollups(jobs[i].1); } else { ok := RollupTick(jobs[i].1); }
      }
    }
  }

  lemma Windows(raw: set<Row>, wm: int, cutoff: int)
    requires wm < cutoff
    ensures UpTo(raw, wm) + Window(raw, wm, cutoff) == UpTo(raw, cutoff) && UpTo(raw, wm) !! Window(raw, wm, cutoff)
  {
  }

  const DONE := Ending(false, false)

  // False of the code: "no row is summed twice".  In this run a row is committed late, between the two
  // statements of a backfill that had found nothing, and the watermark is not stored; the backfill is
  // repeated.
  method StragglerTwice() returns (t: Tables, r: Row)
    ensures fresh(t) && t.Inv() && t.late && t.subs.twice != {} && t.hourly.twice == {}
  {
    t := new Tables(100);
    r := Row(0, 50);
    var first := Script([], false, [], DONE, [Event(0, r)], DONE, [], Ending(true, false));
    var again := Script([], false, [], DONE, [], DONE, [], DONE);
    assert r in Rows(first.between) by { assert first.between[0].row == r; }
    assert r in UpTo(Rows(first.between), 90);
    var ok := t.EnsureRollups(first);
    ok := t.EnsureRollups(again);
  }
}
