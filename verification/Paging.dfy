/** A page of the merged tiers: the bounded windows give the same times as everything would, totals are
    exact unless capped, and a report is refused or complete.  */
module Paging {
  import opened Prelude
  import opened ColdSearch

  // ---- sorted by time, newest first ----

  function Times(rs: seq<Record>): seq<int> {
    seq(|rs|, i requires 0 <= i < |rs| => rs[i].time)
  }

  predicate Descending(ts: seq<int>) {
    forall i, j | 0 <= i < j < |ts| :: ts[i] >= ts[j]
  }

  function Merge(a: seq<int>, b: seq<int>): seq<int> {
    if a == [] then b else if b == [] then a
    else if a[0] >= b[0] then [a[0]] + Merge(a[1..], b) else [b[0]] + Merge(a, b[1..])
  }

  lemma {:induction false} MergeSorts(a: seq<int>, b: seq<int>, m: seq<int>)
    requires Descending(a) && Descending(b) && m == Merge(a, b)
    ensures Descending(m) && multiset(m) == multiset(a) + multiset(b)
    decreases |a| + |b|
  {
    if a != [] && b != [] {
      if a[0] >= b[0] {
        MergeSorts(a[1..], b, Merge(a[1..], b));
        MergeCons(a, b, a[0], a[1..], Merge(a[1..], b), m);
      } else {
        MergeSorts(a, b[1..], Merge(a, b[1..]));
        MergeCons(b, a, b[0], b[1..], Merge(a, b[1..]), m);
      }
    }
  }

  lemma MergeCons(a: seq<int>, b: seq<int>, x: int, a': seq<int>, rest: seq<int>, m: seq<int>)
    requires a != [] && b != [] && x == a[0] >= b[0] && a' == a[1..] && Descending(a) && Descending(b)
    requires Descending(rest) && multiset(rest) == multiset(a') + multiset(b) && m == [x] + rest
    ensures Descending(m) && multiset(m) == multiset(a) + multiset(b)
  {
    assert a == [x] + a';
    forall i | 0 <= i < |rest| ensures x >= rest[i] {
      assert rest[i] in multiset(rest);
      if rest[i] in multiset(a') { var k :| 0 <= k < |a'| && a'[k] == rest[i]; assert a[k + 1] == rest[i]; }
      else { assert rest[i] in multiset(b); var k :| 0 <= k < |b| && b[k] == rest[i]; assert b[0] >= b[k]; }
    }
  }

  lemma FirstIsMost(a: seq<int>, b: seq<int>)
    requires a != [] && Descending(a) && Descending(b) && multiset(a) == multiset(b)
    ensures b != [] && a[0] >= b[0]
  {
    assert a[0] in multiset(b);
    assert b[0] in multiset(a);
    var k :| 0 <= k < |a| && a[k] == b[0];
  }

  lemma WithoutFirst(a: seq<int>)
    requires a != []
    ensures multiset(a[1..]) == multiset(a) - multiset{a[0]}
  {
    assert a == [a[0]] + a[1..];
  }

  // Two sorted arrangements of the same times are the same.
  lemma {:induction false} SortedUnique(a: seq<int>, b: seq<int>)
    requires Descending(a) && Descending(b) && multiset(a) == multiset(b)
    ensures a == b
    decreases |a|
  {
    if a == [] {
      assert |b| == |multiset(b)| == |multiset(a)| == 0;
    } else {
      FirstIsMost(a, b);
      FirstIsMost(b, a);
      WithoutFirst(a);
      WithoutFirst(b);
      SortedUnique(a[1..], b[1..]);
      assert a == [a[0]] + a[1..] && b == [b[0]] + b[1..];
    }
  }

  // The first n of a merge only need the first n of either side.
  lemma {:induction false} MergeWindow(n: nat, a: seq<int>, b: seq<int>)
    ensures Take(n, Merge(Take(n, a), Take(n, b))) == Take(n, Merge(a, b))
    decreases n, 0
  {
    if n > 0 && a != [] && b != [] {
      if a[0] >= b[0] {
        WiderWindow(n - 1, a[1..], b);
        LeftFirst(n, a, b);
      } else {
        WiderWindow2(n - 1, a, b[1..]);
        RightFirst(n, a, b);
      }
    }
  }

  lemma LeftFirst(n: nat, a: seq<int>, b: seq<int>)
    requires n > 0 && a != [] && b != [] && a[0] >= b[0]
    requires Take(n - 1, Merge(Take(n - 1, a[1..]), Take(n, b))) == Take(n - 1, Merge(a[1..], b))
    ensures Take(n, Merge(Take(n, a), Take(n, b))) == Take(n, Merge(a, b))
  {
    var a', b' := Take(n, a), Take(n, b);
    assert a'[1..] == Take(n - 1, a[1..]);
    TakeCons(n, a[0], Merge(a'[1..], b'));
    TakeCons(n, a[0], Merge(a[1..], b));
  }

  lemma RightFirst(n: nat, a: seq<int>, b: seq<int>)
    requires n > 0 && a != [] && b != [] && a[0] < b[0]
    requires Take(n - 1, Merge(Take(n, a), Take(n - 1, b[1..]))) == Take(n - 1, Merge(a, b[1..]))
    ensures Take(n, Merge(Take(n, a), Take(n, b))) == Take(n, Merge(a, b))
  {
    var a', b' := Take(n, a), Take(n, b);
    assert b'[1..] == Take(n - 1, b[1..]);
    TakeCons(n, b[0], Merge(a', b'[1..]));
    TakeCons(n, b[0], Merge(a, b[1..]));
  }

  // One more row of the other side in view changes nothing.
  lemma {:induction false} WiderWindow(n: nat, a: seq<int>, b: seq<int>)
    ensures Take(n, Merge(Take(n, a), Take(n + 1, b))) == Take(n, Merge(a, b))
    decreases n, 1
  {
    MergeWindow(n, a, b);
    MergeWindow(n, Take(n, a), Take(n + 1, b));
    assert Take(n, Take(n, a)) == Take(n, a) && Take(n, Take(n + 1, b)) == Take(n, b);
  }

  lemma {:induction false} WiderWindow2(n: nat, a: seq<int>, b: seq<int>)
    ensures Take(n, Merge(Take(n + 1, a), Take(n, b))) == Take(n, Merge(a, b))
    decreases n, 1
  {
    MergeWindow(n, a, b);
    MergeWindow(n, Take(n + 1, a), Take(n, b));
    assert Take(n, Take(n + 1, a)) == Take(n, a) && Take(n, Take(n, b)) == Take(n, b);
  }

  // ---- records ----

  lemma TimesAppend(a: seq<Record>, b: seq<Record>)
    ensures Times(a + b) == Times(a) + Times(b)
  {
  }

  lemma TimesTake(n: nat, s: seq<Record>)
    ensures Times(Take(n, s)) == Take(n, Times(s))
  {
  }

  lemma OneOut<T>(a: seq<T>, b: seq<T>, k: nat)
    requires a != [] && k < |b| && b[k] == a[0] && multiset(a) == multiset(b)
    ensures multiset(a[1..]) == multiset(b[..k] + b[k + 1..])
  {
    var u, v := b[..k], b[k + 1..];
    assert a == [a[0]] + a[1..] && b == u + ([b[k]] + v);
    assert multiset(b) == multiset(u) + (multiset{b[k]} + multiset(v));
    assert multiset(a) == multiset{a[0]} + multiset(a[1..]);
    assert multiset(u + v) == multiset(u) + multiset(v);
    assert multiset(a[1..]) == multiset(a) - multiset{a[0]};
  }

  lemma TimesOneOut(b: seq<Record>, k: nat)
    requires k < |b|
    ensures multiset(Times(b)) == multiset{b[k].time} + multiset(Times(b[..k] + b[k + 1..]))
  {
    var u, v := b[..k], b[k + 1..];
    assert b == u + ([b[k]] + v);
    TimesAppend(u, [b[k]] + v);
    TimesAppend(u, v);
    TimesAppend([b[k]], v);
    assert Times([b[k]]) == [b[k].time];
  }

  // Rearranging records rearranges their times.
  lemma {:induction false} TimesRearranged(a: seq<Record>, b: seq<Record>)
    requires multiset(a) == multiset(b)
    ensures multiset(Times(a)) == multiset(Times(b))
    decreases |a|
  {
    if a == [] {
      assert |b| == |multiset(b)| == |multiset(a)| == 0;
    } else {
      assert a[0] in multiset(b);
      var k :| 0 <= k < |b| && b[k] == a[0];
      OneOut(a, b, k);
      TimesRearranged(a[1..], b[..k] + b[k + 1..]);
      TimesOneOut(b, k);
      assert Times(a) == [a[0].time] + Times(a[1..]);
    }
  }

  // `full` holds these records, newest first; records of equal times come in any order.
  ghost predicate Arranged(full: seq<Record>, records: seq<Record>) {
    Descending(Times(full)) && multiset(full) == multiset(records)
  }

  lemma ArrangedTimes(full: seq<Record>, a: seq<Record>, b: seq<Record>)
    requires multiset(full) == multiset(a + b)
    ensures multiset(Times(full)) == multiset(Times(a)) + multiset(Times(b))
  {
    TimesRearranged(full, a + b);
    TimesAppend(a, b);
  }

  lemma MergeUnique(ts: seq<int>, a: seq<int>, b: seq<int>)
    requires Descending(a) && Descending(b) && Descending(ts) && multiset(ts) == multiset(a) + multiset(b)
    ensures ts == Merge(a, b)
  {
    MergeSorts(a, b, Merge(a, b));
    SortedUnique(ts, Merge(a, b));
  }

  lemma ArrangedIsMerge(full: seq<Record>, a: seq<Record>, b: seq<Record>)
    requires Descending(Times(a)) && Descending(Times(b)) && Arranged(full, a + b)
    ensures Times(full) == Merge(Times(a), Times(b))
  {
    ArrangedTimes(full, a, b);
    MergeUnique(Times(full), Times(a), Times(b));
  }

  lemma DescendingTake(n: nat, ts: seq<int>)
    requires Descending(ts)
    ensures Descending(Take(n, ts))
  {
  }

  // Main result: within the window, the bounded tiers give the times of the whole.
  lemma WindowSame(window: nat, hot: seq<Record>, cold: seq<Record>, merged: seq<Record>, full: seq<Record>)
    requires Descending(Times(hot)) && Descending(Times(cold))
    requires Arranged(merged, Take(window, hot) + Take(window, cold)) && Arranged(full, hot + cold)
    ensures Take(window, Times(merged)) == Take(window, Times(full))
  {
    TimesTake(window, hot);
    TimesTake(window, cold);
    DescendingTake(window, Times(hot));
    DescendingTake(window, Times(cold));
    ArrangedIsMerge(merged, Take(window, hot), Take(window, cold));
    ArrangedIsMerge(full, hot, cold);
    MergeWindow(window, Times(hot), Times(cold));
  }

  // ---- archived days are in order ----

  // A day's rows lie within the day, newest first.
  ghost predicate DayRows(rows: Rows) {
    forall d: Day :: Descending(Times(rows(d))) && forall i | 0 <= i < |rows(d)| ::
      d * DAY_SECONDS <= rows(d)[i].time < (d + 1) * DAY_SECONDS
  }

  lemma {:induction false} DaysDescending(rows: Rows, days: seq<Day>, top: Day)
    requires DayRows(rows) && (forall i, j | 0 <= i < j < |days| :: days[i] > days[j])
      && (days != [] ==> days[0] <= top)
    ensures Descending(Times(AllRows(rows, days)))
    ensures forall i | 0 <= i < |AllRows(rows, days)| :: AllRows(rows, days)[i].time < (top + 1) * DAY_SECONDS
    decreases |days|
  {
    if days != [] {
      var d, rest := days[0], AllRows(rows, days[1..]);
      if |days| > 1 {
        DaysDescending(rows, days[1..], days[1]);
        assert (days[1] + 1) * DAY_SECONDS <= d * DAY_SECONDS;
      }
      TimesAppend(rows(d), rest);
    }
  }
}
