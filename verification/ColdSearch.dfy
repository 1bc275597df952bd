/** Search over hot storage and archived days.  Only a bounded window of each tier is read; the page
    shown is nevertheless the page of everything, merged and sorted by time.  */
module ColdSearch {
  import opened Prelude

  const SEARCH_LIMIT := 5000
  const COUNT_CAP := 100000
  const DAY_SECONDS := 86400

  datatype Record = Record(time: int, data: nat)

  // Days are numbered; their written form YYYY-MM-DD sorts the same way.
  type Day = nat

  // ---- walking archived days, newest first ----

  // What one archived day holds, and what a query for at most n of its rows returns.
  type Rows = Day -> seq<Record>
  type Query = (Day, nat) -> Option<seq<Record>>

  ghost predicate Honest(query: Query, rows: Rows) {
    forall d, n: nat | query(d, n).Some? :: query(d, n).value == Take(n, rows(d))
  }

  function AllRows(rows: Rows, days: seq<Day>): seq<Record> {
    if days == [] then [] else rows(days[0]) + AllRows(rows, days[1..])
  }

  predicate Newest(days: seq<Day>) {
    forall i, j | 0 <= i < j < |days| :: days[i] >= days[j]
  }

  // ---- sorting, largest key first ----

  predicate Sorted<T>(s: seq<T>, key: T -> int) {
    forall i, j | 0 <= i < j < |s| :: key(s[i]) >= key(s[j])
  }

  lemma InsertedOrder<T>(s: seq<T>, key: T -> int, i: nat, x: T, r: seq<T>)
    requires i <= |s| && Sorted(s, key) && (forall k | 0 <= k < i :: key(s[k]) >= key(x))
      && (i < |s| ==> key(s[i]) <= key(x))
    requires r == s[..i] + [x] + s[i..]
    ensures Sorted(r, key)
  {
    forall j, k | 0 <= j < k < |r| ensures key(r[j]) >= key(r[k]) {
      assert r[j] == if j < i then s[j] else if j == i then x else s[j - 1];
      assert r[k] == if k < i then s[k] else if k == i then x else s[k - 1];
    }
  }

  lemma InsertedCount<T>(s: seq<T>, i: nat, x: T, r: seq<T>)
    requires i <= |s| && r == s[..i] + [x] + s[i..]
    ensures multiset(r) == multiset(s) + multiset{x}
  {
    assert s == s[..i] + s[i..];
  }

  method Insert<T>(s: seq<T>, key: T -> int, x: T) returns (r: seq<T>)
    requires Sorted(s, key)
    ensures Sorted(r, key) && multiset(r) == multiset(s) + multiset{x}
  {
    var i := 0;
    while i < |s| && key(s[i]) >= key(x)
      invariant i <= |s| && forall k | 0 <= k < i :: key(s[k]) >= key(x)
    {
      i := i + 1;
    }
    r := s[..i] + [x] + s[i..];
    InsertedOrder(s, key, i, x, r);
    InsertedCount(s, i, x, r);
  }

  method Sort<T>(s: seq<T>, key: T -> int) returns (r: seq<T>)
    ensures Sorted(r, key) && multiset(r) == multiset(s)
  {
    r := [];
    for i := 0 to |s|
      invariant Sorted(r, key) && multiset(r) == multiset(s[..i])
    {
      assert s[..i + 1] == s[..i] + [s[i]];
      r := Insert(r, key, s[i]);
    }
    assert s[..|s|] == s;
  }

  // Reads day after day and stops as soon as the window is full.
  method WalkSorted(days: seq<Day>, limit: nat, query: Query, ghost rows: Rows)
      returns (out: seq<Record>, scanned: nat, capped: bool, failed: bool)
    requires Honest(query, rows) && limit > 0
    ensures !failed ==> out == Take(limit, AllRows(rows, days)) && (capped <==> |AllRows(rows, days)| >= limit)
    ensures failed ==> exists d, n: nat :: d in days && query(d, n) == None
    ensures scanned <= |days| && (!failed && !capped ==> scanned == |days|)
    ensures scanned > 0 ==> |AllRows(rows, days[..scanned - 1])| < limit
  {
    out, scanned, capped, failed := [], 0, false, false;
    ghost var all := AllRows(rows, days);
    while scanned < |days|
      invariant scanned <= |days| && |out| < limit && all == out + AllRows(rows, days[scanned..])
        && out == AllRows(rows, days[..scanned])
      invariant scanned > 0 ==> |AllRows(rows, days[..scanned - 1])| < limit
    {
      ghost var full, rest := rows(days[scanned]), AllRows(rows, days[scanned + 1..]);
      StepDay(rows, days, scanned);
      var part := query(days[scanned], limit - |out|);
      scanned := scanned + 1;
      if part == None { failed := true; return; }
      Filled(limit, out, full, rest);
      if |out + part.value| >= limit {
        out, capped := (out + part.value)[..limit], true;
        return;
      }
      out := out + part.value;
    }
  }

  // A day cut to the rows still wanted fills the window as the whole day would.
  lemma Filled<T>(limit: nat, out: seq<T>, full: seq<T>, rest: seq<T>)
    requires |out| < limit
    ensures var part := Take(limit - |out|, full);
      if |out + part| >= limit then (out + part)[..limit] == Take(limit, out + (full + rest))
        else part == full && out + (full + rest) == (out + part) + rest
  {
    TakeAppend(limit, out, full + rest);
    TakeAppend(limit - |out|, full, rest);
  }

  // Newest days first.
  method WalkColdDays(days: seq<Day>, limit: nat, query: Query, ghost rows: Rows)
    returns (out: seq<Record>, scanned: nat, capped: bool, failed: bool, ordered: seq<Day>)
    requires Honest(query, rows)
    ensures Newest(ordered) && multiset(ordered) == multiset(days)
    ensures !failed ==>
      out == Take(limit, AllRows(rows, ordered))
      && (capped <==> 0 < limit <= |AllRows(rows, ordered)|)
    ensures failed ==> exists d, n: nat :: d in days && query(d, n) == None
    ensures limit > 0 && !failed && !capped ==> scanned == |ordered|
  {
    var key := (d: Day) => d as int;
    ordered := Sort(days, key);
    assert forall i | 0 <= i < |ordered| :: key(ordered[i]) == ordered[i];
    out, scanned, capped, failed := [], 0, false, false;
    if limit > 0 {
      out, scanned, capped, failed := WalkSorted(ordered, limit, query, rows);
      if failed {
        ghost var d, n: nat :| d in ordered && query(d, n) == None;
        assert d in multiset(ordered);
      }
    }
  }

  lemma StepDay(rows: Rows, days: seq<Day>, i: nat)
    requires i < |days|
    ensures AllRows(rows, days[i..]) == rows(days[i]) + AllRows(rows, days[i + 1..])
    ensures AllRows(rows, days[..i + 1]) == AllRows(rows, days[..i]) + rows(days[i])
  {
    assert days[i..][1..] == days[i + 1..];
    AppendDay(rows, days[..i], days[i]);
    assert days[..i + 1] == days[..i] + [days[i]];
  }

  lemma {:induction false} AppendDay(rows: Rows, days: seq<Day>, d: Day)
    ensures AllRows(rows, days + [d]) == AllRows(rows, days) + rows(d)
    decreases |days|
  {
    if days == [] {
      assert [d][1..] == [];
    } else {
      AppendDay(rows, days[1..], d);
      assert (days + [d])[1..] == days[1..] + [d];
    }
  }
}
