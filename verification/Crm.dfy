/** Enriching rows with subscriber data: lookups are shared, batched and answered in any order, every row
    gets the answer to its own lookup and is counted once, and its evidence stays as it was.  */
module Crm {
  import opened Prelude

  datatype Status = Unset | Matched | NotFound | Ambiguous | Error | Insufficient

  datatype Result = Result(status: Status, person: nat)

  // `evidence` stands for every field of the record itself.
  datatype Row = Row(evidence: nat, reference: nat, status: Status, person: nat)

  // What a record says about its lookup: no local address, no time or address that can be read, or the
  // hash of the lookup and whether exactly one device fits.
  datatype Prep = NoLocalIp | Unreadable | Lookup(key: nat, known: bool)

  datatype Summary = Summary(matched: nat, notFound: nat, ambiguous: nat, failed: nat, cached: nat)

  function Normal(v: Result): Result {
    if v.status.Matched? || v.status.NotFound? || v.status.Ambiguous? then v else v.(status := Error)
  }

  function Apply(row: Row, v: Result): Row { row.(status := v.status, person := v.person) }

  // ---- batches ----

  // What the service knows, and which batches are sent and answered.
  datatype Service = Service(answer: nat -> Option<Result>, up: nat -> bool)

  function Flatten(batches: seq<seq<nat>>): seq<nat> {
    if batches == [] then [] else Flatten(batches[..|batches| - 1]) + batches[|batches| - 1]
  }

  lemma {:induction false} FlattenHas(batches: seq<seq<nat>>, r: nat)
    ensures r in Flatten(batches) <==> exists j :: 0 <= j < |batches| && r in batches[j]
    decreases |batches|
  {
    if batches != [] {
      var n := |batches| - 1;
      FlattenHas(batches[..n], r);
      if j :| 0 <= j < |batches| && r in batches[j] {
        if j < n { assert batches[..n][j] == batches[j]; }
      }
      if r in Flatten(batches[..n]) {
        var j :| 0 <= j < n && r in batches[..n][j];
        assert r in batches[j];
      }
    }
  }

  // The pending lookups, in order, cut into batches.
  method Split(refs: seq<nat>, size: nat) returns (batches: seq<seq<nat>>)
    requires size > 0
    ensures Flatten(batches) == refs && forall j | 0 <= j < |batches| :: 0 < |batches[j]| <= size
  {
    batches := [];
    var first := 0;
    while first < |refs|
      invariant first <= |refs| && Flatten(batches) == refs[..first]
      invariant forall j | 0 <= j < |batches| :: 0 < |batches[j]| <= size
    {
      var last := if first + size > |refs| then |refs| else first + size;
      ghost var was := batches;
      batches := batches + [refs[first..last]];
      assert batches[..|batches| - 1] == was;
      assert refs[..last] == refs[..first] + refs[first..last];
      first := last;
    }
    assert refs[..first] == refs;
  }

  // Answered by a batch of `done`.
  ghost predicate From(sv: Service, batches: seq<seq<nat>>, done: seq<nat>, r: nat) {
    sv.answer(r).Some? && exists j :: j in done && j < |batches| && sv.up(j) && r in batches[j]
  }

  ghost predicate Collected(sv: Service, batches: seq<seq<nat>>, done: seq<nat>, results: map<nat, Result>) {
    && (forall r :: r in results <==> From(sv, batches, done, r))
    && (forall r | r in results :: sv.answer(r) == Some(results[r]))
  }

  // One batch: a reply that names anything but its own lookups would have been refused.
  method Receive(sv: Service, batches: seq<seq<nat>>, j: nat, results: map<nat, Result>, ghost done: seq<nat>)
      returns (results': map<nat, Result>)
    requires j < |batches| && sv.up(j) && Collected(sv, batches, done, results)
    ensures Collected(sv, batches, done + [j], results')
  {
    var batch := batches[j];
    results' := results;
    for i := 0 to |batch|
      invariant forall r :: r in results' <==> From(sv, batches, done, r) || (sv.answer(r).Some? && r in batch[..i])
      invariant forall r | r in results' :: sv.answer(r) == Some(results'[r])
    {
      assert batch[..i + 1] == batch[..i] + [batch[i]];
      var v := sv.answer(batch[i]);
      if v.Some? { results' := results'[batch[i] := v.value]; }
    }
    assert batch[..|batch|] == batch;
  }

  // The workers finish their batches in any order.
  predicate OrderOf(order: seq<nat>, n: nat) {
    (forall i | 0 <= i < |order| :: order[i] < n) && forall j | 0 <= j < n :: j in order
  }

  method AskAll(sv: Service, batches: seq<seq<nat>>, order: seq<nat>) returns (results: map<nat, Result>)
    requires OrderOf(order, |batches|)
    ensures Collected(sv, batches, order, results)
  {
    results := map[];
    for i := 0 to |order|
      invariant Collected(sv, batches, order[..i], results)
    {
      assert order[..i + 1] == order[..i] + [order[i]];
      if sv.up(order[i]) {
        results := Receive(sv, batches, order[i], results, order[..i]);
      } else {
        forall r ensures From(sv, batches, order[..i + 1], r) <==> From(sv, batches, order[..i], r) { }
      }
    }
    assert order[..|order|] == order;
  }

  // Main result: as long as every batch comes through, neither the batch size nor the order matters.
  lemma AllAnswered(sv: Service, refs: seq<nat>, batches: seq<seq<nat>>, order: seq<nat>, results: map<nat, Result>)
    requires Flatten(batches) == refs && OrderOf(order, |batches|) && Collected(sv, batches, order, results)
    requires forall j: nat | j < |batches| :: sv.up(j)
    ensures forall r :: r in results <==> r in refs && sv.answer(r).Some?
    ensures forall r | r in results :: sv.answer(r) == Some(results[r])
  {
    forall r ensures r in results <==> r in refs && sv.answer(r).Some? {
      FlattenHas(batches, r);
      if r in refs && sv.answer(r).Some? {
        var j :| 0 <= j < |batches| && r in batches[j];
        assert j in order && sv.up(j);
        assert From(sv, batches, order, r);
      }
    }
  }

  // ---- counting ----

  function Count(st: seq<Status>, s: Status): nat {
    if st == [] then 0 else Count(st[..|st| - 1], s) + if st[|st| - 1] == s then 1 else 0
  }

  lemma {:induction false} CountSet(st: seq<Status>, k: nat, x: Status, s: Status)
    requires k < |st|
    ensures Count(st[k := x], s) + (if st[k] == s then 1 else 0) == Count(st, s) + if x == s then 1 else 0
    decreases |st|
  {
    var n := |st| - 1;
    if k < n {
      CountSet(st[..n], k, x, s);
      assert st[k := x][..n] == st[..n][k := x];
    } else {
      assert st[k := x][..n] == st[..n];
    }
  }

  lemma CountNext(st: seq<Status>, x: Status, s: Status)
    ensures Count(st + [x], s) == Count(st, s) + if x == s then 1 else 0
  {
    assert (st + [x])[..|st|] == st;
  }

  // The summary counts the rows that have their status.
  predicate Sums(sum: Summary, st: seq<Status>) {
    && sum.matched == Count(st, Matched) && sum.notFound == Count(st, NotFound) && sum.ambiguous == Count(st, Ambiguous)
    && sum.failed == Count(st, Error) + Count(st, Insufficient)
  }

  function Tally(sum: Summary, status: Status, n: nat): Summary {
    match status
    case Matched => sum.(matched := sum.matched + n)
    case NotFound => sum.(notFound := sum.notFound + n)
    case Ambiguous => sum.(ambiguous := sum.ambiguous + n)
    case _ => sum.(failed := sum.failed + n)
  }

  lemma SumsNext(sum: Summary, st: seq<Status>, x: Status, sum': Summary)
    requires Sums(sum, st) && sum' == if x == Unset then sum else Tally(sum, x, 1)
    ensures Sums(sum', st + [x])
  {
    CountNext(st, x, Matched);
    CountNext(st, x, NotFound);
    CountNext(st, x, Ambiguous);
    CountNext(st, x, Error);
    CountNext(st, x, Insufficient);
  }

  function Mark(st: seq<Status>, idxs: seq<nat>, x: Status): (r: seq<Status>)
    requires forall i | 0 <= i < |idxs| :: idxs[i] < |st|
    ensures |r| == |st|
  {
    if idxs == [] then st else Mark(st, idxs[1..], x)[idxs[0] := x]
  }

  predicate Distinct(idxs: seq<nat>) { forall i, j | 0 <= i < j < |idxs| :: idxs[i] != idxs[j] }

  lemma {:induction false} MarkAt(st: seq<Status>, idxs: seq<nat>, x: Status, k: nat)
    requires (forall i | 0 <= i < |idxs| :: idxs[i] < |st|) && k < |st|
    ensures Mark(st, idxs, x)[k] == if k in idxs then x else st[k]
    decreases |idxs|
  {
    if idxs != [] {
      MarkAt(st, idxs[1..], x, k);
      assert k in idxs <==> k == idxs[0] || k in idxs[1..];
    }
  }

  lemma {:induction false} CountMark(st: seq<Status>, idxs: seq<nat>, x: Status, s: Status)
    requires (forall i | 0 <= i < |idxs| :: idxs[i] < |st| && st[idxs[i]] == Unset) && Distinct(idxs) && s != Unset
      && x != Unset
    ensures Count(Mark(st, idxs, x), s) == Count(st, s) + if x == s then |idxs| else 0
    decreases |idxs|
  {
    if idxs != [] {
      CountMark(st, idxs[1..], x, s);
      MarkAt(st, idxs[1..], x, idxs[0]);
      CountSet(Mark(st, idxs[1..], x), idxs[0], x, s);
    }
  }

  lemma SumsMark(sum: Summary, st: seq<Status>, idxs: seq<nat>, x: Status)
    requires Sums(sum, st) && (forall i | 0 <= i < |idxs| :: idxs[i] < |st| && st[idxs[i]] == Unset)
      && Distinct(idxs) && x != Unset
    ensures Sums(Tally(sum, x, |idxs|), Mark(st, idxs, x))
  {
    CountMark(st, idxs, x, Matched);
    CountMark(st, idxs, x, NotFound);
    CountMark(st, idxs, x, Ambiguous);
    CountMark(st, idxs, x, Error);
    CountMark(st, idxs, x, Insufficient);
  }

  // Main result: the four counters of a finished summary add up to the rows.
  lemma {:induction false} SumsTotal(st: seq<Status>)
    requires forall k | 0 <= k < |st| :: st[k] != Unset
    ensures Count(st, Matched) + Count(st, NotFound) + Count(st, Ambiguous) + Count(st, Error)
      + Count(st, Insufficient) == |st|
    decreases |st|
  {
    if st != [] { SumsTotal(st[..|st| - 1]); }
  }

  predicate Failing(s: Status) { s == Error || s == Insufficient }

  // All rows failed, or none.
  lemma {:induction false} FailedCount(st: seq<Status>)
    ensures Count(st, Error) + Count(st, Insufficient) <= |st|
    ensures Count(st, Error) + Count(st, Insufficient) == |st| <==> forall k | 0 <= k < |st| :: Failing(st[k])
    ensures Count(st, Error) + Count(st, Insufficient) == 0 <==> forall k | 0 <= k < |st| :: !Failing(st[k])
    decreases |st|
  {
    if st != [] {
      var n := |st| - 1;
      FailedCount(st[..n]);
      assert forall k | 0 <= k < n :: st[..n][k] == st[k];
    }
  }

  // ---- rows ----

  // What is known when the rows are read: the lookup of each, and what the cache holds for it.
  datatype Input = Input(preps: seq<Prep>, cached: seq<Option<Result>>, refOf: nat -> nat)

  // Only normalized answers are ever cached.
  predicate InputOk(x: Input, n: nat) {
    |x.preps| == |x.cached| == n && forall k | 0 <= k < n && x.cached[k].Some? ::
      Normal(x.cached[k].value) == x.cached[k].value
  }

  // A row that starts a lookup.
  predicate Starts(x: Input, j: nat)
    requires j < |x.preps| == |x.cached|
  {
    x.preps[j].Lookup? && x.cached[j] == None && x.preps[j].known
  }

  function Asked(x: Input, i: nat): set<nat>
    requires i <= |x.preps| == |x.cached|
  {
    set j | 0 <= j < i && Starts(x, j) :: x.preps[j].key
  }

  // A row that starts a lookup, or shares one that an earlier row has started.
  predicate Waits(x: Input, k: nat)
    requires k < |x.preps| == |x.cached|
  {
    x.preps[k].Lookup? && x.cached[k] == None && (x.preps[k].known || x.preps[k].key in Asked(x, k))
  }

  function Answer(results: map<nat, Result>, ref: nat): Result {
    Normal(if ref in results then results[ref] else Result(Error, 0))
  }

  // What becomes of a row.
  function Enriched(x: Input, k: nat, row: Row, results: map<nat, Result>): Row
    requires k < |x.preps| == |x.cached|
  {
    match x.preps[k]
    case NoLocalIp => row.(status := Insufficient)
    case Unreadable => row.(status := Error)
    case Lookup(key, _) =>
      var row' := row.(reference := x.refOf(key));
      if x.cached[k].Some? then Apply(row', x.cached[k].value)
      else if Waits(x, k) then Apply(row', Answer(results, x.refOf(key)))
      else row'.(status := Ambiguous)
  }

  // The row as the first loop leaves it.
  function Read(x: Input, k: nat, row: Row): Row
    requires k < |x.preps| == |x.cached|
  {
    if Waits(x, k) then row.(reference := x.refOf(x.preps[k].key)) else Enriched(x, k, row, map[])
  }

  function Statuses(x: Input, rows: seq<Row>, i: nat): seq<Status>
    requires i <= |rows| == |x.preps| == |x.cached|
  {
    seq(i, k requires 0 <= k < i => if Waits(x, k) then Unset else Read(x, k, rows[k]).status)
  }

  function KeyOf(x: Input): nat -> nat { (k: nat) => if k < |x.preps| && x.preps[k].Lookup? then x.preps[k].key else 0 }

  function WaitOf(x: Input): nat -> bool { (k: nat) => k < |x.preps| == |x.cached| && Waits(x, k) }

  // The lookups cover exactly the first i rows that wait, each under its key.
  ghost predicate Covers(wait: nat -> bool, keyOf: nat -> nat, i: nat, pend: map<nat, seq<nat>>) {
    && (forall key | key in pend :: Distinct(pend[key]))
    && (forall key, a | key in pend && 0 <= a < |pend[key]| ::
       pend[key][a] < i && wait(pend[key][a]) && keyOf(pend[key][a]) == key)
    && (forall k: nat | k < i && wait(k) :: keyOf(k) in pend && k in pend[keyOf(k)])
  }

  ghost predicate Pending(x: Input, i: nat, pend: map<nat, seq<nat>>)
    requires i <= |x.preps| == |x.cached|
  {
    pend.Keys == Asked(x, i) && Covers(WaitOf(x), KeyOf(x), i, pend)
  }

  lemma AskedNext(x: Input, i: nat)
    requires i < |x.preps| == |x.cached|
    ensures Asked(x, i + 1) == Asked(x, i) + if Starts(x, i) then {x.preps[i].key} else {}
  {
  }

  lemma CoversJoins(wait: nat -> bool, keyOf: nat -> nat, i: nat, pend: map<nat, seq<nat>>, pend': map<nat, seq<nat>>)
    requires Covers(wait, keyOf, i, pend) && wait(i)
    requires pend' == pend[keyOf(i) := (if keyOf(i) in pend then pend[keyOf(i)] else []) + [i]]
    ensures Covers(wait, keyOf, i + 1, pend')
  {
    var key := keyOf(i);
    forall k: nat | k < i + 1 && wait(k) ensures keyOf(k) in pend' && k in pend'[keyOf(k)] {
      assert k < i ==> keyOf(k) in pend && k in pend[keyOf(k)];
    }
  }

  // A row that waits joins its lookup.
  lemma PendingJoins(x: Input, i: nat, pend: map<nat, seq<nat>>, pend': map<nat, seq<nat>>)
    requires i < |x.preps| == |x.cached| && Pending(x, i, pend) && Waits(x, i)
    requires var key := x.preps[i].key; pend' == pend[key := (if key in pend then pend[key] else []) + [i]]
    ensures Pending(x, i + 1, pend')
  {
    AskedNext(x, i);
    CoversJoins(WaitOf(x), KeyOf(x), i, pend, pend');
  }

  lemma PendingStays(x: Input, i: nat, pend: map<nat, seq<nat>>)
    requires i < |x.preps| == |x.cached| && Pending(x, i, pend) && !Waits(x, i)
    ensures Pending(x, i + 1, pend)
  {
    AskedNext(x, i);
  }

  // What the first loop makes of one row, and how it counts.
  lemma StatusesNext(x: Input, rows: seq<Row>, i: nat, sum: Summary, sum': Summary, s: Status)
    requires i < |rows| == |x.preps| == |x.cached| && Sums(sum, Statuses(x, rows, i))
    requires s == (if Waits(x, i) then Unset else Read(x, i, rows[i]).status)
    requires sum'.(cached := sum.cached) == if s == Unset then sum else Tally(sum, s, 1)
    ensures Sums(sum', Statuses(x, rows, i + 1))
  {
    assert Statuses(x, rows, i + 1) == Statuses(x, rows, i) + [s];
    SumsNext(sum, Statuses(x, rows, i), s, sum'.(cached := sum.cached));
  }

  method GatherRow(rows: array<Row>, x: Input, i: nat, pend: map<nat, seq<nat>>, sum: Summary)
      returns (pend': map<nat, seq<nat>>, sum': Summary, ghost s: Status)
    requires InputOk(x, rows.Length) && i < rows.Length && Pending(x, i, pend)
    modifies rows
    ensures rows[i] == Read(x, i, old(rows[i])) && forall k | 0 <= k < rows.Length && k != i :: rows[k] == old(rows[k])
    ensures Pending(x, i + 1, pend') && s == (if Waits(x, i) then Unset else rows[i].status)
    ensures sum'.(cached := sum.cached) == if s == Unset then sum else Tally(sum, s, 1)
  {
    pend', sum' := pend, sum;
    if x.preps[i].NoLocalIp? {
      rows[i] := rows[i].(status := Insufficient);
      sum' := Tally(sum, Insufficient, 1);
    } else if x.preps[i].Unreadable? {
      rows[i] := rows[i].(status := Error);
      sum' := Tally(sum, Error, 1);
    } else {
      var key := x.preps[i].key;
      rows[i] := rows[i].(reference := x.refOf(key));
      if x.cached[i].Some? {
        rows[i] := Apply(rows[i], x.cached[i].value);
        sum' := Tally(sum, x.cached[i].value.status, 1).(cached := sum.cached + 1);
      } else if key in pend {
        pend' := pend[key := pend[key] + [i]];
      } else if !x.preps[i].known {
        rows[i] := rows[i].(status := Ambiguous);
        sum' := Tally(sum, Ambiguous, 1);
      } else {
        assert [] + [i] == [i];
        pend' := pend[key := [i]];
      }
    }
    s := if Waits(x, i) then Unset else rows[i].status;
    if Waits(x, i) { PendingJoins(x, i, pend, pend'); } else { PendingStays(x, i, pend); }
  }

  // The loop over the rows: what can be said at once is said and counted, the rest waits for its lookup.
  method Gather(rows: array<Row>, x: Input) returns (pend: map<nat, seq<nat>>, sum: Summary)
    requires InputOk(x, rows.Length)
    modifies rows
    ensures forall k | 0 <= k < rows.Length :: rows[k] == Read(x, k, old(rows[k]))
    ensures Pending(x, rows.Length, pend) && Sums(sum, Statuses(x, old(rows[..]), rows.Length))
  {
    pend, sum := map[], Summary(0, 0, 0, 0, 0);
    ghost var was := rows[..];
    for i := 0 to rows.Length
      invariant forall k | 0 <= k < i :: rows[k] == Read(x, k, was[k])
      invariant forall k | i <= k < rows.Length :: rows[k] == was[k]
      invariant Pending(x, i, pend) && Sums(sum, Statuses(x, was, i))
    {
      ghost var before, s := sum, Unset;
      pend, sum, s := GatherRow(rows, x, i, pend, sum);
      StatusesNext(x, was, i, before, sum, s);
    }
  }

  // ---- the answers ----

  method Fill(rows: array<Row>, idxs: seq<nat>, v: Result)
    requires forall a | 0 <= a < |idxs| :: idxs[a] < rows.Length
    modifies rows
    ensures forall k | 0 <= k < rows.Length :: rows[k] == if k in idxs then Apply(old(rows[k]), v) else old(rows[k])
  {
    for a := 0 to |idxs|
      invariant forall k | 0 <= k < rows.Length ::
        rows[k] == if k in idxs[..a] then Apply(old(rows[k]), v) else old(rows[k])
    {
      assert idxs[..a + 1] == idxs[..a] + [idxs[a]];
      rows[idxs[a]] := Apply(rows[idxs[a]], v);
    }
    assert idxs[..|idxs|] == idxs;
  }

  // Row k still waits for one of these lookups.
  predicate Left(x: Input, todo: set<nat>, k: nat)
    requires k < |x.preps| == |x.cached|
  {
    Waits(x, k) && x.preps[k].key in todo
  }

  // Every row is as it was read while its lookup is to do, and as it should be from then on.
  predicate Partway(x: Input, was: seq<Row>, results: map<nat, Result>, todo: set<nat>, rows: seq<Row>, st: seq<Status>)
    requires |was| == |rows| == |st| == |x.preps| == |x.cached|
  {
    forall k | 0 <= k < |rows| ::
      if Left(x, todo, k) then rows[k] == Read(x, k, was[k]) && st[k] == Unset
      else rows[k] == Enriched(x, k, was[k], results) && st[k] == rows[k].status
  }

  lemma PartwayNext(x: Input, was: seq<Row>, results: map<nat, Result>, todo: set<nat>, rows: seq<Row>,
                    st: seq<Status>, key: nat,
                    idxs: seq<nat>, v: Result, rows': seq<Row>, st': seq<Status>)
    requires |was| == |rows| == |st| == |rows'| == |st'| == |x.preps| == |x.cached|
      && Partway(x, was, results, todo, rows, st) && key in todo
    requires v == Answer(results, x.refOf(key))
      && forall k: nat | k < |rows| :: k in idxs <==> Waits(x, k) && x.preps[k].key == key
    requires forall k | 0 <= k < |rows| ::
      rows'[k] == (if k in idxs then Apply(rows[k], v) else rows[k]) && st'[k] == if k in idxs then v.status else st[k]
    ensures Partway(x, was, results, todo - {key}, rows', st')
  {
    forall k | 0 <= k < |rows|
      ensures if Left(x, todo - {key}, k) then rows'[k] == Read(x, k, was[k]) && st'[k] == Unset
              else rows'[k] == Enriched(x, k, was[k], results) && st'[k] == rows'[k].status
    {
      assert Left(x, todo, k) <==> Left(x, todo - {key}, k) || k in idxs;
    }
  }

  // One lookup: its answer goes to all rows that share it, and is counted once for each.
  method SettleOne(rows: array<Row>, x: Input, key: nat, idxs: seq<nat>, results: map<nat, Result>, sum: Summary,
                   ghost was: seq<Row>, ghost todo: set<nat>, ghost st: seq<Status>)
    returns (sum': Summary, ghost st': seq<Status>)
    requires |was| == |st| == rows.Length == |x.preps| == |x.cached| && Partway(x, was, results, todo, rows[..], st)
      && Sums(sum, st) && key in todo
    requires Distinct(idxs) && (forall k: nat | k < rows.Length :: k in idxs <==> Waits(x, k) && x.preps[k].key == key)
    requires forall a | 0 <= a < |idxs| :: idxs[a] < rows.Length
    modifies rows
    ensures |st'| == rows.Length && Partway(x, was, results, todo - {key}, rows[..], st') && Sums(sum', st')
  {
    var v := Answer(results, x.refOf(key));
    ghost var before := rows[..];
    forall a | 0 <= a < |idxs| ensures st[idxs[a]] == Unset { assert Left(x, todo, idxs[a]); }
    Fill(rows, idxs, v);
    sum' := Tally(sum, v.status, |idxs|);
    SumsMark(sum, st, idxs, v.status);
    st' := Mark(st, idxs, v.status);
    forall k | 0 <= k < rows.Length
      ensures st'[k] == if k in idxs then v.status else st[k]
    {
      MarkAt(st, idxs, v.status, k);
    }
    PartwayNext(x, was, results, todo, before, st, key, idxs, v, rows[..], st');
  }

  method Settle(rows: array<Row>, x: Input, pend: map<nat, seq<nat>>, results: map<nat, Result>, sum: Summary,
                ghost was: seq<Row>)
    returns (sum': Summary)
    requires InputOk(x, rows.Length) && |was| == rows.Length && Pending(x, rows.Length, pend)
      && Sums(sum, Statuses(x, was, rows.Length))
    requires forall k | 0 <= k < rows.Length :: rows[k] == Read(x, k, was[k])
    modifies rows
    ensures forall k | 0 <= k < rows.Length :: rows[k] == Enriched(x, k, was[k], results)
    ensures Sums(sum', StatusesOf(rows[..])) && forall k | 0 <= k < rows.Length :: rows[k].status != Unset
  {
    sum' := sum;
    var todo := pend.Keys;
    ghost var st := Statuses(x, was, rows.Length);
    NoneLeft(x, rows.Length, pend);
    while todo != {}
      invariant todo <= pend.Keys && |st| == rows.Length && Partway(x, was, results, todo, rows[..], st)
        && Sums(sum', st)
      decreases |todo|
    {
      var key :| key in todo;
      IdxsOf(x, rows.Length, pend, key);
      sum', st := SettleOne(rows, x, key, pend[key], results, sum', was, todo, st);
      todo := todo - {key};
    }
    assert forall k | 0 <= k < rows.Length :: !Left(x, todo, k);
    assert st == StatusesOf(rows[..]);
  }

  function StatusesOf(rows: seq<Row>): seq<Status> { seq(|rows|, k requires 0 <= k < |rows| => rows[k].status) }

  lemma NoneLeft(x: Input, n: nat, pend: map<nat, seq<nat>>)
    requires n == |x.preps| == |x.cached| && Pending(x, n, pend)
    ensures forall k | 0 <= k < n && Waits(x, k) :: Left(x, pend.Keys, k)
  {
    forall k | 0 <= k < n && Waits(x, k)
      ensures x.preps[k].key in pend
    {
      assert WaitOf(x)(k) && KeyOf(x)(k) == x.preps[k].key;
    }
  }

  lemma IdxsOf(x: Input, n: nat, pend: map<nat, seq<nat>>, key: nat)
    requires n == |x.preps| == |x.cached| && Pending(x, n, pend) && key in pend
    ensures Distinct(pend[key]) && (forall a | 0 <= a < |pend[key]| :: pend[key][a] < n)
    ensures forall k: nat | k < n :: k in pend[key] <==> Waits(x, k) && x.preps[k].key == key
  {
    forall k: nat | k < n ensures k in pend[key] <==> Waits(x, k) && x.preps[k].key == key {
      if Waits(x, k) && x.preps[k].key == key { assert WaitOf(x)(k) && KeyOf(x)(k) == key; }
    }
  }

  // ---- the whole enrichment ----

  // The lookups in some order, which is the sorted one in particular.
  method Order(pend: map<nat, seq<nat>>, refOf: nat -> nat) returns (refs: seq<nat>)
    ensures |refs| == |pend| && forall r :: r in refs <==> exists key :: key in pend && refOf(key) == r
  {
    refs := [];
    var todo := pend.Keys;
    while todo != {}
      invariant todo <= pend.Keys && |refs| + |todo| == |pend.Keys|
      invariant forall r :: r in refs <==> exists key :: key in pend && key !in todo && refOf(key) == r
      decreases |todo|
    {
      var key :| key in todo;
      refs, todo := refs + [refOf(key)], todo - {key};
    }
  }

  datatype Outcome = Complete | Partial | Unavailable

  // What the answers rest on: batches of at most `size` that make up the lookups of the waiting rows.
  ghost predicate Basis(x: Input, sv: Service, size: nat, order: nat -> seq<nat>, batches: seq<seq<nat>>,
                        results: map<nat, Result>)
    requires |x.preps| == |x.cached|
  {
    && (forall r :: r in Flatten(batches) <==> exists key :: key in Asked(x, |x.preps|) && x.refOf(key) == r)
    && (forall j | 0 <= j < |batches| :: 0 < |batches[j]| <= size)
    && Collected(sv, batches, order(|batches|), results)
  }

  method Ask(x: Input, pend: map<nat, seq<nat>>, sv: Service, size: nat, order: nat -> seq<nat>)
    returns (results: map<nat, Result>, ghost batches: seq<seq<nat>>)
    requires |x.preps| == |x.cached| && pend.Keys == Asked(x, |x.preps|) && size > 0
      && forall n: nat :: OrderOf(order(n), n)
    ensures Basis(x, sv, size, order, batches, results)
  {
    var refs := Order(pend, x.refOf);
    var bs := Split(refs, size);
    results := AskAll(sv, bs, order(|bs|));
    batches := bs;
  }

  // A lookup is answered well if its batch came through and the service knows it.
  ghost predicate AnsweredWell(sv: Service, batches: seq<seq<nat>>, ref: nat) {
    && (exists j: nat :: j < |batches| && sv.up(j) && ref in batches[j])
    && sv.answer(ref).Some? && !Failing(Normal(sv.answer(ref).value).status)
  }

  // A row fails if it has no lookup, if what is cached for it failed, or if it waits for a lookup that is not
  // answered well.
  ghost predicate RowFails(x: Input, k: nat, sv: Service, batches: seq<seq<nat>>)
    requires k < |x.preps| == |x.cached|
  {
    match x.preps[k]
    case NoLocalIp => true
    case Unreadable => true
    case Lookup(key, _) =>
      if x.cached[k].Some? then Failing(x.cached[k].value.status)
      else Waits(x, k) && !AnsweredWell(sv, batches, x.refOf(key))
  }

  lemma RowFailsIff(x: Input, k: nat, sv: Service, size: nat, order: nat -> seq<nat>, batches: seq<seq<nat>>,
                    results: map<nat, Result>, row: Row)
    requires k < |x.preps| == |x.cached| && Basis(x, sv, size, order, batches, results)
      && OrderOf(order(|batches|), |batches|)
    ensures Failing(Enriched(x, k, row, results).status) <==> RowFails(x, k, sv, batches)
  {
    if x.preps[k].Lookup? {
      var ref, done := x.refOf(x.preps[k].key), order(|batches|);
      assert ref in results <==> From(sv, batches, done, ref);
      assert From(sv, batches, done, ref) <==> sv.answer(ref).Some? && exists j: nat ::
        j < |batches| && sv.up(j) && ref in batches[j];
    }
  }

  // A row starts the lookup, or an earlier one has.
  predicate Sought(x: Input, k: nat, key: nat)
    requires k < |x.preps| == |x.cached|
  {
    exists j: nat :: j <= k && x.preps[j].Lookup? && x.cached[j] == None && x.preps[j].known && x.preps[j].key == key
  }

  // What a row gets from its own lookup.  The evidence stays in every case.
  ghost predicate Gets(x: Input, k: nat, sv: Service, batches: seq<seq<nat>>, was: Row, row: Row)
    requires k < |x.preps| == |x.cached|
  {
    match x.preps[k]
    case NoLocalIp => row == Row(was.evidence, was.reference, Insufficient, was.person)
    case Unreadable => row == Row(was.evidence, was.reference, Error, was.person)
    case Lookup(key, _) =>
      var ref := x.refOf(key);
      match x.cached[k]
      case Some(v) => row == Row(was.evidence, ref, v.status, v.person)
      case None =>
        if !Sought(x, k, key) then row == Row(was.evidence, ref, Ambiguous, was.person)
        else if sv.answer(ref).Some? && exists j: nat :: j < |batches| && sv.up(j) && ref in batches[j] then
          var v := sv.answer(ref).value;
          row == Row(was.evidence, ref, if v.status in {Matched, NotFound, Ambiguous} then v.status
            else Error, v.person)
        else row == Row(was.evidence, ref, Error, 0)
  }

  lemma RowGets(x: Input, k: nat, sv: Service, size: nat, order: nat -> seq<nat>, batches: seq<seq<nat>>,
                results: map<nat, Result>, was: Row)
    requires k < |x.preps| == |x.cached| && Basis(x, sv, size, order, batches, results)
      && OrderOf(order(|batches|), |batches|)
    ensures Gets(x, k, sv, batches, was, Enriched(x, k, was, results))
  {
    if x.preps[k].Lookup? && x.cached[k] == None {
      var key, done := x.preps[k].key, order(|batches|);
      var ref := x.refOf(key);
      assert Waits(x, k) <==> Sought(x, k, key);
      assert ref in results <==> From(sv, batches, done, ref);
      assert From(sv, batches, done, ref) <==>
        sv.answer(ref).Some? && exists j: nat :: j < |batches| && sv.up(j) && ref in batches[j];
    }
  }

  // What a result is called: unavailable if lookups were pending and every row failed, complete if none did.
  ghost predicate Called(x: Input, n: nat, sv: Service, batches: seq<seq<nat>>, outcome: Outcome)
    requires n == |x.preps| == |x.cached|
  {
    && (outcome.Unavailable? <==> Asked(x, n) != {} && forall k | 0 <= k < n :: RowFails(x, k, sv, batches))
    && (outcome.Complete? <==> forall k | 0 <= k < n :: !RowFails(x, k, sv, batches))
  }

  // Main result: every row keeps its evidence and becomes what its own lookup and the answers say, the
  // counters are the numbers of rows with each status, and they add up to all rows.
  method EnrichRows(rows: array<Row>, x: Input, listed: bool, sv: Service, size: nat, order: nat -> seq<nat>)
    returns (sum: Summary, outcome: Outcome, ghost batches: seq<seq<nat>>, ghost results: map<nat, Result>)
    requires InputOk(x, rows.Length) && size > 0 && forall n: nat :: OrderOf(order(n), n)
    modifies rows
    ensures sum.matched + sum.notFound + sum.ambiguous + sum.failed == rows.Length
    ensures forall k | 0 <= k < rows.Length :: rows[k].evidence == old(rows[k]).evidence
    ensures !listed && rows.Length > 0 ==>
      sum.failed == rows.Length && outcome.Unavailable? && rows[..] == old(rows[..])
    ensures listed ==> Basis(x, sv, size, order, batches, results) && Sums(sum, StatusesOf(rows[..]))
    ensures listed ==> forall k | 0 <= k < rows.Length :: Gets(x, k, sv, batches, old(rows[k]), rows[k])
    ensures listed ==> Called(x, rows.Length, sv, batches, outcome)
  {
    if listed {
      sum, outcome, batches, results := EnrichListed(rows, x, sv, size, order);
      forall k | 0 <= k < rows.Length ensures Gets(x, k, sv, batches, old(rows[k]), rows[k]) {
        RowGets(x, k, sv, size, order, batches, results, old(rows[k]));
      }
    } else {
      batches, results := [], map[];
      sum, outcome := Summary(0, 0, 0, 0, 0), Complete;
      if rows.Length > 0 { sum, outcome := sum.(failed := rows.Length), Unavailable; }
    }
  }

  method EnrichListed(rows: array<Row>, x: Input, sv: Service, size: nat, order: nat -> seq<nat>)
    returns (sum: Summary, outcome: Outcome, ghost batches: seq<seq<nat>>, ghost results: map<nat, Result>)
    requires InputOk(x, rows.Length) && size > 0 && forall n: nat :: OrderOf(order(n), n)
    modifies rows
    ensures Basis(x, sv, size, order, batches, results) && Sums(sum, StatusesOf(rows[..]))
    ensures forall k | 0 <= k < rows.Length :: rows[k] == Enriched(x, k, old(rows[k]), results)
    ensures sum.matched + sum.notFound + sum.ambiguous + sum.failed == rows.Length
    ensures Called(x, rows.Length, sv, batches, outcome)
  {
    ghost var was := rows[..];
    var pend, got;
    pend, sum := Gather(rows, x);
    got, batches := Ask(x, pend, sv, size, order);
    results := got;
    sum := Settle(rows, x, pend, got, sum, was);
    Totals(sum, StatusesOf(rows[..]));
    RowsFail(x, sv, size, order, batches, results, was, rows[..], sum);
    outcome := if |pend| > 0 && sum.failed == rows.Length then Unavailable else if sum.failed > 0 then Partial
      else Complete;
  }

  lemma RowsFail(x: Input, sv: Service, size: nat, order: nat -> seq<nat>, batches: seq<seq<nat>>,
                 results: map<nat, Result>,
                 was: seq<Row>, rows: seq<Row>, sum: Summary)
    requires |x.preps| == |x.cached| == |was| == |rows| && Basis(x, sv, size, order, batches, results)
    requires OrderOf(order(|batches|), |batches|) && Sums(sum, StatusesOf(rows))
    requires forall k | 0 <= k < |rows| :: rows[k] == Enriched(x, k, was[k], results)
    ensures sum.failed == |rows| <==> forall k | 0 <= k < |rows| :: RowFails(x, k, sv, batches)
    ensures sum.failed == 0 <==> forall k | 0 <= k < |rows| :: !RowFails(x, k, sv, batches)
  {
    var st := StatusesOf(rows);
    FailedCount(st);
    forall k | 0 <= k < |rows| ensures Failing(st[k]) <==> RowFails(x, k, sv, batches) {
      RowFailsIff(x, k, sv, size, order, batches, results, was[k]);
    }
  }

  // False of the code: "a result in which every row failed is called unavailable".  A row without a local
  // address fails, no lookup is pending, and the outcome is called partial.
  method AllFailedPartial() returns (rows: array<Row>, sum: Summary, outcome: Outcome)
    ensures rows.Length == 1 && sum.failed == rows.Length && outcome.Partial?
  {
    rows := new Row[1](_ => Row(0, 0, Unset, 0));
    var x, sv := Input([NoLocalIp], [None], k => k), Service(r => None, j => true);
    ghost var batches, results;
    assert Asked(x, 1) == {};
    forall n: nat ensures OrderOf(Ascending(n), n) { AscendingOrder(n); }
    sum, outcome, batches, results := EnrichRows(rows, x, true, sv, 1, Ascending);
    assert RowFails(x, 0, sv, batches);
    var st := StatusesOf(rows[..]);
    assert st == [Insufficient];
    FailedCount(st);
  }

  function Ascending(n: nat): seq<nat> { seq(n, i => i) }

  lemma AscendingOrder(n: nat)
    ensures OrderOf(Ascending(n), n)
  {
    forall j | 0 <= j < n ensures j in Ascending(n) { assert Ascending(n)[j] == j; }
  }

  lemma Totals(sum: Summary, st: seq<Status>)
    requires Sums(sum, st) && forall k | 0 <= k < |st| :: st[k] != Unset
    ensures sum.matched + sum.notFound + sum.ambiguous + sum.failed == |st|
  {
    SumsTotal(st);
  }

  // ---- the cache ----

  const CACHE_MAX := 50_000

  datatype Cached = Cached(result: Result, expires: int)

  class Cache {
    var entries: map<nat, Cached>

    constructor ()
      ensures entries == map[]
    {
      entries := map[];
    }

    // Main result: the cache never exceeds its cap.  Nothing is removed below the cap; at the cap expired
    // entries go, and live ones only until a tenth is free.
    method Put(key: nat, result: Result, now: int)
      requires |entries| <= CACHE_MAX
      modifies this
      ensures |entries| <= 50_000 && key in entries
        && entries[key] == Cached(result, now + (if result.status.Matched? then 900_000_000_000 else 120_000_000_000))
      ensures forall k | k in entries && k != key :: k in old(entries) && entries[k] == old(entries)[k]
      ensures |old(entries)| < 50_000 ==> entries == old(entries)[key := entries[key]]
      ensures |old(entries)| == 50_000 ==>
        |entries| <= 45_000 && forall k | k in entries && k != key :: now <= entries[k].expires
      ensures (exists k :: k in old(entries) && k !in entries && now <= old(entries)[k].expires) ==>
        |entries| >= 44_999
    {
      if |entries| >= CACHE_MAX {
        DropExpired(now);
        DropSome();
      }
      assert (entries[key := Cached(result, now + Ttl(result))]).Keys == entries.Keys + {key};
      entries := entries[key := Cached(result, now + Ttl(result))];
    }

    method DropExpired(now: int)
      modifies this
      ensures entries == map k | k in old(entries) && now <= old(entries)[k].expires :: old(entries)[k]
      ensures |entries| <= |old(entries)|
    {
      entries := map k | k in entries && now <= entries[k].expires :: entries[k];
      SubsetSmaller(entries.Keys, old(entries).Keys);
    }

    // Which entries go is up to the map's order.
    method DropSome()
      modifies this
      ensures entries.Keys <= old(entries).Keys && forall k | k in entries :: entries[k] == old(entries)[k]
      ensures |entries| < CACHE_MAX * 9 / 10 && (entries != old(entries) ==> |entries| == CACHE_MAX * 9 / 10 - 1)
    {
      while |entries| >= CACHE_MAX * 9 / 10
        invariant entries.Keys <= old(entries).Keys && forall k | k in entries :: entries[k] == old(entries)[k]
        invariant entries != old(entries) ==> |entries| >= CACHE_MAX * 9 / 10 - 1
        decreases |entries|
      {
        assert |entries.Keys| > 0;
        var k :| k in entries;
        assert (entries - {k}).Keys == entries.Keys - {k};
        entries := entries - {k};
      }
    }
  }

  // Matches live for fifteen minutes, other answers for two.
  function Ttl(v: Result): int { (if v.status.Matched? then 15 else 2) * 60 * 1_000_000_000 }
}
