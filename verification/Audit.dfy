/** The query audit log: each entry's hash covers its text and the hash before it.  */
module Audit {

  // The hashed fields of an entry in their written form and order: user, tenant, address, port,
  // protocol, from, to, result count, case, time of creation.  The identifier is not hashed.
  datatype Entry = Entry(id: nat, fields: seq<string>, prevHash: string, rowHash: string)

  type Hash = string -> string

  predicate Free(s: string) { '|' !in s }

  // Distinct texts have distinct hashes; a hash is written in hexadecimal digits.
  ghost predicate CollisionFree(h: Hash) {
    (forall a, b :: h(a) == h(b) ==> a == b) && (forall a :: h(a) != "" && Free(h(a)))
  }

  function Join(fields: seq<string>): string
    requires fields != []
  {
    if |fields| == 1 then fields[0] else fields[0] + "|" + Join(fields[1..])
  }

  function Text(fields: seq<string>, previous: string): string
    requires fields != []
  {
    "yeslogs-audit-v1|" + (previous + "|" + Join(fields))
  }

  lemma TextKnown()
    ensures Text(["ann", "", "7"], "c0ffee") == "yeslogs-audit-v1|c0ffee|ann||7"
    ensures Text(["ann"], "") == "yeslogs-audit-v1||ann"
  {
    assert ["ann", "", "7"][1..] == ["", "7"] && ["", "7"][1..] == ["7"];
  }

  function AuditHash(h: Hash, fields: seq<string>, previous: string): string
    requires fields != []
  {
    h(Text(fields, previous))
  }

  predicate Wellformed(log: seq<Entry>) { forall i | 0 <= i < |log| :: log[i].fields != [] }

  function Previous(log: seq<Entry>, i: nat): string {
    if i + 1 < |log| then log[i + 1].rowHash else ""
  }

  // Entry i, newest first, is linked to the one before it.
  predicate Linked(h: Hash, log: seq<Entry>, i: nat)
    requires i < |log| && log[i].fields != []
  {
    log[i].prevHash == Previous(log, i) && log[i].rowHash == AuditHash(h, log[i].fields, Previous(log, i))
  }

  predicate Chain(h: Hash, log: seq<Entry>) {
    forall i | 0 <= i < |log| :: log[i].fields != [] && Linked(h, log, i)
  }

  class Log {
    var queries: seq<Entry>
    var nextQuery: nat

    constructor ()
      ensures queries == []
    {
      queries, nextQuery := [], 0;
    }

    // Every run of this gives a chain.
    method LogQuery(h: Hash, fields: seq<string>) returns (id: nat)
      requires fields != [] && Chain(h, queries)
      modifies this
      ensures Chain(h, queries) && |queries| == |old(queries)| + 1 && queries[1..] == old(queries)
        && queries[0].fields == fields && queries[0].id == id
    {
      nextQuery := nextQuery + 1;
      id := nextQuery;
      var previous := if queries == [] then "" else queries[0].rowHash;
      var q := Entry(id, fields, previous, AuditHash(h, fields, previous));
      ghost var before := queries;
      queries := [q] + queries;
      forall i | 0 <= i < |queries| ensures queries[i].fields != [] && Linked(h, queries, i) {
        if i > 0 { assert queries[i] == before[i - 1] && Linked(h, before, i - 1); }
      }
    }

    // Walks from the oldest entry on; accepts exactly the chains, and otherwise stops at the oldest
    // broken link.
    method VerifyAuditChain(h: Hash) returns (checked: nat, ok: bool)
      requires Wellformed(queries)
      ensures ok <==> Chain(h, queries)
      ensures checked <= |queries| && (ok <==> checked == |queries|)
      ensures !ok ==> !Linked(h, queries, |queries| - 1 - checked)
    {
      var previous, i := "", |queries|;
      checked := 0;
      while i > 0
        invariant 0 <= i <= |queries| && checked == |queries| - i
          && previous == (if i < |queries| then queries[i].rowHash else "")
        invariant forall k | i <= k < |queries| :: Linked(h, queries, k)
      {
        var q := queries[i - 1];
        if q.prevHash != previous || q.rowHash != AuditHash(h, q.fields, previous) {
          assert !Linked(h, queries, i - 1);
          return checked, false;
        }
        previous, checked, i := q.rowHash, checked + 1, i - 1;
      }
      ok := true;
    }
  }

  // ---- what a hash pins down ----

  // The part of a text before its first separator.
  lemma {:induction false} FirstField(a: string, x: string, b: string, y: string)
    requires Free(a) && Free(b) && a + "|" + x == b + "|" + y
    ensures a == b && x == y
    decreases |a|
  {
    var s, t := a + "|" + x, b + "|" + y;
    if a == [] || b == [] {
      assert s[0] == t[0];
      assert a == [] ==> t[0] == '|';
      assert b == [] ==> s[0] == '|';
      assert a == b == [];
      assert s[1..] == x && t[1..] == y;
    } else {
      assert a[0] == s[0] == t[0] == b[0];
      assert s[1..] == a[1..] + "|" + x && t[1..] == b[1..] + "|" + y;
      FirstField(a[1..], x, b[1..], y);
      assert a == [a[0]] + a[1..] && b == [b[0]] + b[1..];
    }
  }

  lemma TextParts(f: seq<string>, p: string, g: seq<string>, q: string)
    requires f != [] && g != [] && Free(p) && Free(q) && Text(f, p) == Text(g, q)
    ensures p == q && Join(f) == Join(g)
  {
    var head := "yeslogs-audit-v1|";
    assert p + "|" + Join(f) == Text(f, p)[|head|..] && q + "|" + Join(g) == Text(g, q)[|head|..];
    FirstField(p, Join(f), q, Join(g));
  }

  lemma Behind(h: Hash, log: seq<Entry>)
    requires log != [] && Chain(h, log)
    ensures Chain(h, log[1..])
  {
    var rest := log[1..];
    forall i | 0 <= i < |rest| ensures rest[i].fields != [] && Linked(h, rest, i) {
      assert rest[i] == log[i + 1] && Linked(h, log, i + 1);
    }
  }

  // Main result: two accepted logs that end in the same hash are equally long and hash the same texts.
  lemma {:induction false} SameEnd(h: Hash, a: seq<Entry>, b: seq<Entry>)
    requires CollisionFree(h) && Chain(h, a) && Chain(h, b) && a != [] && b != [] && a[0].rowHash == b[0].rowHash
    ensures |a| == |b|
      && forall i | 0 <= i < |a| ::
         Join(a[i].fields) == Join(b[i].fields) && a[i].prevHash == b[i].prevHash && a[i].rowHash == b[i].rowHash
    decreases |a|
  {
    assert Linked(h, a, 0) && Linked(h, b, 0);
    var p, q := Previous(a, 0), Previous(b, 0);
    FreePrevious(h, a);
    FreePrevious(h, b);
    TextParts(a[0].fields, p, b[0].fields, q);
    if |a| > 1 && |b| > 1 {
      Behind(h, a);
      Behind(h, b);
      SameEnd(h, a[1..], b[1..]);
      forall i | 0 <= i < |a|
        ensures Join(a[i].fields) == Join(b[i].fields) && a[i].prevHash == b[i].prevHash && a[i].rowHash == b[i].rowHash
      {
        if i > 0 { assert a[i] == a[1..][i - 1] && b[i] == b[1..][i - 1]; }
      }
    }
  }

  // The hash before an entry is empty exactly for the oldest.
  lemma FreePrevious(h: Hash, log: seq<Entry>)
    requires CollisionFree(h) && Chain(h, log) && log != []
    ensures Free(Previous(log, 0)) && (Previous(log, 0) == "" <==> |log| == 1)
  {
    if |log| > 1 { assert Linked(h, log, 1); }
  }

  predicate AllFree(fields: seq<string>) { forall i | 0 <= i < |fields| :: Free(fields[i]) }

  // Fields without separators can be read back from the text.
  lemma {:induction false} JoinInjective(f: seq<string>, g: seq<string>)
    requires |f| == |g| > 0 && AllFree(f) && AllFree(g) && Join(f) == Join(g)
    ensures f == g
    decreases |f|
  {
    if |f| > 1 {
      FirstField(f[0], Join(f[1..]), g[0], Join(g[1..]));
      JoinInjective(f[1..], g[1..]);
      assert f == [f[0]] + f[1..] && g == [g[0]] + g[1..];
    }
  }

  // ---- exactly which entries their text pins down ----

  function Bars(s: string): nat { if s == "" then 0 else (if s[0] == '|' then 1 else 0) + Bars(s[1..]) }

  function AllBars(fields: seq<string>): nat { if fields == [] then 0 else Bars(fields[0]) + AllBars(fields[1..]) }

  lemma {:induction false} BarsConcat(a: string, b: string)
    ensures Bars(a + b) == Bars(a) + Bars(b)
    decreases |a|
  {
    if a == "" {
      assert a + b == b;
    } else {
      BarsConcat(a[1..], b);
      assert (a + b)[1..] == a[1..] + b;
    }
  }

  lemma {:induction false} FreeIff(s: string)
    ensures Bars(s) == 0 <==> Free(s)
    decreases |s|
  {
    if s != "" {
      FreeIff(s[1..]);
      assert s == [s[0]] + s[1..];
    }
  }

  lemma {:induction false} AllFreeIff(fields: seq<string>)
    ensures AllBars(fields) == 0 <==> AllFree(fields)
    decreases |fields|
  {
    if fields != [] {
      FreeIff(fields[0]);
      AllFreeIff(fields[1..]);
      assert fields == [fields[0]] + fields[1..];
      assert AllFree(fields) <==> Free(fields[0]) && AllFree(fields[1..]);
    }
  }

  lemma {:induction false} JoinBars(fields: seq<string>)
    requires fields != []
    ensures Bars(Join(fields)) == AllBars(fields) + |fields| - 1
    decreases |fields|
  {
    if |fields| > 1 {
      JoinBars(fields[1..]);
      BarsConcat(fields[0] + "|", Join(fields[1..]));
      BarsConcat(fields[0], "|");
      assert Bars("|") == 1 by { assert "|"[1..] == ""; }
    }
  }

  lemma FreeIsPinned(f: seq<string>, g: seq<string>)
    requires |f| == |g| > 0 && AllFree(f) && Join(f) == Join(g)
    ensures f == g
  {
    JoinBars(f);
    JoinBars(g);
    AllFreeIff(f);
    AllFreeIff(g);
    JoinInjective(f, g);
  }

  lemma JoinHead(x: string, y: string, rest: seq<string>)
    ensures Join([x + "|" + y] + rest) == x + "|" + Join([y] + rest)
  {
    var one, two := [x + "|" + y] + rest, [y] + rest;
    assert one[1..] == rest && two[1..] == rest;
    if rest != [] { assert x + "|" + y + "|" + Join(rest) == x + "|" + (y + "|" + Join(rest)); }
  }

  // A field with a separator can give its tail to the next field, or the last its head to the one before.
  lemma {:induction false} Movable(f: seq<string>, i: nat) returns (g: seq<string>)
    requires |f| >= 2 && i < |f| && !Free(f[i])
    ensures |g| == |f| && g != f && Join(g) == Join(f)
    decreases |f|
  {
    if i == 0 {
      var a, b := Cut(f[0]);
      g := [a, b + "|" + f[1]] + f[2..];
      assert f[1..] == [f[1]] + f[2..] && g[1..] == [b + "|" + f[1]] + f[2..];
      JoinHead(b, f[1], f[2..]);
      assert Join(f) == a + "|" + b + "|" + Join(f[1..]) == a + "|" + (b + "|" + Join(f[1..])) == Join(g);
      assert |g[0]| < |f[0]|;
    } else if |f| == 2 {
      var a, b := Cut(f[1]);
      g := [f[0] + "|" + a, b];
      assert f[1..] == [f[1]] && g[1..] == [b];
      assert Join(f) == f[0] + "|" + (a + "|" + b) == f[0] + "|" + a + "|" + b == Join(g);
      assert |g[1]| < |f[1]|;
    } else {
      var rest := Movable(f[1..], i - 1);
      g := [f[0]] + rest;
      assert g[1..] == rest;
    }
  }

  lemma Cut(s: string) returns (a: string, b: string)
    requires !Free(s)
    ensures s == a + "|" + b
  {
    var i :| 0 <= i < |s| && s[i] == '|';
    a, b := s[..i], s[i + 1..];
  }

  // The exact condition: a text belongs to one entry only if and only if no field has a separator in it.
  lemma PinnedIff(f: seq<string>)
    requires |f| >= 2
    ensures (forall g: seq<string> | |g| == |f| && Join(g) == Join(f) :: g == f) <==> AllFree(f)
  {
    if AllFree(f) {
      forall g: seq<string> | |g| == |f| && Join(g) == Join(f) ensures g == f { FreeIsPinned(f, g); }
    } else {
      var i :| 0 <= i < |f| && !Free(f[i]);
      var g := Movable(f, i);
    }
  }

  // So a log without separators in its fields is pinned down entry by entry.
  lemma SameEndSameFields(h: Hash, a: seq<Entry>, b: seq<Entry>, n: nat)
    requires CollisionFree(h) && Chain(h, a) && Chain(h, b) && a != [] && b != [] && a[0].rowHash == b[0].rowHash
    requires forall i | 0 <= i < |a| :: |a[i].fields| == n && AllFree(a[i].fields)
    requires forall i | 0 <= i < |b| :: |b[i].fields| == n
    ensures |a| == |b| && forall i | 0 <= i < |a| :: a[i].fields == b[i].fields
  {
    SameEnd(h, a, b);
    forall i | 0 <= i < |a| ensures a[i].fields == b[i].fields {
      FreeIsPinned(a[i].fields, b[i].fields);
    }
  }

  function With(a: string, b: string): string { a + "|" + b }

  lemma WithTwice(a: string, b: string, c: string)
    ensures With(With(a, b), c) == With(a, With(b, c))
  {
    assert a + "|" + b + "|" + c == a + "|" + (b + "|" + c);
  }

  // The protocol and the case reference are free text.  For any window and count, these two entries
  // differ in both, and hash alike.
  lemma MovedSeparators(h: Hash, previous: string, proto: string, from: string, to: string, count: string,
                        from': string, to': string, count': string, ref: string)
    ensures var f := Queried(With(proto, With(from, With(to, count))), from', to', count', ref);
      var g := Queried(proto, from, to, count, With(from', With(to', With(count', ref))));
      |f| == |g| == 10 && f != g && AuditHash(h, f, previous) == AuditHash(h, g, previous)
  {
    var p, x := With(proto, With(from, With(to, count))), With(from', With(to', With(count', ref)));
    var f, g := Queried(p, from', to', count', ref), Queried(proto, from, to, count, x);
    JoinHeads(p, from', to', count', ref);
    JoinHeads(proto, from, to, count, x);
    var y := With(from', With(to', With(count', With(ref, "t"))));
    WithTwice(from', With(to', With(count', ref)), "t");
    WithTwice(to', With(count', ref), "t");
    WithTwice(count', ref, "t");
    WithTwice(proto, With(from, With(to, count)), y);
    WithTwice(from, With(to, count), y);
    WithTwice(to, count, y);
    assert |f[4]| > |g[4]|;
  }

  // Protocol, from, to, count and case of one user's query.
  function Queried(proto: string, from: string, to: string, count: string, ref: string): seq<string> {
    ["u@x", "1", "10.0.0.1", "443"] + [proto, from, to, count, ref] + ["t"]
  }

  lemma JoinHeads(proto: string, from: string, to: string, count: string, ref: string)
    ensures Join(Queried(proto, from, to, count, ref))
         == With("u@x", With("1", With("10.0.0.1",
                                       With("443", With(proto, With(from, With(to, With(count, With(ref, "t")))))))))
  {
    var f := Queried(proto, from, to, count, ref);
    assert Join(f[9..]) == "t";
    JoinStep(f, 8);
    JoinStep(f, 7);
    JoinStep(f, 6);
    JoinStep(f, 5);
    JoinStep(f, 4);
    JoinStep(f, 3);
    JoinStep(f, 2);
    JoinStep(f, 1);
    JoinStep(f, 0);
    assert f[0..] == f;
  }

  lemma JoinStep(f: seq<string>, i: nat)
    requires i + 1 < |f|
    ensures Join(f[i..]) == With(f[i], Join(f[i + 1..]))
  {
    assert f[i..][1..] == f[i + 1..];
  }
}
