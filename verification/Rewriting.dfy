/** Rewriting a region of a buffer from left to right, and how the sanitizer's definitions unroll
    along the way.  */
module Rewriting {
  import opened Prelude
  import opened Wire
  import opened Decode
  import opened Parsing
  import opened Buffers
  import opened Sanitize

  datatype Status = Ok | CutShort | Refused

  // What a walk over a record reports.
  function StatusOf(c: Scrub): Status {
    match c
    case Clean(_) => Ok
    case Incomplete(_) => CutShort
    case Unsafe => Refused
  }

  // The bytes it leaves where it wrote.
  function Written(c: Scrub): Bytes
    requires !c.Unsafe?
  {
    match c
    case Clean(rec) => rec
    case Incomplete(body) => body
  }

  // Only the bytes from `lo` to `hi` may differ.  The dummy quantifier, and comparing to `true` in
  // contracts, keep the definition folded wherever it is only passed on.
  ghost predicate Within(before: Bytes, after: Bytes, lo: nat, hi: nat)
    requires lo <= hi <= |before|
  {
    |after| == |before| && forall x: int {:trigger At(x)} :: At(x) ==>
      after[..lo] == before[..lo] && after[hi..] == before[hi..]
  }

  // ---- a region rewritten from left to right ----

  // The region of `base` from `lo` to `hi`: `done` replaces its front, `rest` is still as it was.
  datatype Part = Part(base: Bytes, lo: nat, hi: nat, done: Bytes, rest: Bytes)

  predicate Sizes(p: Part) { p.lo + |p.done| + |p.rest| == p.hi <= |p.base| }

  predicate Matches(now: Bytes, p: Part)
    requires Sizes(p)
  {
    now == Splice(p.base, p.lo, p.done) && p.rest == p.base[p.lo + |p.done|..p.hi]
  }

  // `now` is the buffer at that point; folded like `Within`.
  ghost predicate Holds(now: Bytes, p: Part) {
    Sizes(p) && |now| == |p.base| && forall x: int {:trigger At(x)} :: At(x) ==> Matches(now, p)
  }

  function Advance(p: Part, w: Bytes, k: nat): Part
    requires |w| <= k <= |p.rest|
  {
    p.(done := p.done + (w + p.rest[|w|..k]), rest := p.rest[k..])
  }

  function StartOf(base: Bytes, lo: nat, hi: nat): Part
    requires lo <= hi <= |base|
  {
    Part(base, lo, hi, [], base[lo..hi])
  }

  lemma Starts(base: Bytes, lo: nat, hi: nat)
    requires lo <= hi <= |base|
    ensures Holds(base, StartOf(base, lo, hi))
  {
  }

  // The rest is still in the buffer.
  lemma RestHeld(now: Bytes, p: Part, i: nat, j: nat)
    requires Holds(now, p) && i <= j <= |p.rest|
    ensures now[p.lo + |p.done| + i..p.lo + |p.done| + j] == p.rest[i..j]
  {
    assert At(0);
    var at := p.lo + |p.done|;
    var x, y := now[at + i..at + j], p.rest[i..j];
    assert forall k | 0 <= k < |x| :: x[k] == now[at + i + k] == p.base[at + i + k] == y[k];
  }

  lemma HeldWithin(now: Bytes, p: Part)
    requires Holds(now, p)
    ensures Within(p.base, now, p.lo, p.hi)
  {
    assert At(0);
    assert forall k | 0 <= k < p.lo :: now[k] == p.base[k];
    assert forall k | p.hi <= k < |now| :: now[k] == p.base[k];
  }

  lemma AdvancesAt(now: Bytes, now': Bytes, p: Part, i: nat, w: Bytes, k: nat, at: nat, chunk: Bytes, j: nat)
    requires Sizes(p) && Matches(now, p) && i + |w| <= k <= |p.rest| && at == p.lo + |p.done|
      && now' == Splice(now, at + i, w)
    requires chunk == p.rest[..i] + w + p.rest[i + |w|..k] && j < |p.base|
    ensures now'[j] == Splice(p.base, p.lo, p.done + chunk)[j]
  {
    SpliceAt(p.base, p.lo, p.done + chunk, j);
    SpliceAt(p.base, p.lo, p.done, j);
    SpliceAt(now, at + i, w, j);
    if at <= j < at + k { assert p.rest[j - at] == p.base[j]; }
  }

  // Writing `w` at position `i` of the rest takes the part to position `k`.
  lemma Advances(now: Bytes, now': Bytes, p: Part, i: nat, w: Bytes, k: nat)
    requires Holds(now, p) && i + |w| <= k <= |p.rest| && now' == Splice(now, p.lo + |p.done| + i, w)
    ensures Holds(now', Advance(p, p.rest[..i] + w, k))
  {
    assert At(0);
    var at, chunk := p.lo + |p.done|, p.rest[..i] + w + p.rest[i + |w|..k];
    forall j | 0 <= j < |now| ensures now'[j] == Splice(p.base, p.lo, p.done + chunk)[j] {
      AdvancesAt(now, now', p, i, w, k, at, chunk, j);
    }
    assert now' == Splice(p.base, p.lo, p.done + chunk);
    Slice(p.base, at, p.hi, k, k);
  }

  lemma Empties(rest: Bytes, w: Bytes)
    requires |w| <= |rest|
    ensures w + rest[|w|..|w|] == w
  {
  }

  lemma Halves(rest: Bytes, n: nat, body: Bytes)
    requires 4 <= n <= |rest| && body == rest[4..n]
    ensures rest[..n] + rest[n..n] == rest[..4] + body
  {
  }

  lemma Walked(now: Bytes, now': Bytes, p: Part, w: Bytes, k: nat)
    requires Holds(now, p) && |w| <= k <= |p.rest| && now' == Splice(now, p.lo + |p.done|, w)
    ensures Holds(now', Advance(p, w, k)) && Holds(now', Advance(p, w, |w|))
  {
    assert p.rest[..0] + w == w;
    Advances(now, now', p, 0, w, k);
    Advances(now, now', p, 0, w, |w|);
  }

  // Leaving the next `k` bytes alone does so too.
  lemma Skips(now: Bytes, p: Part, k: nat)
    requires Holds(now, p) && k <= |p.rest|
    ensures Holds(now, Advance(p, p.rest[..k], k))
  {
    Advances(now, Splice(now, p.lo + |p.done|, []), p, 0, [], k);
    assert Splice(now, p.lo + |p.done|, []) == now;
    assert p.rest[..0] + [] == [] && [] + p.rest[0..k] == p.rest[..k] + p.rest[k..k];
  }

  lemma Finishes(now: Bytes, p: Part)
    requires Holds(now, p)
    ensures now == Splice(p.base, p.lo, p.done + p.rest)
  {
    assert At(0);
    var y := Splice(p.base, p.lo, p.done + p.rest);
    assert forall j | 0 <= j < |now| :: now[j] == y[j];
  }

  lemma FinishesAt(now: Bytes, p: Part)
    requires Holds(now, p)
    ensures now == Splice(p.base, p.lo, p.done)
  {
    assert At(0);
  }

  // What is done is in the buffer.
  lemma DoneHeld(now: Bytes, p: Part, i: nat)
    requires Holds(now, p) && i <= |p.done|
    ensures now[p.lo + i..p.lo + |p.done|] == p.done[i..]
  {
    assert At(0);
  }

  lemma WithinTwice(a: Bytes, b: Bytes, c: Bytes, lo: nat, hi: nat, lo': nat, hi': nat)
    requires lo <= lo' <= hi' <= hi <= |a| && Within(a, b, lo, hi) && Within(b, c, lo', hi')
    ensures Within(a, c, lo, hi)
  {
    assert At(0);
    assert c[..lo] == c[..lo'][..lo] && b[..lo] == b[..lo'][..lo];
    assert c[hi..] == c[hi'..][hi - hi'..] && b[hi..] == b[hi'..][hi - hi'..];
  }

  // ---- one record ----

  ghost predicate Scrubs(r: Renaming, scrub: (Bytes, seq<Field>) -> Scrub) {
    forall b, fs {:trigger At((b, fs))} :: At((b, fs)) ==> scrub(b, fs) == ScrubFields(r, b, fs)
  }

  lemma ScrubOf(r: Renaming, body: Bytes, fields: seq<Field>) returns (scrub: (Bytes, seq<Field>) -> Scrub)
    ensures Scrubs(r, scrub) && scrub(body, fields) == ScrubFields(r, body, fields)
      && forall b :: scrub(b, []) == Clean([])
  {
    scrub := (b: Bytes, fs: seq<Field>) => ScrubFields(r, b, fs);
  }

  lemma AfterTwice(a: Bytes, b: Bytes, c: Scrub)
    ensures After(a, After(b, c)) == After(a + b, c)
  {
    match c
    case Clean(rec) => assert a + (b + rec) == a + b + rec;
    case Incomplete(body) => assert a + (b + body) == a + b + body;
    case Unsafe =>
  }

  // One field of the record: `rest` starts with it and `next` behind it; `v` is its value.
  lemma ScrubNext(r: Renaming, scrub: (Bytes, seq<Field>) -> Scrub, rest: Bytes, fs: seq<Field>, s: Span,
                  next: Bytes, more: seq<Field>, head: Bytes, done: Bytes)
    requires Scrubs(r, scrub) && fs != [] && Locate(Ipfix, rest, fs[0]) == Some(s) && Handled(fs[0], Value(rest, s))
    requires next == rest[s.off + s.len..] && more == fs[1..]
      && head == rest[..s.off] + NewValue(r, fs[0], Value(rest, s))
    ensures After(done, scrub(rest, fs)) == After(done + head, scrub(next, more))
  {
    assert At((rest, fs)) && At((next, more));
    AfterTwice(done, head, ScrubFields(r, next, more));
  }

  lemma ScrubStops(r: Renaming, scrub: (Bytes, seq<Field>) -> Scrub, rest: Bytes, fs: seq<Field>, done: Bytes)
    requires Scrubs(r, scrub) && fs != []
    requires Locate(Ipfix, rest, fs[0]).Some? ==> !Handled(fs[0], Value(rest, Locate(Ipfix, rest, fs[0]).value))
    ensures After(done, scrub(rest, fs)) == if Locate(Ipfix, rest, fs[0]) == None then Incomplete(done + rest)
      else Unsafe
  {
    assert At((rest, fs));
  }

  // ---- data sets ----

  lemma AppendTwice(a: Bytes, b: Bytes, o: Option<Bytes>)
    ensures Append(a, Append(b, o)) == Append(a + b, o)
  {
    if o.Some? { assert a + (b + o.value) == a + b + o.value; }
  }

  // `one` scrubs one record of the template, and `scrub` a body of them.
  ghost predicate ScrubsFixed(r: Renaming, t: Template, one: Bytes -> Scrub, scrub: Bytes -> Option<Bytes>) {
    && t.recordLen > 0 && (forall b {:trigger At(b)} :: At(b) ==> scrub(b) == ScrubFixed(r, t, b))
    && (forall b {:trigger At(b)} :: At(b) ==> one(b) == ScrubFields(r, b, t.fields))
  }

  ghost predicate ScrubsVar(r: Renaming, t: Template, one: Bytes -> Scrub, scrub: Bytes -> Option<Bytes>) {
    && (forall b {:trigger At(b)} :: At(b) ==> scrub(b) == ScrubVar(r, t, b))
    && (forall b {:trigger At(b)} :: At(b) ==> one(b) == ScrubFields(r, b, t.fields))
  }

  lemma FixedScrubber(r: Renaming, t: Template, body: Bytes)
      returns (one: Bytes -> Scrub, scrub: Bytes -> Option<Bytes>)
    requires t.recordLen > 0
    ensures ScrubsFixed(r, t, one, scrub) && scrub(body) == ScrubFixed(r, t, body)
  {
    one, scrub := (b: Bytes) => ScrubFields(r, b, t.fields), (b: Bytes) => ScrubFixed(r, t, b);
  }

  lemma VarScrubber(r: Renaming, t: Template, body: Bytes) returns (one: Bytes -> Scrub, scrub: Bytes -> Option<Bytes>)
    ensures ScrubsVar(r, t, one, scrub) && scrub(body) == ScrubVar(r, t, body)
  {
    one, scrub := (b: Bytes) => ScrubFields(r, b, t.fields), (b: Bytes) => ScrubVar(r, t, b);
  }

  lemma FixedNext(r: Renaming, t: Template, one: Bytes -> Scrub, scrub: Bytes -> Option<Bytes>, rest: Bytes,
                  c: Scrub, done: Bytes)
    requires ScrubsFixed(r, t, one, scrub) && t.recordLen <= |rest| && c == one(rest[..t.recordLen])
    ensures c.Clean? ==> |c.rec| <= t.recordLen
    ensures c.Clean? ==>
      Append(done, scrub(rest))
            == Append(done + (c.rec + rest[|c.rec|..t.recordLen]), scrub(rest[t.recordLen..]))
    ensures !c.Clean? ==> scrub(rest) == None
  {
    assert At(rest) && At(rest[t.recordLen..]) && At(rest[..t.recordLen]);
    if c.Clean? { AppendTwice(done, c.rec + rest[|c.rec|..t.recordLen], ScrubFixed(r, t, rest[t.recordLen..])); }
  }

  lemma FixedEnds(r: Renaming, t: Template, one: Bytes -> Scrub, scrub: Bytes -> Option<Bytes>, rest: Bytes)
    requires ScrubsFixed(r, t, one, scrub) && |rest| < t.recordLen
    ensures scrub(rest) == Some(rest)
  {
    assert At(rest);
  }

  lemma VarNext(r: Renaming, t: Template, one: Bytes -> Scrub, scrub: Bytes -> Option<Bytes>, rest: Bytes,
                c: Scrub, done: Bytes)
    requires ScrubsVar(r, t, one, scrub) && rest != [] && c == one(rest)
    ensures c.Clean? && c.rec != [] ==>
      |c.rec| <= |rest| && Append(done, scrub(rest)) == Append(done + c.rec, scrub(rest[|c.rec|..]))
    ensures c.Clean? && c.rec == [] ==> scrub(rest) == None
    ensures c.Unsafe? ==> scrub(rest) == None
    ensures c.Incomplete? ==> |c.body| == |rest| && scrub(rest) == if AllZero(c.body) then Some(c.body) else None
  {
    assert At(rest);
    if c.Clean? {
      assert At(rest[|c.rec|..]);
      AppendTwice(done, c.rec, ScrubVar(r, t, rest[|c.rec|..]));
    }
  }

  lemma VarEnds(r: Renaming, t: Template, one: Bytes -> Scrub, scrub: Bytes -> Option<Bytes>)
    requires ScrubsVar(r, t, one, scrub)
    ensures scrub([]) == Some([])
  {
    assert At<Bytes>([]);
  }

  // ---- the sets of a payload ----

  ghost predicate Cleans(d: Dialect, r: Renaming, exporter: Bytes, domain: nat, cl: Cleaner) {
    forall known, id: nat, body {:trigger At((known, id as int, body))} :: At((known, id as int, body)) ==>
      && cl.learn(known, id, body) == NoteSet(d, known, exporter, domain, id, body)
      && cl.scrub(known, id, body) == ScrubSet(r, known, exporter, domain, id, body)
  }

  lemma CleanerCleans(d: Dialect, r: Renaming, exporter: Bytes, domain: nat)
    ensures Cleans(d, r, exporter, domain, CleanerOf(d, r, exporter, domain))
  {
  }

  ghost predicate Sans(cl: Cleaner, san: (Templates, Bytes) -> Sanitized) {
    forall known, b {:trigger At((known, b))} :: At((known, b)) ==> san(known, b) == SanitizeSets(cl, known, b)
  }

  lemma SanOf(cl: Cleaner, known: Templates, body: Bytes) returns (san: (Templates, Bytes) -> Sanitized)
    ensures Sans(cl, san) && san(known, body) == SanitizeSets(cl, known, body)
  {
    san := (k: Templates, b: Bytes) => SanitizeSets(cl, k, b);
  }

  lemma BehindTwice(a: Bytes, b: Bytes, s: Sanitized)
    ensures Behind(a, Behind(b, s)) == Behind(a + b, s)
  {
    assert a + (b + s.bytes) == a + b + s.bytes;
  }

  lemma BehindNothing(s: Sanitized)
    ensures Behind([], s) == s
  {
    assert [] + s.bytes == s.bytes;
  }

  // One whole set: noted, rewritten to `body'`, or a reason to drop the packet.
  lemma SansNoted(cl: Cleaner, san: (Templates, Bytes) -> Sanitized, known: Templates, rest: Bytes, id: nat,
                  body: Bytes, rest': Bytes, done: Bytes)
    requires Sans(cl, san) && WholeSet(rest) && id == U16(rest, 0) < DATA_MIN && body == SetBody(rest)
      && rest' == rest[U16(rest, 2)..]
    ensures Behind(done, san(known, rest)) == Behind(done + (rest[..4] + body), san(cl.learn(known, id, body), rest'))
  {
    assert At((known, rest)) && At((cl.learn(known, id, body), rest'));
    BehindTwice(done, rest[..4] + body, san(cl.learn(known, id, body), rest'));
  }

  lemma SansWritten(cl: Cleaner, san: (Templates, Bytes) -> Sanitized, known: Templates, rest: Bytes, id: nat,
                    body: Bytes, rest': Bytes, done: Bytes, o: Option<Bytes>)
    requires Sans(cl, san) && WholeSet(rest) && id == U16(rest, 0) >= DATA_MIN && body == SetBody(rest)
      && rest' == rest[U16(rest, 2)..]
    requires o == cl.scrub(known, id, body)
    ensures o.Some? ==> Behind(done, san(known, rest)) == Behind(done + (rest[..4] + o.value), san(known, rest'))
    ensures o == None ==> san(known, rest) == Sanitized(false, rest, known)
  {
    assert At((known, rest));
    if o.Some? {
      assert At((known, rest'));
      BehindTwice(done, rest[..4] + o.value, san(known, rest'));
    }
  }

  lemma SansEnds(cl: Cleaner, san: (Templates, Bytes) -> Sanitized, known: Templates, rest: Bytes)
    requires Sans(cl, san) && !WholeSet(rest)
    ensures san(known, rest) == Sanitized(|rest| < 4, rest, known)
  {
    assert At((known, rest));
  }

  // ---- the hash ----

  ghost predicate Mixes(step: (bv32, Byte) -> bv32) {
    forall h, c {:trigger At((h, c))} :: At((h, c)) ==> step(h, c) == FnvStep(h, c)
  }

  lemma FnvIsHashBy(h: bv32, bytes: Bytes) returns (step: (bv32, Byte) -> bv32)
    ensures Mixes(step) && Fnv(h, bytes) == HashBy(step, h, bytes)
  {
    step := (x: bv32, c: Byte) => FnvStep(x, c);
  }

  method Mix(h: bv32, c: Byte, ghost step: (bv32, Byte) -> bv32) returns (h': bv32)
    requires Mixes(step)
    ensures h' == step(h, c)
  {
    assert At((h, c));
    h' := (h ^ (c as bv32)) * 16777619;
  }

  // Hashes `bytes`, with `more` still to come.
  method HashBytes(start: bv32, bytes: Bytes, ghost more: Bytes, ghost step: (bv32, Byte) -> bv32) returns (h: bv32)
    requires Mixes(step)
    ensures HashBy(step, start, bytes + more) == HashBy(step, h, more)
  {
    h := start;
    ghost var all := bytes + more;
    for i := 0 to |bytes|
      invariant HashBy(step, start, all) == HashBy(step, h, all[i..])
    {
      assert all[i] == bytes[i] && all[i..][1..] == all[i + 1..];
      h := Mix(h, bytes[i], step);
    }
    assert all[|bytes|..] == more;
  }

  // Hashes the key, then the address, byte by byte.
  method HashAll(start: bv32, key: Bytes, b: Bytes) returns (h: bv32)
    ensures h == Fnv(start, key + b)
  {
    ghost var step := FnvIsHashBy(start, key + b);
    h := HashBytes(start, key, b, step);
    h := HashBytes(h, b, [], step);
    assert b + [] == b;
  }

  method HashAddress(key: Bytes, b: Bytes) returns (out: Bytes)
    ensures out == Rename(Remap(key), b)
  {
    var h := HashAll(2166136261, key, b);
    out := LowBytes(h as int);
  }

  // An address in 10.0.0.0/8 with the low three bytes of the hash.
  method LowBytes(x: nat) returns (out: Bytes)
    ensures |out| == 4 && out[0] == 10 && out[1] == (x / 0x1_0000) % 256 && out[2] == (x / 0x100) % 256
      && out[3] == x % 256
  {
    out := [10, (x / 0x1_0000) % 256, (x / 0x100) % 256, x % 256];
  }

  // ---- small steps ----

  lemma PacketSets(d: Dialect, r: Renaming, known: Templates, exporter: Bytes, payload: Bytes, domain: nat,
                   header: nat, end: nat) returns (sets: Sanitized)
    requires |payload| >= HeaderLen(d) && header == HeaderLen(d) && end == EndOf(d, payload)
      && domain == DomainOf(d, payload)
    ensures sets == SanitizeSets(CleanerOf(d, r, exporter, domain), known, payload[header..end])
    ensures SanitizePacket(d, r, known, exporter, payload)
            == Sanitized(sets.ok, payload[..header] + sets.bytes + payload[end..], sets.known)
  {
    sets := SanitizeSets(CleanerOf(d, r, exporter, domain), known, payload[header..end]);
  }

  lemma LearnFirst(known: Templates, exporter: Bytes, domain: nat, item: Item, rest: seq<Item>)
    ensures Learn(known, exporter, domain, [item] + rest)
         == Learn(if item.Define? then known[Key(exporter, domain, item.id) := item.t]
           else known, exporter, domain, rest)
  {
    assert ([item] + rest)[1..] == rest;
  }

  lemma AppendNothing(o: Option<Bytes>)
    ensures Append([], o) == o
  {
    if o.Some? { assert [] + o.value == o.value; }
  }

  lemma AfterNothing(c: Scrub)
    ensures After([], c) == c
  {
    match c
    case Clean(rec) => assert [] + rec == rec;
    case Incomplete(body) => assert [] + body == body;
    case Unsafe =>
  }

  lemma InsideWritten(b: Bytes, lo: nat, hi: nat, i: nat, j: nat, v: Bytes, payload: Bytes)
    requires i <= j && lo + j <= hi <= |b| && |v| == j - i && payload == b[lo..hi]
    ensures Splice(b, lo + i, v) == Splice(b, lo, payload[..i] + v + payload[j..])
  {
    var x, w := Splice(b, lo + i, v), payload[..i] + v + payload[j..];
    var y := Splice(b, lo, w);
    forall k | 0 <= k < |b| ensures x[k] == y[k] {
      if lo <= k < hi { assert y[k] == w[k - lo]; }
    }
  }

  lemma WithinWider(a: Bytes, b: Bytes, lo: nat, hi: nat, lo': nat, hi': nat)
    requires lo <= lo' <= hi' <= hi <= |a| && Within(a, b, lo', hi')
    ensures Within(a, b, lo, hi)
  {
    assert Within(a, a, lo, hi);
    WithinTwice(a, a, b, lo, hi, lo', hi');
  }

  // Where the value of the field at `pos` lies, and whether it can be handled.
  method Inspect(rec: Bytes, pos: nat, f: Field, ghost rest: Bytes) returns (off: nat, len: nat, st: Status)
    requires pos <= |rec| && rest == rec[pos..]
    ensures st.CutShort? <==> Locate(Ipfix, rest, f) == None
    ensures !st.CutShort? ==> pos <= off && off + len <= |rec| && Locate(Ipfix, rest, f) == Some(Span(off - pos, len))
    ensures !st.CutShort? ==> (st.Ok? <==> Handled(f, Value(rest, Span(off - pos, len))))
  {
    var ok;
    off, len, ok := FindValue(Ipfix, rec, pos, f);
    if !ok { st := CutShort; }
    else if !f.enterprise && (IsV6(f.ie) || (IsV4(f.ie) && len != 4)) { st := Refused; }
    else { st := Ok; }
  }

  // ---- NetFlow v5 ----

  lemma V5Joined(r: Renaming, p: Part, p3: Part, p': Part)
    requires Sizes(p) && 48 <= |p.rest|
    requires p3 == p.(done := p.done + Rename(r, p.rest[..4]) + Rename(r, p.rest[4..][..4])
      + Rename(r, p.rest[4..][4..][..4]), rest := p.rest[4..][4..][4..])
    requires p' == Advance(p3, p3.rest[..36], 36)
    ensures p' == p.(done := p.done + V5Record(r, p.rest), rest := p.rest[48..])
  {
    assert p.rest[4..][..4] == p.rest[4..8] && p.rest[4..][4..][..4] == p.rest[8..12] && p3.rest == p.rest[12..];
    assert p3.rest[..36] + p3.rest[36..36] == p.rest[12..48];
    assert p3.rest[36..] == p.rest[48..];
  }

  lemma V5Starts(r: Renaming, was: Bytes, lo: nat, hi: nat, payload: Bytes, p: Part)
    requires lo <= hi <= |was| && payload == was[lo..hi] && |payload| >= 24
    requires p == Advance(StartOf(was, lo, hi), payload[..24], 24)
    ensures ScrubV5(r, payload) == p.done + V5Records(r, p.rest) && p.done == payload[..24]
  {
    assert [] + (payload[..24] + payload[24..24]) == payload[..24];
  }

  lemma V5Next(r: Renaming, done: Bytes, rest: Bytes)
    requires |rest| >= 48
    ensures done + V5Records(r, rest) == done + V5Record(r, rest) + V5Records(r, rest[48..])
  {
  }
}
