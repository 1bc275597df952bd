/** The sanitizer object: it rewrites addresses in the caller's buffer, and leaves there what the
    recursive definitions say.  */
module Sanitizer {
  import opened Prelude
  import opened Wire
  import opened Decode
  import opened Parsing
  import opened Buffers
  import opened Sanitize
  import opened Rewriting
  import opened Pcap
  import opened Frames

  class Sanitizer {
    const key: Bytes
    ghost const rename: Renaming
    var m: map<Bytes, Bytes>
    var v9: Templates
    var ipfix: Templates
    var rewritten: nat
    var packets: nat
    var kept: nat
    var dropped: nat

    constructor (key: Bytes)
      ensures this.key == key && rename == Remap(key) && Valid() && v9 == map[] && ipfix == map[]
      ensures packets == 0 && kept == 0 && dropped == 0
    {
      this.key, m, v9, ipfix, rewritten, rename := key, map[], map[], map[], 0, Remap(key);
      packets, kept, dropped := 0, 0, 0;
    }

    // The memo holds what the renaming gives, and the renaming is the keyed hash.
    ghost predicate Valid()
      reads this
    {
      && (forall b | b in m :: m[b] == Rename(rename, b))
      && (forall b {:trigger At(b)} :: At(b) ==> rename(b) == Remap(key)(b))
      && (forall k | k in v9 :: !v9[k].hasVar)
    }

    function Known(d: Dialect): Templates
      reads this
    {
      if d.V9? then v9 else ipfix
    }

    // Each address is hashed once.
    method RemapAddress(b: Bytes) returns (out: Bytes)
      requires Valid()
      modifies this`m
      ensures Valid() && out == Rename(rename, b)
    {
      if b in m { return m[b]; }
      out := HashAddress(key, b);
      assert At(b);
      m := m[b := out];
    }

    method RewriteAt(buf: array<Byte>, off: nat)
      requires Valid() && off + 4 <= buf.Length
      modifies this`m, this`rewritten, buf
      ensures Valid() && buf[..] == Splice(old(buf[..]), off, Rename(rename, old(buf[off..off + 4])))
    {
      var out := RemapAddress(buf[off..off + 4]);
      PutBytes(buf, off, out);
      rewritten := rewritten + 1;
    }

    // Replaces the value at `off` if it is an IPv4 address.
    method WriteValue(buf: array<Byte>, f: Field, off: nat, ghost v: Bytes)
      requires Valid() && off + |v| <= buf.Length && buf[off..off + |v|] == v && Handled(f, v)
      modifies this`m, this`rewritten, buf
      ensures Valid() && buf[..] == Splice(old(buf[..]), off, NewValue(rename, f, v))
    {
      if !f.enterprise && IsV4(f.ie) {
        RewriteAt(buf, off);
      }
    }

    // Replaces the value at `i` of the rest.
    method ReplaceValue(buf: array<Byte>, f: Field, i: nat, at: nat, ghost v: Bytes, ghost p: Part)
        returns (ghost p': Part)
      requires Valid() && Holds(buf[..], p) && at == p.lo + |p.done| + i
      requires i + |v| <= |p.rest| && v == p.rest[i..i + |v|] && Handled(f, v)
      modifies this`m, this`rewritten, buf
      ensures Valid() && Holds(buf[..], p') && p' == Advance(p, p.rest[..i] + NewValue(rename, f, v), i + |v|)
    {
      ghost var was := buf[..];
      RestHeld(was, p, i, i + |v|);
      WriteValue(buf, f, at, v);
      Advances(was, buf[..], p, i, NewValue(rename, f, v), i + |v|);
      p' := Advance(p, p.rest[..i] + NewValue(rename, f, v), i + |v|);
    }

    // A field that can be handled: its value is replaced and the walk goes on behind it.
    method PassField(buf: array<Byte>, at: nat, f: Field, ghost fs: seq<Field>, span: Span, ghost p: Part,
                     ghost scrub: (Bytes, seq<Field>) -> Scrub, ghost more: seq<Field>)
      returns (ghost p': Part)
      requires Valid() && Holds(buf[..], p) && Scrubs(rename, scrub) && fs != [] && fs[0] == f
        && more == fs[1..]
      requires Locate(Ipfix, p.rest, f) == Some(span) && Handled(f, Value(p.rest, span))
        && at == p.lo + |p.done| + span.off
      modifies this`m, this`rewritten, buf
      ensures Valid() && Holds(buf[..], p') && p' == p.(done := p'.done, rest := p'.rest)
        && |p'.done| == |p.done| + span.off + span.len
      ensures After(p.done, scrub(p.rest, fs)) == After(p'.done, scrub(p'.rest, more))
    {
      ghost var rest, v := p.rest, Value(p.rest, span);
      p' := ReplaceValue(buf, f, span.off, at, v, p);
      ghost var head := rest[..span.off] + NewValue(rename, f, v);
      Empties(rest, head);
      ScrubNext(rename, scrub, rest, fs, span, p'.rest, more, head, p.done);
    }

    // One field of a record, or why the walk stops at it.
    method RewriteField(buf: array<Byte>, lo: nat, hi: nat, pos: nat, fields: seq<Field>, i: nat, ghost p: Part,
                        ghost scrub: (Bytes, seq<Field>) -> Scrub)
      returns (pos': nat, st: Status, ghost p': Part)
      requires Valid() && Holds(buf[..], p) && p.lo == lo && p.hi == hi && |p.done| == pos && i < |fields|
        && Scrubs(rename, scrub)
      modifies this`m, this`rewritten, buf
      ensures Valid() && Holds(buf[..], p') && p' == p.(done := p'.done, rest := p'.rest)
        && (!st.Ok? ==> p' == p)
      ensures st.Ok? ==>
        |p'.done| == pos'
        && After(p.done, scrub(p.rest, fields[i..])) == After(p'.done, scrub(p'.rest, fields[i + 1..]))
      ensures st.CutShort? ==> After(p.done, scrub(p.rest, fields[i..])) == Incomplete(p.done + p.rest)
      ensures st.Refused? ==> After(p.done, scrub(p.rest, fields[i..])) == Unsafe
    {
      ghost var rest := p.rest;
      RestHeld(buf[..], p, 0, |rest|);
      Slice(buf[..], lo, hi, pos, hi - lo);
      pos', p' := pos, p;
      var off, len;
      off, len, st := Inspect(buf[lo..hi], pos, fields[i], rest);
      if st.Ok? {
        p' := PassField(buf, lo + off, fields[i], fields[i..], Span(off - pos, len), p, scrub, fields[i + 1..]);
        pos' := off + len;
      } else {
        ScrubStops(rename, scrub, rest, fields[i..], p.done);
      }
    }

    // Walks one record; `c` is what the walk should give.
    method RewriteRecord(buf: array<Byte>, lo: nat, hi: nat, fields: seq<Field>, ghost was: Bytes,
                         ghost rec: Bytes) returns (n: nat, st: Status, ghost c: Scrub)
      requires Valid() && lo <= hi <= buf.Length && was == buf[..] && rec == was[lo..hi]
      modifies this`m, this`rewritten, buf
      ensures Valid() && c == ScrubFields(rename, rec, fields) && st == StatusOf(c)
      ensures !c.Unsafe? ==> |Written(c)| <= hi - lo && buf[..] == Splice(was, lo, Written(c))
      ensures c.Clean? ==> n == |c.rec|
      ensures Within(was, buf[..], lo, hi)
    {
      ghost var p := StartOf(was, lo, hi);
      Starts(was, lo, hi);
      ghost var scrub := ScrubOf(rename, rec, fields);
      c := scrub(rec, fields);
      AfterNothing(c);
      assert fields[0..] == fields;
      n, st := 0, Ok;
      var i := 0;
      while i < |fields|
        invariant Valid() && i <= |fields| && st.Ok? && p.base == was && p.lo == lo && p.hi == hi && |p.done| == n
        invariant Holds(buf[..], p) && c == After(p.done, scrub(p.rest, fields[i..]))
      {
        n, st, p := RewriteField(buf, lo, hi, n, fields, i, p, scrub);
        if !st.Ok? {
          Finishes(buf[..], p);
          HeldWithin(buf[..], p);
          return;
        }
        i := i + 1;
      }
      assert p.done + [] == p.done;
      FinishesAt(buf[..], p);
      HeldWithin(buf[..], p);
    }

    // The next record of a body, of which the walk may use `k` bytes; `one` is its definition.
    method OneRecord(buf: array<Byte>, at: nat, k: nat, t: Template, ghost p: Part, ghost one: Bytes -> Scrub)
        returns (n: nat, st: Status, ghost c: Scrub)
      requires Valid() && Holds(buf[..], p) && at == p.lo + |p.done| && k <= |p.rest|
      requires forall b {:trigger At(b)} :: At(b) ==> one(b) == ScrubFields(rename, b, t.fields)
      modifies this`m, this`rewritten, buf
      ensures Valid() && c == one(p.rest[..k]) && st == StatusOf(c) && Within(p.base, buf[..], p.lo, p.hi)
      ensures c.Clean? ==> n == |c.rec|
      ensures !c.Unsafe? ==> |Written(c)| <= k && Holds(buf[..], Advance(p, Written(c), k))
      ensures !c.Unsafe? ==> Holds(buf[..], Advance(p, Written(c), |Written(c)|))
    {
      ghost var was, rec := buf[..], p.rest[..k];
      RestHeld(was, p, 0, k);
      HeldWithin(was, p);
      n, st, c := RewriteRecord(buf, at, at + k, t.fields, was, rec);
      assert At(rec);
      WithinTwice(p.base, was, buf[..], p.lo, p.hi, at, at + k);
      if !st.Refused? { Walked(was, buf[..], p, Written(c), k); }
    }

    // Records of one length.  The caller has checked that they fill the body.
    method RewriteFixed(buf: array<Byte>, lo: nat, hi: nat, t: Template, ghost was: Bytes, ghost body: Bytes)
        returns (ok: bool, ghost o: Option<Bytes>)
      requires Valid() && lo <= hi <= buf.Length && t.recordLen > 0 && was == buf[..] && body == was[lo..hi]
      modifies this`m, this`rewritten, buf
      ensures Valid() && o == ScrubFixed(rename, t, body) && ok == o.Some?
      ensures ok ==> buf[..] == Splice(was, lo, o.value)
      ensures Within(was, buf[..], lo, hi)
    {
      ghost var p := StartOf(was, lo, hi);
      Starts(was, lo, hi);
      ghost var one, scrub := FixedScrubber(rename, t, body);
      o := scrub(body);
      AppendNothing(o);
      var pos := 0;
      while lo + pos + t.recordLen <= hi
        invariant Valid() && p.base == was && p.lo == lo && p.hi == hi && |p.done| == pos && lo + pos <= hi
        invariant Holds(buf[..], p) && o == Append(p.done, scrub(p.rest))
      {
        var n, st;
        ghost var c;
        n, st, c := OneRecord(buf, lo + pos, t.recordLen, t, p, one);
        FixedNext(rename, t, one, scrub, p.rest, c, p.done);
        if !st.Ok? { return false, o; }
        p := Advance(p, c.rec, t.recordLen);
        pos := pos + t.recordLen;
      }
      FixedEnds(rename, t, one, scrub, p.rest);
      Finishes(buf[..], p);
      HeldWithin(buf[..], p);
      ok := true;
    }

    // The padding behind the last record must be zero.
    method Padding(buf: array<Byte>, lo: nat, hi: nat) returns (ok: bool)
      requires lo <= hi <= buf.Length
      ensures ok == AllZero(buf[lo..hi])
    {
      var i := lo;
      while i < hi
        invariant lo <= i <= hi && forall k | lo <= k < i :: buf[k] == 0
      {
        if buf[i] != 0 {
          assert buf[lo..hi][i - lo] != 0;
          return false;
        }
        i := i + 1;
      }
      ok := true;
    }

    // One record of a variable-length body; without `more` the body is finished, kept or not.
    method NextVar(buf: array<Byte>, lo: nat, hi: nat, pos: nat, t: Template, ghost p: Part,
                   ghost one: Bytes -> Scrub, ghost scrub: Bytes -> Option<Bytes>)
      returns (n: nat, more: bool, ok: bool, ghost p': Part)
      requires Valid() && Holds(buf[..], p) && p.lo == lo && p.hi == hi && |p.done| == pos && lo + pos < hi
        && ScrubsVar(rename, t, one, scrub)
      modifies this`m, this`rewritten, buf
      ensures Valid() && Within(p.base, buf[..], lo, hi) && p' == p.(done := p'.done, rest := p'.rest)
      ensures more ==>
        n > 0 && |p'.done| == pos + n && Holds(buf[..], p')
        && Append(p.done, scrub(p.rest)) == Append(p'.done, scrub(p'.rest))
      ensures !more ==> ok == scrub(p.rest).Some?
      ensures !more && ok ==>
        |p.done + scrub(p.rest).value| <= hi - lo
        && buf[..] == Splice(p.base, lo, p.done + scrub(p.rest).value)
    {
      var st;
      ghost var c;
      assert p.rest[..|p.rest|] == p.rest;
      n, st, c := OneRecord(buf, lo + pos, hi - lo - pos, t, p, one);
      VarNext(rename, t, one, scrub, p.rest, c, p.done);
      more, ok, p' := st.Ok? && n > 0, false, p;
      if !st.Refused? {
        p' := Advance(p, Written(c), |Written(c)|);
        Empties(p.rest, Written(c));
        if st.CutShort? {
          FinishesAt(buf[..], p');
          DoneHeld(buf[..], p', pos);
          assert p'.done[pos..] == c.body;
          ok := Padding(buf, lo + pos, hi);
        }
      }
    }

    // Records whose length the walk finds.
    method RewriteVar(buf: array<Byte>, lo: nat, hi: nat, t: Template, ghost was: Bytes, ghost body: Bytes)
        returns (ok: bool, ghost o: Option<Bytes>)
      requires Valid() && lo <= hi <= buf.Length && was == buf[..] && body == was[lo..hi]
      modifies this`m, this`rewritten, buf
      ensures Valid() && o == ScrubVar(rename, t, body) && ok == o.Some?
      ensures ok ==> buf[..] == Splice(was, lo, o.value)
      ensures Within(was, buf[..], lo, hi)
    {
      ghost var p := StartOf(was, lo, hi);
      Starts(was, lo, hi);
      ghost var one, scrub := VarScrubber(rename, t, body);
      o := scrub(body);
      AppendNothing(o);
      var pos := 0;
      while lo + pos < hi
        invariant Valid() && p.base == was && p.lo == lo && p.hi == hi && |p.done| == pos && lo + pos <= hi
        invariant Holds(buf[..], p) && o == Append(p.done, scrub(p.rest))
        decreases hi - pos
      {
        var n, more;
        n, more, ok, p := NextVar(buf, lo, hi, pos, t, p, one, scrub);
        if !more { return; }
        pos := pos + n;
      }
      VarEnds(rename, t, one, scrub);
      Finishes(buf[..], p);
      HeldWithin(buf[..], p);
      ok := true;
    }

    // The body of a data set.
    method RewriteData(d: Dialect, buf: array<Byte>, lo: nat, hi: nat, t: Template, ghost was: Bytes,
                       ghost body: Bytes) returns (ok: bool, ghost o: Option<Bytes>)
      requires Valid() && lo <= hi <= buf.Length && (d.V9? ==> !t.hasVar) && was == buf[..] && body == was[lo..hi]
      modifies this`m, this`rewritten, buf
      ensures Valid() && o == ScrubData(rename, t, body) && ok == o.Some?
      ensures ok ==> buf[..] == Splice(was, lo, o.value)
      ensures Within(was, buf[..], lo, hi)
    {
      ok, o := false, None;
      if t.isOptions { return; }
      if t.hasVar {
        ok, o := RewriteVar(buf, lo, hi, t, was, body);
      } else if t.recordLen == 0 {
        ok := hi == lo;
        if ok { o := Some(body); }
      } else if (hi - lo) % t.recordLen == 0 {
        ok, o := RewriteFixed(buf, lo, hi, t, was, body);
      }
    }

    // A data set: dropped with the packet if its template is not known.
    method RewriteSet(d: Dialect, exporter: Bytes, domain: nat, id: nat, buf: array<Byte>, lo: nat, hi: nat,
                      ghost was: Bytes, ghost body: Bytes, ghost cl: Cleaner)
      returns (ok: bool, ghost o: Option<Bytes>)
      requires Valid() && Cleans(d, rename, exporter, domain, cl) && lo <= hi <= buf.Length && was == buf[..]
        && body == was[lo..hi]
      modifies this`m, this`rewritten, buf
      ensures Valid() && o == cl.scrub(Known(d), id, body) && ok == o.Some?
      ensures ok ==> |o.value| == |body| && buf[..] == Splice(was, lo, o.value)
      ensures Within(was, buf[..], lo, hi)
    {
      assert At((Known(d), id as int, body));
      var key := Key(exporter, domain, id);
      if key !in Known(d) { return false, None; }
      ok, o := RewriteData(d, buf, lo, hi, Known(d)[key], was, body);
    }

    method Note(d: Dialect, key: Key, t: Template)
      requires Valid() && (d.V9? ==> !t.hasVar)
      modifies this`v9, this`ipfix
      ensures Valid() && Known(d) == old(Known(d))[key := t]
      ensures Known(Other(d)) == old(Known(Other(d)))
    {
      if d.V9? { v9 := v9[key := t]; } else { ipfix := ipfix[key := t]; }
    }

    // Template sets are noted; withdrawals are not.
    method NoteTemplates(d: Dialect, exporter: Bytes, domain: nat, body: Bytes)
      requires Valid()
      modifies this`v9, this`ipfix
      ensures Valid() && Known(d) == Learn(old(Known(d)), exporter, domain, ParseTemplates(d, body))
      ensures Known(Other(d)) == old(Known(Other(d)))
    {
      ghost var start := Known(d);
      ghost var at, items := TemplateLister(d, body);
      assert body[0..] == body;
      var p := 0;
      while p + 4 <= |body|
        invariant Valid() && p <= |body|
        invariant Learn(start, exporter, domain, items(body)) == Learn(Known(d), exporter, domain, items(body[p..]))
        invariant Known(Other(d)) == old(Known(Other(d)))
        decreases |body| - p
      {
        var item, next := NextTemplate(d, body, p);
        ListStep(at, items, body, p, item, next);
        if item == None { return; }
        LearnFirst(Known(d), exporter, domain, item.value, items(body[next..]));
        if item.value.Define? {
          assert d.V9? ==> !item.value.t.hasVar;
          Note(d, Key(exporter, domain, item.value.id), item.value.t);
        }
        p := next;
      }
      ListEnds(d, at, items, body[p..]);
    }

    method NoteAny(d: Dialect, exporter: Bytes, domain: nat, id: nat, body: Bytes)
      requires Valid()
      modifies this`v9, this`ipfix
      ensures Valid() && Known(d) == NoteSet(d, old(Known(d)), exporter, domain, id, body)
      ensures Known(Other(d)) == old(Known(Other(d)))
    {
      if id == TemplateSet(d) {
        NoteTemplates(d, exporter, domain, body);
      } else if id == OptionsSet(d) && |body| >= 2 {
        Note(d, Key(exporter, domain, U16(body, 0)), OptionsTemplate(0));
      }
    }

    method NoteFor(d: Dialect, exporter: Bytes, domain: nat, id: nat, body: Bytes, ghost cl: Cleaner)
      requires Valid() && Cleans(d, rename, exporter, domain, cl)
      modifies this`v9, this`ipfix
      ensures Valid() && Known(d) == cl.learn(old(Known(d)), id, body)
      ensures Known(Other(d)) == old(Known(Other(d)))
    {
      assert At((Known(d), id as int, body));
      NoteAny(d, exporter, domain, id, body);
    }

    // The body of the data set at the front of the rest; `n` is the set's length.
    method WriteSet(d: Dialect, exporter: Bytes, domain: nat, id: nat, buf: array<Byte>, at: nat, n: nat,
                    ghost p: Part, ghost body: Bytes, ghost cl: Cleaner)
      returns (ok: bool, ghost o: Option<Bytes>)
      requires Valid() && Holds(buf[..], p) && at == p.lo + |p.done| && 4 <= n <= |p.rest|
        && Cleans(d, rename, exporter, domain, cl)
      requires body == p.rest[4..n]
      modifies this`m, this`rewritten, buf
      ensures Valid() && Within(p.base, buf[..], p.lo, p.hi) && o == cl.scrub(Known(d), id, body)
        && ok == o.Some?
      ensures ok ==> |o.value| == n - 4 && Holds(buf[..], Advance(p, p.rest[..4] + o.value, n))
    {
      ghost var was := buf[..];
      RestHeld(was, p, 4, n);
      HeldWithin(was, p);
      ok, o := RewriteSet(d, exporter, domain, id, buf, at + 4, at + n, was, body, cl);
      WithinTwice(p.base, was, buf[..], p.lo, p.hi, at + 4, at + n);
      if ok { Advances(was, buf[..], p, 4, o.value, n); }
    }

    // A template set at the front of the rest: its bytes stay and its templates are noted.
    method NoteAt(d: Dialect, exporter: Bytes, domain: nat, id: nat, buf: array<Byte>, n: nat, ghost p: Part,
                  body: Bytes, ghost rest': Bytes,
                  ghost cl: Cleaner, ghost san: (Templates, Bytes) -> Sanitized)
      returns (ghost p': Part)
      requires Valid() && Holds(buf[..], p) && 4 <= n <= |p.rest| && WholeSet(p.rest)
        && id == U16(p.rest, 0) < DATA_MIN
      requires n == U16(p.rest, 2) && body == SetBody(p.rest) && rest' == p.rest[n..]
      requires Cleans(d, rename, exporter, domain, cl) && Sans(cl, san)
      modifies this`v9, this`ipfix
      ensures Valid() && p' == Advance(p, p.rest[..n], n) && Holds(buf[..], p')
      ensures Behind(p.done, san(old(Known(d)), p.rest)) == Behind(p'.done, san(Known(d), p'.rest))
      ensures Known(Other(d)) == old(Known(Other(d)))
    {
      SansNoted(cl, san, Known(d), p.rest, id, body, rest', p.done);
      Skips(buf[..], p, n);
      p' := Advance(p, p.rest[..n], n);
      Halves(p.rest, n, body);
      NoteFor(d, exporter, domain, id, body, cl);
    }

    // One set at the front of the rest; `san` is the sanitizer's own definition.
    method SanitizeSet(d: Dialect, exporter: Bytes, domain: nat, buf: array<Byte>, lo: nat, hi: nat, pos: nat,
                       ghost p: Part, ghost cl: Cleaner,
                       ghost san: (Templates, Bytes) -> Sanitized)
      returns (pos': nat, ok: bool, ghost p': Part)
      requires Valid() && Holds(buf[..], p) && p.lo == lo && p.hi == hi && |p.done| == pos && lo + pos + 4 <= hi
      requires Cleans(d, rename, exporter, domain, cl) && Sans(cl, san)
      modifies this`m, this`rewritten, this`v9, this`ipfix, buf
      ensures Valid() && Within(p.base, buf[..], lo, hi)
      ensures Known(Other(d)) == old(Known(Other(d)))
      ensures ok ==>
        p' == p.(done := p'.done, rest := p'.rest) && pos < pos' && |p'.done| == pos'
        && lo + pos' <= hi && Holds(buf[..], p')
      ensures ok ==> Behind(p.done, san(old(Known(d)), p.rest)) == Behind(p'.done, san(Known(d), p'.rest))
      ensures !ok ==> !san(old(Known(d)), p.rest).ok && Known(d) == san(old(Known(d)), p.rest).known
    {
      ghost var known, rest := Known(d), p.rest;
      RestHeld(buf[..], p, 0, |rest|);
      HeldWithin(buf[..], p);
      var id, body, next;
      ghost var rest';
      id, body, next, ok, rest' := ReadSet(buf[..], lo + pos, hi, rest);
      pos', p' := pos, p;
      if !ok {
        SansEnds(cl, san, known, rest);
        return;
      }
      var n := next - lo - pos;
      pos' := next - lo;
      if id < DATA_MIN {
        p' := NoteAt(d, exporter, domain, id, buf, n, p, body, rest', cl, san);
      } else {
        ghost var o;
        ok, o := WriteSet(d, exporter, domain, id, buf, lo + pos, n, p, body, cl);
        SansWritten(cl, san, known, rest, id, body, rest', p.done, o);
        if ok {
          p' := Advance(p, rest[..4] + o.value, n);
          Empties(rest, rest[..4] + o.value);
        }
      }
    }

    // The loop over the sets between `lo` and `hi`.
    method SanitizeAll(d: Dialect, exporter: Bytes, domain: nat, buf: array<Byte>, lo: nat, hi: nat,
                       ghost was: Bytes, ghost body: Bytes, ghost s: Sanitized) returns (ok: bool)
      requires Valid() && lo <= hi <= buf.Length && was == buf[..] && body == was[lo..hi]
      requires s == SanitizeSets(CleanerOf(d, rename, exporter, domain), Known(d), body)
      modifies this`m, this`rewritten, this`v9, this`ipfix, buf
      ensures Valid() && ok == s.ok && Known(d) == s.known
      ensures Known(Other(d)) == old(Known(Other(d)))
      ensures ok ==> |s.bytes| == hi - lo && buf[..] == Splice(was, lo, s.bytes)
      ensures Within(was, buf[..], lo, hi)
    {
      ghost var p := StartOf(was, lo, hi);
      Starts(was, lo, hi);
      ghost var cl := CleanerOf(d, rename, exporter, domain);
      CleanerCleans(d, rename, exporter, domain);
      ghost var san := SanOf(cl, Known(d), body);
      BehindNothing(s);
      var pos := 0;
      while lo + pos + 4 <= hi
        invariant Valid() && p.base == was && p.lo == lo && p.hi == hi && |p.done| == pos && lo + pos <= hi
        invariant Holds(buf[..], p) && s == Behind(p.done, san(Known(d), p.rest))
        invariant Known(Other(d)) == old(Known(Other(d)))
        decreases hi - pos
      {
        pos, ok, p := SanitizeSet(d, exporter, domain, buf, lo, hi, pos, p, cl, san);
        if !ok { return; }
      }
      SansEnds(cl, san, Known(d), p.rest);
      Finishes(buf[..], p);
      HeldWithin(buf[..], p);
      ok := true;
    }

    // The sets of a payload that has its header; `s` is the sanitized payload.
    method SanitizeInside(d: Dialect, exporter: Bytes, buf: array<Byte>, lo: nat, hi: nat, header: nat,
                          end: nat, domain: nat, ghost was: Bytes, ghost payload: Bytes)
      returns (ok: bool, ghost s: Sanitized, ghost inside: Bytes)
      requires Valid() && lo <= hi <= buf.Length && was == buf[..] && payload == was[lo..hi]
        && |payload| >= HeaderLen(d)
      requires header == HeaderLen(d) && end == EndOf(d, payload) && domain == DomainOf(d, payload)
      modifies this`m, this`rewritten, this`v9, this`ipfix, buf
      ensures Valid() && s == SanitizePacket(d, rename, old(Known(d)), exporter, payload) && ok == s.ok
        && Known(d) == s.known && Known(Other(d)) == old(Known(Other(d)))
      ensures ok ==>
        |inside| == end - header && s.bytes == payload[..header] + inside + payload[end..]
        && buf[..] == Splice(was, lo + header, inside)
      ensures Within(was, buf[..], lo + header, lo + end)
    {
      ghost var sets := PacketSets(d, rename, Known(d), exporter, payload, domain, header, end);
      s, inside := SanitizePacket(d, rename, Known(d), exporter, payload), sets.bytes;
      Slice(was, lo, hi, header, end);
      ok := SanitizeAll(d, exporter, domain, buf, lo + header, lo + end, was, payload[header..end], sets);
    }

    // A NetFlow v9 or IPFIX payload between `lo` and `hi`.
    method SanitizeFlows(d: Dialect, exporter: Bytes, buf: array<Byte>, lo: nat, hi: nat, ghost was: Bytes,
                         ghost payload: Bytes) returns (ok: bool, ghost s: Sanitized)
      requires Valid() && lo <= hi <= buf.Length && was == buf[..] && payload == was[lo..hi]
      modifies this`m, this`rewritten, this`v9, this`ipfix, buf
      ensures Valid() && s == SanitizePacket(d, rename, old(Known(d)), exporter, payload) && ok == s.ok
        && Known(d) == s.known && Known(Other(d)) == old(Known(Other(d)))
      ensures ok ==> |s.bytes| == hi - lo && buf[..] == Splice(was, lo, s.bytes)
      ensures Within(was, buf[..], lo, hi)
    {
      if hi - lo < HeaderLen(d) {
        s := Sanitized(true, payload, Known(d));
        return true, s;
      }
      var header, end, domain := HeaderLen(d), EndOf(d, buf[lo..hi]), DomainOf(d, buf[lo..hi]);
      ghost var inside;
      ok, s, inside := SanitizeInside(d, exporter, buf, lo, hi, header, end, domain, was, payload);
      if ok { InsideWritten(was, lo, hi, header, end, inside, payload); }
      WithinWider(was, buf[..], lo, hi, lo + header, lo + end);
    }

    // ---- NetFlow v5 ----

    // Rewrites the address at the front of the rest.
    method RewriteFront(buf: array<Byte>, at: nat, ghost p: Part) returns (ghost p': Part)
      requires Valid() && Holds(buf[..], p) && at == p.lo + |p.done| && 4 <= |p.rest|
      modifies this`m, this`rewritten, buf
      ensures Valid() && Holds(buf[..], p')
        && p' == p.(done := p.done + Rename(rename, p.rest[..4]), rest := p.rest[4..])
    {
      ghost var was, v := buf[..], p.rest[..4];
      RestHeld(was, p, 0, 4);
      RewriteAt(buf, at);
      Walked(was, buf[..], p, Rename(rename, v), 4);
      Empties(p.rest, Rename(rename, v));
      p' := Advance(p, Rename(rename, v), 4);
    }

    // Three addresses lead each 48-byte record.
    method RewriteV5Record(buf: array<Byte>, at: nat, ghost p: Part) returns (ghost p': Part)
      requires Valid() && Holds(buf[..], p) && at == p.lo + |p.done| && 48 <= |p.rest|
      modifies this`m, this`rewritten, buf
      ensures Valid() && Holds(buf[..], p')
        && p' == p.(done := p.done + V5Record(rename, p.rest), rest := p.rest[48..])
    {
      ghost var p1 := RewriteFront(buf, at, p);
      ghost var p2 := RewriteFront(buf, at + 4, p1);
      ghost var p3 := RewriteFront(buf, at + 8, p2);
      Skips(buf[..], p3, 36);
      p' := Advance(p3, p3.rest[..36], 36);
      V5Joined(rename, p, p3, p');
    }

    method SanitizeV5(buf: array<Byte>, lo: nat, hi: nat, ghost was: Bytes, ghost payload: Bytes) returns (ok: bool)
      requires Valid() && lo <= hi <= buf.Length && was == buf[..] && payload == was[lo..hi]
      modifies this`m, this`rewritten, buf
      ensures Valid() && ok == V5Ok(payload)
      ensures ok ==> |ScrubV5(rename, payload)| == hi - lo && buf[..] == Splice(was, lo, ScrubV5(rename, payload))
      ensures !ok ==> buf[..] == was
    {
      if hi - lo < 24 || (hi - lo - 24) % 48 != 0 { return false; }
      ghost var p := StartOf(was, lo, hi);
      Starts(was, lo, hi);
      Skips(was, p, 24);
      p := Advance(p, p.rest[..24], 24);
      V5Starts(rename, was, lo, hi, payload, p);
      var pos := 24;
      while lo + pos + 48 <= hi
        invariant Valid() && p.base == was && p.lo == lo && p.hi == hi && |p.done| == pos && lo + pos <= hi
        invariant Holds(buf[..], p) && ScrubV5(rename, payload) == p.done + V5Records(rename, p.rest)
      {
        V5Next(rename, p.done, p.rest);
        p := RewriteV5Record(buf, lo + pos, p);
        pos := pos + 48;
      }
      Finishes(buf[..], p);
      ok := true;
    }

    // ---- frames ----

    method SanitizePayload(exporter: Bytes, buf: array<Byte>, lo: nat, hi: nat, ghost was: Bytes,
                           ghost payload: Bytes, ghost clean: Cleaning)
      returns (ok: bool, ghost b: Option<Bytes>)
      requires Valid() && lo <= hi <= buf.Length && was == buf[..] && payload == was[lo..hi]
        && IsCleaning(rename, v9, ipfix, clean)
      modifies this`m, this`rewritten, this`v9, this`ipfix, buf
      ensures Valid() && b == clean(exporter, payload) && ok == b.Some?
      ensures Memory(v9, ipfix) == Noted(rename, Memory(old(v9), old(ipfix)), exporter, payload)
      ensures ok ==> |b.value| == hi - lo && buf[..] == Splice(was, lo, b.value)
    {
      b := clean(exporter, payload);
      assert At((exporter, payload));
      if hi - lo < 4 { return false, b; }
      var version := U16(buf[lo..hi], 0);
      ghost var s;
      if version == 5 { ok := SanitizeV5(buf, lo, hi, was, payload); }
      else if version == 9 { ok, s := SanitizeFlows(V9, exporter, buf, lo, hi, was, payload); }
      else if version == 10 { ok, s := SanitizeFlows(Ipfix, exporter, buf, lo, hi, was, payload); }
      else { ok := false; }
    }

    method RewriteAddresses(frame: array<Byte>, l3: nat, ghost f: Bytes)
      requires Valid() && l3 + 20 <= frame.Length && f == frame[..]
      modifies this`m, this`rewritten, frame
      ensures Valid()
        && frame[..] == Splice(f, l3 + 12, Rename(rename, f[l3 + 12..l3 + 16]) + Rename(rename, f[l3 + 16..l3 + 20]))
    {
      RewriteAt(frame, l3 + 12);
      ghost var f1 := frame[..];
      RewriteAt(frame, l3 + 16);
      BothRenamed(rename, f, f1, frame[..], l3);
    }

    // Both addresses, then the checksum over the new header.
    method RewriteHeader(frame: array<Byte>, l3: nat, ihl: nat, ghost f: Bytes)
      requires Valid() && 20 <= ihl <= 60 && l3 + ihl <= frame.Length && f == frame[..]
      modifies this`m, this`rewritten, frame
      ensures Valid() && frame[..] == CleanHeader(rename, f, l3, ihl)
    {
      RewriteAddresses(frame, l3, f);
      ghost var f1 := frame[..];
      var c := Ipv4Checksum(frame[l3..l3 + ihl]);
      HeaderIs(rename, f, f1, l3, ihl, c);
      PutBytes(frame, l3 + 10, Put16(c));
    }

    // The payload of a UDP datagram, before its frame's header.
    method SanitizeUdp(frame: array<Byte>, u: Udp, exporter: Bytes, ghost f: Bytes, ghost payload: Bytes,
                       ghost clean: Cleaning) returns (ok: bool, ghost b: Option<Bytes>)
      requires Valid() && f == frame[..] && u.udp + 8 == u.off && u.off + u.len <= frame.Length
        && IsCleaning(rename, v9, ipfix, clean)
      requires payload == f[u.off..u.off + u.len]
      modifies this`m, this`rewritten, this`v9, this`ipfix, frame
      ensures Valid() && b == clean(exporter, payload) && ok == b.Some?
      ensures Memory(v9, ipfix) == Noted(rename, Memory(old(v9), old(ipfix)), exporter, payload)
      ensures ok ==> |b.value| == u.len && frame[..] == CleanDatagram(f, u, b.value)
    {
      ok, b := SanitizePayload(exporter, frame, u.off, u.off + u.len, f, payload, clean);
      if ok { ClearChecksum(frame, u, f, b.value); }
    }

    // A zero UDP checksum is valid over IPv4.
    method ClearChecksum(frame: array<Byte>, u: Udp, ghost f: Bytes, ghost b: Bytes)
      requires |f| == frame.Length && u.udp + 8 == u.off && u.off + u.len <= frame.Length && |b| == u.len
        && frame[..] == Splice(f, u.off, b)
      modifies frame
      ensures frame[..] == CleanDatagram(f, u, b)
    {
      PutBytes(frame, u.udp + 6, [0, 0]);
    }

    method CleanUdp(frame: array<Byte>, ip: Ipv4, u: Udp, ghost f: Bytes, ghost exporter: Bytes, ghost payload: Bytes,
                    ghost clean: Cleaning) returns (ok: bool, ghost b: Option<Bytes>)
      requires Valid() && f == frame[..] && IsCleaning(rename, v9, ipfix, clean) && Placed(f, Some(ip), Some(u))
      requires exporter == f[ip.l3 + 12..ip.l3 + 16] && payload == f[u.off..u.off + u.len]
      modifies this`m, this`rewritten, this`v9, this`ipfix, frame
      ensures Valid() && b == clean(exporter, payload) && ok == b.Some?
      ensures Memory(v9, ipfix) == Noted(rename, Memory(old(v9), old(ipfix)), exporter, payload)
      ensures ok ==> |b.value| == u.len && frame[..] == CleanHeader(rename, CleanDatagram(f, u, b.value), ip.l3, ip.ihl)
    {
      ok, b := SanitizeUdp(frame, u, frame[ip.l3 + 12..ip.l3 + 16], f, payload, clean);
      if ok { RewriteHeader(frame, ip.l3, ip.ihl, frame[..]); }
    }

    // A frame parsed as IPv4, and as UDP if it is.
    method CleanInPlace(frame: array<Byte>, ip: Ipv4, udp: Option<Udp>, ghost f: Bytes, ghost clean: Cleaning,
                        ghost out: Option<Bytes>) returns (ok: bool)
      requires Valid() && f == frame[..] && IsCleaning(rename, v9, ipfix, clean)
      requires Placed(f, Some(ip), udp) && CleanCase(rename, clean, f, Some(ip), udp, out)
      modifies this`m, this`rewritten, this`v9, this`ipfix, frame
      ensures Valid() && ok == out.Some? && (ok ==> frame[..] == out.value)
      ensures Memory(v9, ipfix) == NotedBy(rename, Memory(old(v9), old(ipfix)), f, ip, udp)
    {
      if udp == None {
        RewriteHeader(frame, ip.l3, ip.ihl, f);
        return true;
      }
      var u := udp.value;
      ghost var exporter, payload := f[ip.l3 + 12..ip.l3 + 16], f[u.off..u.off + u.len];
      UdpCase(rename, clean, Memory(v9, ipfix), f, ip, u, out, exporter, payload);
      ghost var b;
      ok, b := CleanUdp(frame, ip, u, f, exporter, payload, clean);
    }

    // One frame: kept with what `CleanBy` says in it, or dropped and counted.
    method Frame(link: nat, frame: array<Byte>, ghost clean: Cleaning, ghost out: Option<Bytes>) returns (ok: bool)
      requires Valid() && IsCleaning(rename, v9, ipfix, clean) && out == CleanBy(rename, clean, link, frame[..])
      modifies this, frame
      ensures Valid() && ok == out.Some? && (ok ==> frame[..] == out.value)
      ensures Memory(v9, ipfix) == NotedFrame(rename, Memory(old(v9), old(ipfix)), link, old(frame[..]))
      ensures packets == old(packets) + 1 && kept == old(kept) + (if ok then 1 else 0)
        && dropped == old(dropped) + (if ok then 0 else 1)
    {
      packets := packets + 1;
      var ip, udp := ParseIpv4(link, frame[..]), ParseUdp(link, frame[..]);
      Parsed(rename, link, frame[..], clean, out, ip, udp);
      ok := false;
      if ip.Some? { ok := CleanInPlace(frame, ip.value, udp, frame[..], clean, out); }
      if ok { kept := kept + 1; } else { dropped := dropped + 1; }
    }
  }
}
