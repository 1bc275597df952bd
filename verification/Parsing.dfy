/** The decoders' loops that only read: field specifiers, one record, one data set.  Each is proved
    to compute what the recursive definitions say, and never to index out of bounds.  */
module Parsing {
  import opened Prelude
  import opened Wire
  import opened Decode
  import opened Buffers

  // The loops below carry functions such as `make` instead of the definitions they stand for; `At`
  // marks the arguments at which a proof looks the definition up.
  predicate At<T>(x: T) { true }

  // ---- field specifiers ----

  function Resume<T>(done: seq<T>, n: nat, rest: Option<(seq<T>, nat)>): Option<(seq<T>, nat)> {
    match rest
    case None => None
    case Some(r) => Some((done + r.0, n + r.1))
  }

  lemma {:induction false} FixedLenAppend(d: Dialect, fields: seq<Field>, f: Field)
    ensures FixedLen(d, fields + [f]) == FixedLen(d, fields) + if d.Ipfix? && f.length == VARLEN then 0 else f.length
    decreases |fields|
  {
    if fields == [] {
      assert [f][1..] == [];
    } else {
      FixedLenAppend(d, fields[1..], f);
      assert (fields + [f])[1..] == fields[1..] + [f];
    }
  }

  lemma HasVarAppend(d: Dialect, fields: seq<Field>, f: Field)
    ensures HasVar(d, fields + [f]) <==> HasVar(d, fields) || (d.Ipfix? && f.length == VARLEN)
  {
    var all := fields + [f];
    assert forall i | 0 <= i < |fields| :: all[i] == fields[i];
    assert all[|fields|] == f;
  }

  lemma ResumeNothing<T>(rest: Option<(seq<T>, nat)>)
    ensures Resume([], 0, rest) == rest
  {
    if rest.Some? { assert [] + rest.value.0 == rest.value.0; }
  }

  lemma ResumeEnds<T>(done: seq<T>, n: nat)
    ensures Resume(done, n, Some(([], 0))) == Some((done, n))
  {
    assert done + [] == done;
  }

  lemma ResumeCons<T>(done: seq<T>, n: nat, x: T, k: nat, rest: (seq<T>, nat))
    ensures Resume(done, n, Some(([x] + rest.0, k + rest.1))) == Resume(done + [x], n + k, Some(rest))
  {
    assert done + ([x] + rest.0) == done + [x] + rest.0;
  }

  lemma SpecsStep(d: Dialect, body: Bytes, count: nat, done: seq<Field>, n: nat)
    requires count > 0
    ensures ParseSpec(d, body) == None ==> ParseSpecs(d, body, count) == None
    ensures ParseSpec(d, body).Some? ==> var fn := ParseSpec(d, body).value;
      Resume(done, n, ParseSpecs(d, body, count))
        == Resume(done + [fn.0], n + fn.1, ParseSpecs(d, body[fn.1..], count - 1))
  {
    var spec := ParseSpec(d, body);
    if spec.Some? {
      var rest := ParseSpecs(d, body[spec.value.1..], count - 1);
      if rest.Some? { ResumeCons(done, n, spec.value.0, spec.value.1, rest.value); }
    }
  }

  lemma Suffix(body: Bytes, p: nat, n: nat)
    requires p + n <= |body|
    ensures body[p..][n..] == body[p + n..]
  {
  }

  // The specifier at position `p`.
  method ReadSpec(d: Dialect, body: Bytes, p: nat) returns (f: Field, next: nat, ok: bool)
    requires p <= |body|
    ensures ok ==> p < next <= |body|
    ensures ParseSpec(d, body[p..]) == if ok then Some((f, next - p)) else None
  {
    f, next := Field(0, 0, false), p;
    if p + 4 > |body| { return f, p, false; }
    var ie, length := U16(body, p), U16(body, p + 2);
    next := p + 4;
    var enterprise := d.Ipfix? && ie >= 0x8000;
    if enterprise {
      if next + 4 > |body| { return f, p, false; }
      next := next + 4;
      ie := ie - 0x8000;
    }
    f, ok := Field(ie, length, enterprise), true;
  }

  lemma SpecsNext(d: Dialect, body: Bytes, p: nat, next: nat, f: Field, count: nat, done: seq<Field>, n: nat,
                  rest: Option<(seq<Field>, nat)>)
    returns (rest': Option<(seq<Field>, nat)>)
    requires count > 0 && p < next <= |body| && ParseSpec(d, body[p..]) == Some((f, next - p))
      && rest == ParseSpecs(d, body[p..], count)
    ensures rest' == ParseSpecs(d, body[next..], count - 1)
    ensures Resume(done, n, rest) == Resume(done + [f], n + next - p, rest')
  {
    rest' := ParseSpecs(d, body[next..], count - 1);
    SpecsStep(d, body[p..], count, done, n);
    Suffix(body, p, next - p);
  }

  ghost predicate Parses(d: Dialect, parse: (Bytes, nat) -> Option<(seq<Field>, nat)>) {
    forall b, n {:trigger At<(Bytes, nat)>((b, n))} :: At<(Bytes, nat)>((b, n)) ==> parse(b, n) == ParseSpecs(d, b, n)
  }

  lemma ParseOf(d: Dialect, body: Bytes, count: nat) returns (parse: (Bytes, nat) -> Option<(seq<Field>, nat)>)
    ensures Parses(d, parse) && parse(body, count) == ParseSpecs(d, body, count)
      && forall b :: parse(b, 0) == Some(([], 0))
  {
    parse := (b: Bytes, n: nat) => ParseSpecs(d, b, n);
  }

  // The next specifier, behind the ones in `done`.
  method NextSpec(d: Dialect, body: Bytes, p: nat, count: nat, ghost done: seq<Field>, ghost n: nat,
                  ghost parse: (Bytes, nat) -> Option<(seq<Field>, nat)>)
    returns (f: Field, next: nat, ok: bool)
    requires count > 0 && p <= |body| && Parses(d, parse)
    ensures ok ==> p < next <= |body|
    ensures ok ==>
      Resume(done, n, parse(body[p..], count))
            == Resume(done + [f], n + next - p, parse(body[next..], count - 1))
    ensures !ok ==> parse(body[p..], count) == None
  {
    assert At<(Bytes, nat)>((body[p..], count));
    f, next, ok := ReadSpec(d, body, p);
    if ok {
      assert At<(Bytes, nat)>((body[next..], count - 1));
      ghost var rest := SpecsNext(d, body, p, next, f, count, done, n, ParseSpecs(d, body[p..], count));
    }
  }

  ghost predicate Makes(d: Dialect, make: seq<Field> -> Template) {
    forall fields {:trigger At(fields)} :: At(fields) ==> make(fields) == MakeTemplate(d, fields)
  }

  lemma MakeOf(d: Dialect) returns (make: seq<Field> -> Template)
    ensures Makes(d, make) && make([]) == Template([], 0, false, false)
  {
    make := (fields: seq<Field>) => MakeTemplate(d, fields);
  }

  lemma MadeBy(d: Dialect, make: seq<Field> -> Template, fields: seq<Field>)
    requires Makes(d, make)
    ensures make(fields) == MakeTemplate(d, fields)
  {
    assert At(fields);
  }

  // Adds a field to the template: variable lengths only raise the flag.
  method Widen(d: Dialect, f: Field, recordLen: nat, hasVar: bool, ghost fields: seq<Field>,
               ghost make: seq<Field> -> Template)
    returns (recordLen': nat, hasVar': bool)
    requires Makes(d, make) && make(fields) == Template(fields, recordLen, hasVar, false)
    ensures make(fields + [f]) == Template(fields + [f], recordLen', hasVar', false)
  {
    assert At(fields) && At(fields + [f]);
    FixedLenAppend(d, fields, f);
    HasVarAppend(d, fields, f);
    recordLen', hasVar' := recordLen, hasVar;
    if d.Ipfix? && f.length == VARLEN { hasVar' := true; } else { recordLen' := recordLen + f.length; }
  }

  // The loop over the specifiers; `all` is what they should give.
  method SpecsLoop(d: Dialect, body: Bytes, start: nat, count: nat, ghost all: Option<(seq<Field>, nat)>,
                   ghost parse: (Bytes, nat) -> Option<(seq<Field>, nat)>, ghost make: seq<Field> -> Template)
    returns (fields: seq<Field>, recordLen: nat, hasVar: bool, ok: bool, p: nat)
    requires start <= |body| && Parses(d, parse) && Makes(d, make) && make([]) == Template([], 0, false, false)
    requires all == parse(body[start..], count) && forall b :: parse(b, 0) == Some(([], 0))
    ensures ok ==> start <= p <= |body| && make(fields) == Template(fields, recordLen, hasVar, false)
    ensures all == if ok then Some((fields, p - start)) else None
  {
    fields, recordLen, hasVar, p := [], 0, false, start;
    ResumeNothing(all);
    var i := 0;
    while i < count
      invariant i <= count && start <= p <= |body|
      invariant all == Resume(fields, p - start, parse(body[p..], count - i))
      invariant make(fields) == Template(fields, recordLen, hasVar, false)
    {
      var f, next;
      f, next, ok := NextSpec(d, body, p, count - i, fields, p - start, parse);
      if !ok { return; }
      recordLen, hasVar := Widen(d, f, recordLen, hasVar, fields, make);
      fields, p, i := fields + [f], next, i + 1;
    }
    ResumeEnds(fields, p - start);
    ok := true;
  }

  // Reads `count` specifiers from position `start` on, and the template they make.
  method ParseFieldSpecs(d: Dialect, body: Bytes, start: nat, count: nat)
    returns (fields: seq<Field>, recordLen: nat, hasVar: bool, ok: bool, p: nat)
    requires start <= |body|
    ensures ok ==> start <= p <= |body|
    ensures ParseSpecs(d, body[start..], count) == if ok then Some((fields, p - start)) else None
    ensures ok ==> Template(fields, recordLen, hasVar, false) == MakeTemplate(d, fields)
  {
    ghost var make := MakeOf(d);
    ghost var parse := ParseOf(d, body[start..], count);
    fields, recordLen, hasVar, ok, p := SpecsLoop(d, body, start, count, parse(body[start..], count), parse, make);
    if ok { MadeBy(d, make, fields); }
  }

  // ---- one record ----

  lemma ResumePrepend(done: seq<Bytes>, n: nat, v: Bytes, k: nat, rest: Option<(seq<Bytes>, nat)>)
    ensures Resume(done, n, Prepend(v, k, rest)) == Resume(done + [v], n + k, rest)
  {
    if rest.Some? { ResumeCons(done, n, v, k, rest.value); }
  }

  lemma WalkNext(d: Dialect, body: Bytes, fields: seq<Field>, s: Span, done: seq<Bytes>, n: nat, k: nat)
    requires fields != [] && Locate(d, body, fields[0]) == Some(s) && k == s.off + s.len
    ensures Resume(done, n, Walk(d, body, fields))
            == Resume(done + [Value(body, s)], n + k, Walk(d, body[k..], fields[1..]))
  {
    ResumePrepend(done, n, Value(body, s), k, Walk(d, body[k..], fields[1..]));
  }

  // Folding with any step.
  function FoldBy(step: (Flow, Field, Bytes) -> Flow, flow: Flow, fields: seq<Field>, values: seq<Bytes>): Flow
    requires |fields| == |values|
    decreases |fields|
  {
    if fields == [] then flow else FoldBy(step, step(flow, fields[0], values[0]), fields[1..], values[1..])
  }

  lemma {:induction false} FoldAppend(step: (Flow, Field, Bytes) -> Flow, flow: Flow, fields: seq<Field>,
                                      values: seq<Bytes>, f: Field, v: Bytes)
    requires |fields| == |values|
    ensures FoldBy(step, flow, fields + [f], values + [v]) == step(FoldBy(step, flow, fields, values), f, v)
    decreases |fields|
  {
    if fields == [] {
      assert (fields + [f])[1..] == [] && (values + [v])[1..] == [];
    } else {
      FoldAppend(step, step(flow, fields[0], values[0]), fields[1..], values[1..], f, v);
      assert (fields + [f])[1..] == fields[1..] + [f] && (values + [v])[1..] == values[1..] + [v];
    }
  }

  ghost predicate Steps(d: Dialect, base: int, step: (Flow, Field, Bytes) -> Flow) {
    forall flow, f, v {:trigger At((flow, f, v))} :: At((flow, f, v)) ==>
      step(flow, f, v) == ApplyOne(d, flow, f, v, base)
  }

  lemma {:induction false} FoldIsFoldBy(d: Dialect, flow: Flow, fields: seq<Field>, values: seq<Bytes>,
                                        base: int, step: (Flow, Field, Bytes) -> Flow)
    requires |fields| == |values| && Steps(d, base, step)
    ensures Fold(d, flow, fields, values, base) == FoldBy(step, flow, fields, values)
    decreases |fields|
  {
    if fields != [] {
      var next := step(flow, fields[0], values[0]);
      assert At((flow, fields[0], values[0]));
      FoldIsFoldBy(d, next, fields[1..], values[1..], base, step);
    }
  }

  // Writes one value into the flow, unless its field is an enterprise's own.
  method Apply(d: Dialect, flow: Flow, f: Field, v: Bytes, base: int, ghost step: (Flow, Field, Bytes) -> Flow)
      returns (flow': Flow)
    requires Steps(d, base, step)
    ensures flow' == step(flow, f, v)
  {
    assert At((flow, f, v));
    flow' := flow;
    if !f.enterprise { flow' := ApplyField(d, flow, f.ie, v, base); }
  }

  // Where the value of field `f` lies, from position `pos` on: a variable length is announced in
  // one byte, or in three.
  method FindValue(d: Dialect, body: Bytes, pos: nat, f: Field) returns (off: nat, len: nat, ok: bool)
    requires d.Ipfix? && pos <= |body|
    ensures ok ==> pos <= off && off + len <= |body|
    ensures Locate(d, body[pos..], f) == if ok then Some(Span(off - pos, len)) else None
  {
    off, len := pos, f.length;
    if f.length == VARLEN {
      if pos >= |body| { return off, len, false; }
      len, off := body[pos], pos + 1;
      if len == 255 {
        if off + 2 > |body| { return off, len, false; }
        len, off := U16(body, off), off + 2;
      }
    }
    ok := off + len <= |body|;
  }

  // The values read so far, and the flow they make; `rest` is the walk over the other fields.
  ghost predicate Reading(step: (Flow, Field, Bytes) -> Flow, first: Flow, all: Option<(seq<Bytes>, nat)>,
                          fields: seq<Field>, i: nat, pos: nat,
                          values: seq<Bytes>, flow: Flow, rest: Option<(seq<Bytes>, nat)>) {
    && i == |values| <= |fields| && all == Resume(values, pos, rest)
    && flow == FoldBy(step, first, fields[..i], values)
  }

  lemma WalkOn(d: Dialect, body: Bytes, fields: seq<Field>, i: nat, pos: nat, values: seq<Bytes>, off: nat,
               len: nat, v: Bytes)
    requires i < |fields| && pos <= off && off + len <= |body| && v == body[off..off + len]
    requires Locate(d, body[pos..], fields[i]) == Some(Span(off - pos, len))
    ensures Resume(values, pos, Walk(d, body[pos..], fields[i..]))
            == Resume(values + [v], off + len, Walk(d, body[off + len..], fields[i + 1..]))
  {
    var b, fs, s, k := body[pos..], fields[i..], Span(off - pos, len), off + len - pos;
    WalkNext(d, b, fs, s, values, pos, k);
    assert fs[1..] == fields[i + 1..];
    assert b[k..] == body[off + len..];
    assert Value(b, s) == v;
  }

  lemma ReadingNext(step: (Flow, Field, Bytes) -> Flow, first: Flow, all: Option<(seq<Bytes>, nat)>,
                    fields: seq<Field>, i: nat, pos: nat,
                    values: seq<Bytes>, flow: Flow, rest: Option<(seq<Bytes>, nat)>, pos': nat, v: Bytes,
                        rest': Option<(seq<Bytes>, nat)>)
    requires Reading(step, first, all, fields, i, pos, values, flow, rest) && i < |fields|
    requires Resume(values, pos, rest) == Resume(values + [v], pos', rest')
    ensures Reading(step, first, all, fields, i + 1, pos', values + [v], step(flow, fields[i], v), rest')
  {
    FoldAppend(step, first, fields[..i], values, fields[i], v);
    assert fields[..i] + [fields[i]] == fields[..i + 1];
  }

  lemma FoldFinished(d: Dialect, fields: seq<Field>, values: seq<Bytes>, ctx: Context,
                     step: (Flow, Field, Bytes) -> Flow, flow: Flow, final: Flow)
    requires |fields| == |values| && Steps(d, ctx.base, step)
      && flow == FoldBy(step, EmptyFlow(ctx), fields, values) && final == Finish(d, flow, ctx)
    ensures RecordFlow(d, fields, values, ctx) == final
  {
    FoldIsFoldBy(d, EmptyFlow(ctx), fields, values, ctx.base, step);
  }

  lemma RecordRead(d: Dialect, body: Bytes, fields: seq<Field>, ctx: Context, values: seq<Bytes>, n: nat, final: Flow)
    requires Walk(d, body, fields) == Some((values, n)) && |fields| == |values|
      && final == RecordFlow(d, fields, values, ctx)
    ensures DecodeRecord(d, body, fields, ctx) == Some((final, n))
  {
  }

  lemma AllRead(step: (Flow, Field, Bytes) -> Flow, first: Flow, all: Option<(seq<Bytes>, nat)>,
                fields: seq<Field>, pos: nat, values: seq<Bytes>, flow: Flow)
    requires Reading(step, first, all, fields, |fields|, pos, values, flow, Some(([], 0)))
    ensures all == Some((values, pos)) && |values| == |fields| && flow == FoldBy(step, first, fields, values)
  {
    assert fields[..|fields|] == fields;
    assert values + [] == values;
  }

  lemma ReadingEnds(d: Dialect, body: Bytes, fields: seq<Field>, ctx: Context, step: (Flow, Field, Bytes) -> Flow,
                    all: Option<(seq<Bytes>, nat)>, pos: nat, values: seq<Bytes>, flow: Flow)
    requires Reading(step, EmptyFlow(ctx), all, fields, |fields|, pos, values, flow, Some(([], 0)))
    requires all == Walk(d, body, fields) && Steps(d, ctx.base, step)
    ensures DecodeRecord(d, body, fields, ctx) == Some((Finish(d, flow, ctx), pos))
  {
    var final := Finish(d, flow, ctx);
    AllRead(step, EmptyFlow(ctx), all, fields, pos, values, flow);
    FoldFinished(d, fields, values, ctx, step, flow, final);
    RecordRead(d, body, fields, ctx, values, pos, final);
  }

  lemma WalkNone(d: Dialect, body: Bytes, fields: seq<Field>, i: nat)
    requires i < |fields| && Locate(d, body, fields[i]) == None
    ensures Walk(d, body, fields[i..]) == None
  {
  }

  ghost predicate Walks(d: Dialect, walk: (Bytes, seq<Field>) -> Option<(seq<Bytes>, nat)>) {
    forall b, fs {:trigger At((b, fs))} :: At((b, fs)) ==> walk(b, fs) == Walk(d, b, fs)
  }

  lemma WalkOf(d: Dialect, body: Bytes, fields: seq<Field>)
      returns (walk: (Bytes, seq<Field>) -> Option<(seq<Bytes>, nat)>)
    ensures Walks(d, walk) && walk(body, fields) == Walk(d, body, fields) && forall b :: walk(b, []) == Some(([], 0))
    ensures walk(body[0..], fields[0..]) == Resume([], 0, walk(body[0..], fields[0..])) == walk(body, fields)
  {
    walk := (b: Bytes, fs: seq<Field>) => Walk(d, b, fs);
    assert body[0..] == body && fields[0..] == fields;
    ResumeNothing(walk(body, fields));
  }

  lemma WalksAt(d: Dialect, walk: (Bytes, seq<Field>) -> Option<(seq<Bytes>, nat)>, b: Bytes, fs: seq<Field>)
    requires Walks(d, walk)
    ensures walk(b, fs) == Walk(d, b, fs)
  {
    assert At((b, fs));
  }

  lemma WalkOnBy(d: Dialect, walk: (Bytes, seq<Field>) -> Option<(seq<Bytes>, nat)>, body: Bytes, fields: seq<Field>,
                 i: nat, pos: nat,
                 values: seq<Bytes>, off: nat, end: nat, v: Bytes)
    requires Walks(d, walk) && i < |fields| && pos <= off <= end <= |body| && v == body[off..end]
    requires Locate(d, body[pos..], fields[i]) == Some(Span(off - pos, end - off))
    ensures Resume(values, pos, walk(body[pos..], fields[i..]))
            == Resume(values + [v], end, walk(body[end..], fields[i + 1..]))
  {
    var b, b', fs, fs' := body[pos..], body[end..], fields[i..], fields[i + 1..];
    assert b[end - pos..] == b' && fs[1..] == fs' && Value(b, Span(off - pos, end - off)) == v;
    WalksOn(d, walk, b, fs, Span(off - pos, end - off), values, pos, v, b', fs');
  }

  lemma WalksOn(d: Dialect, walk: (Bytes, seq<Field>) -> Option<(seq<Bytes>, nat)>, b: Bytes, fs: seq<Field>, s: Span,
                done: seq<Bytes>, n: nat,
                v: Bytes, b': Bytes, fs': seq<Field>)
    requires Walks(d, walk) && fs != [] && Locate(d, b, fs[0]) == Some(s) && v == Value(b, s)
      && b' == b[s.off + s.len..] && fs' == fs[1..]
    ensures Resume(done, n, walk(b, fs)) == Resume(done + [v], n + s.off + s.len, walk(b', fs'))
  {
    WalksAt(d, walk, b, fs);
    WalksAt(d, walk, b', fs');
    ResumePrepend(done, n, v, s.off + s.len, Walk(d, b', fs'));
  }

  // The value of the next field, behind the ones in `values`.
  method NextValue(d: Dialect, body: Bytes, fields: seq<Field>, i: nat, pos: nat, ghost values: seq<Bytes>,
                   ghost walk: (Bytes, seq<Field>) -> Option<(seq<Bytes>, nat)>)
    returns (v: Bytes, pos': nat, ok: bool)
    requires d.Ipfix? && i < |fields| && pos <= |body| && Walks(d, walk)
    ensures ok ==> pos' <= |body|
    ensures ok ==>
      Resume(values, pos, walk(body[pos..], fields[i..]))
            == Resume(values + [v], pos', walk(body[pos'..], fields[i + 1..]))
    ensures !ok ==> walk(body[pos..], fields[i..]) == None
  {
    v, pos' := [], pos;
    var off, len;
    off, len, ok := FindValue(d, body, pos, fields[i]);
    if !ok {
      assert At((body[pos..], fields[i..]));
      WalkNone(d, body[pos..], fields, i);
    } else {
      v, pos' := body[off..off + len], off + len;
      WalkOnBy(d, walk, body, fields, i, pos, values, off, pos', v);
    }
  }

  method ReadOne(d: Dialect, body: Bytes, fields: seq<Field>, base: int, i: nat, pos: nat, flow: Flow,
                 ghost first: Flow, ghost values: seq<Bytes>,
                 ghost all: Option<(seq<Bytes>, nat)>, ghost step: (Flow, Field, Bytes) -> Flow,
                 ghost walk: (Bytes, seq<Field>) -> Option<(seq<Bytes>, nat)>)
    returns (flow': Flow, pos': nat, ok: bool, ghost values': seq<Bytes>)
    requires d.Ipfix? && Steps(d, base, step) && Walks(d, walk) && i < |fields| && pos <= |body|
    requires Reading(step, first, all, fields, i, pos, values, flow, walk(body[pos..], fields[i..]))
    ensures ok ==>
      pos' <= |body|
      && Reading(step, first, all, fields, i + 1, pos', values', flow', walk(body[pos'..], fields[i + 1..]))
    ensures !ok ==> all == None
  {
    var v;
    flow', values' := flow, values;
    v, pos', ok := NextValue(d, body, fields, i, pos, values, walk);
    if ok {
      flow' := Apply(d, flow, fields[i], v, base, step);
      ReadingNext(step, first, all, fields, i, pos, values, flow, walk(body[pos..], fields[i..]), pos', v,
                  walk(body[pos'..], fields[i + 1..]));
      values' := values + [v];
    }
  }

  lemma StepOf(d: Dialect, base: int) returns (step: (Flow, Field, Bytes) -> Flow)
    ensures Steps(d, base, step)
  {
    step := (flow: Flow, f: Field, v: Bytes) => ApplyOne(d, flow, f, v, base);
  }

  // The IPFIX record loop: checks every length against the bytes left.
  method ReadRecord(d: Dialect, body: Bytes, fields: seq<Field>, ctx: Context) returns (flow: Flow, pos: nat, ok: bool)
    requires d.Ipfix?
    ensures DecodeRecord(d, body, fields, ctx) == if ok then Some((flow, pos)) else None
  {
    var empty := EmptyFlow(ctx);
    flow, pos := empty, 0;
    ghost var step := StepOf(d, ctx.base);
    ghost var walk := WalkOf(d, body, fields);
    ghost var all := walk(body, fields);
    ghost var values: seq<Bytes> := [];
    var i := 0;
    while i < |fields|
      invariant i <= |fields| && pos <= |body|
        && Reading(step, empty, all, fields, i, pos, values, flow, walk(body[pos..], fields[i..]))
    {
      flow, pos, ok, values := ReadOne(d, body, fields, ctx.base, i, pos, flow, empty, values, all, step, walk);
      if !ok { return; }
      i := i + 1;
    }
    ReadingEnds(d, body, fields, ctx, step, all, pos, values, flow);
    flow := SetTimes(d, flow, ctx);
    ok := true;
  }

  // Times the record does not carry are the export time.
  method SetTimes(d: Dialect, flow: Flow, ctx: Context) returns (r: Flow)
    requires d.Ipfix?
    ensures r == Finish(d, flow, ctx)
  {
    r := flow;
    if r.info.start.Unset? { r := r.(info := r.info.(start := Ms(ctx.base))); }
    if r.info.end.Unset? { r := r.(info := r.info.(end := Ms(ctx.base))); }
  }

  // The v9 record loop checks nothing: the template's length is the sum of its fields'.
  method ReadFixed(d: Dialect, rec: Bytes, fields: seq<Field>, ctx: Context) returns (flow: Flow)
    requires d.V9? && |rec| == FixedLen(d, fields)
    ensures flow == FixedFlow(d, rec, fields, ctx)
  {
    var empty := EmptyFlow(ctx);
    flow := empty;
    ghost var step := StepOf(d, ctx.base);
    ghost var walk := WalkOf(d, rec, fields);
    ghost var all := walk(rec, fields);
    ghost var values: seq<Bytes> := [];
    var fp: nat, i: nat := 0, 0;
    LengthAll(d, fields);
    while i < |fields|
      invariant i <= |fields| && fp + FixedLen(d, fields[i..]) == |rec|
      invariant Reading(step, empty, all, fields, i, fp, values, flow, walk(rec[fp..], fields[i..]))
    {
      LengthOn(d, fields, i);
      flow, values := ReadPlain(d, rec, fields, ctx.base, i, fp, flow, empty, values, all, step, walk);
      fp, i := fp + fields[i].length, i + 1;
    }
    ReadingEnds(d, rec, fields, ctx, step, all, fp, values, flow);
  }

  method ReadPlain(d: Dialect, rec: Bytes, fields: seq<Field>, base: int, i: nat, fp: nat, flow: Flow,
                   ghost first: Flow, ghost values: seq<Bytes>,
                   ghost all: Option<(seq<Bytes>, nat)>, ghost step: (Flow, Field, Bytes) -> Flow,
                   ghost walk: (Bytes, seq<Field>) -> Option<(seq<Bytes>, nat)>)
    returns (flow': Flow, ghost values': seq<Bytes>)
    requires d.V9? && Steps(d, base, step) && Walks(d, walk) && i < |fields| && fp + fields[i].length <= |rec|
    requires Reading(step, first, all, fields, i, fp, values, flow, walk(rec[fp..], fields[i..]))
    ensures Reading(step, first, all, fields, i + 1, fp + fields[i].length, values', flow',
                    walk(rec[fp + fields[i].length..], fields[i + 1..]))
  {
    var end := fp + fields[i].length;
    var v := rec[fp..end];
    WalkOnBy(d, walk, rec, fields, i, fp, values, fp, end, v);
    flow' := Apply(d, flow, fields[i], v, base, step);
    ReadingNext(step, first, all, fields, i, fp, values, flow, walk(rec[fp..], fields[i..]), end, v,
                walk(rec[end..], fields[i + 1..]));
    values' := values + [v];
  }

  lemma LengthAll(d: Dialect, fields: seq<Field>)
    ensures FixedLen(d, fields[0..]) == FixedLen(d, fields)
  {
    assert fields[0..] == fields;
  }

  lemma LengthOn(d: Dialect, fields: seq<Field>, i: nat)
    requires i < |fields| && d.V9?
    ensures FixedLen(d, fields[i..]) == fields[i].length + FixedLen(d, fields[i + 1..])
  {
    assert fields[i..][1..] == fields[i + 1..];
  }

  // ---- one data set ----

  // The records `dec` reads off the bytes, `limit` at most.
  function EmitBy(dec: Bytes -> Option<(Flow, nat)>, body: Bytes, limit: nat): seq<Flow>
    decreases limit
  {
    if limit == 0 || dec(body) == None || !(0 < dec(body).value.1 <= |body|) then []
    else [dec(body).value.0] + EmitBy(dec, body[dec(body).value.1..], limit - 1)
  }

  function FixedAt(d: Dialect, t: Template, body: Bytes, ctx: Context): Option<(Flow, nat)> {
    if t.recordLen > |body| then None else Some((FixedFlow(d, body[..t.recordLen], t.fields, ctx), t.recordLen))
  }

  ghost predicate DecodesFixed(d: Dialect, t: Template, ctx: Context, dec: Bytes -> Option<(Flow, nat)>) {
    forall b {:trigger At(b)} :: At(b) ==> dec(b) == FixedAt(d, t, b, ctx)
  }

  ghost predicate DecodesVar(d: Dialect, t: Template, ctx: Context, dec: Bytes -> Option<(Flow, nat)>) {
    forall b {:trigger At(b)} :: At(b) ==> dec(b) == DecodeRecord(d, b, t.fields, ctx)
  }

  lemma {:induction false} EmitFixedBy(d: Dialect, t: Template, body: Bytes, limit: nat, ctx: Context,
                                       dec: Bytes -> Option<(Flow, nat)>)
    requires DecodesFixed(d, t, ctx, dec)
    ensures EmitFixed(d, t, body, limit, ctx) == EmitBy(dec, body, limit)
    decreases limit
  {
    assert At(body);
    if limit > 0 && 0 < t.recordLen <= |body| { EmitFixedBy(d, t, body[t.recordLen..], limit - 1, ctx, dec); }
  }

  lemma {:induction false} EmitVarBy(d: Dialect, t: Template, body: Bytes, limit: nat, ctx: Context,
                                     dec: Bytes -> Option<(Flow, nat)>)
    requires DecodesVar(d, t, ctx, dec)
    ensures EmitVar(d, t, body, limit, ctx) == EmitBy(dec, body, limit)
    decreases limit
  {
    assert At(body);
    var r := dec(body);
    if limit > 0 && r.Some? && r.value.1 > 0 { EmitVarBy(d, t, body[r.value.1..], limit - 1, ctx, dec); }
  }

  lemma FixedDecoder(d: Dialect, t: Template, body: Bytes, limit: nat, ctx: Context)
      returns (dec: Bytes -> Option<(Flow, nat)>)
    ensures DecodesFixed(d, t, ctx, dec) && EmitFixed(d, t, body, limit, ctx) == EmitBy(dec, body, limit)
  {
    dec := b => FixedAt(d, t, b, ctx);
    EmitFixedBy(d, t, body, limit, ctx, dec);
  }

  lemma VarDecoder(d: Dialect, t: Template, body: Bytes, limit: nat, ctx: Context)
      returns (dec: Bytes -> Option<(Flow, nat)>)
    ensures DecodesVar(d, t, ctx, dec) && EmitVar(d, t, body, limit, ctx) == EmitBy(dec, body, limit)
  {
    dec := b => DecodeRecord(d, b, t.fields, ctx);
    EmitVarBy(d, t, body, limit, ctx, dec);
  }

  // `left` are the flows still to come, before and after one more record.
  lemma EmitNext(dec: Bytes -> Option<(Flow, nat)>, body: Bytes, pos: nat, limit: nat, done: seq<Flow>,
                 flow: Flow, n: nat, left: seq<Flow>)
    returns (left': seq<Flow>)
    requires limit > 0 && 0 < n && pos + n <= |body| && dec(body[pos..]) == Some((flow, n))
      && left == EmitBy(dec, body[pos..], limit)
    ensures left' == EmitBy(dec, body[pos + n..], limit - 1) && done + left == (done + [flow]) + left'
  {
    assert body[pos..][n..] == body[pos + n..];
    left' := EmitBy(dec, body[pos + n..], limit - 1);
    assert left == [flow] + left';
  }

  method OneFixed(d: Dialect, t: Template, rec: Bytes, ctx: Context) returns (flow: Flow)
    requires TemplateOk(d, t) && !t.isOptions && !t.hasVar && |rec| == t.recordLen
    ensures flow == FixedFlow(d, rec, t.fields, ctx)
  {
    if d.V9? {
      flow := ReadFixed(d, rec, t.fields, ctx);
    } else {
      var n, ok;
      FixedFits(d, rec, t.fields);
      flow, n, ok := ReadRecord(d, rec, t.fields, ctx);
    }
  }

  // A record of the template's own length never runs out of bytes.
  lemma {:induction false} FixedFits(d: Dialect, rec: Bytes, fields: seq<Field>)
    requires |rec| >= FixedLen(d, fields) && !HasVar(d, fields)
    ensures Walk(d, rec, fields).Some?
    decreases |fields|
  {
    if fields != [] {
      var n := fields[0].length;
      assert d.Ipfix? ==> n != VARLEN;
      assert HasVar(d, fields[1..]) ==> HasVar(d, fields) by {
        assert forall i | 0 <= i < |fields| - 1 :: fields[1..][i] == fields[i + 1];
      }
      FixedFits(d, rec[n..], fields[1..]);
    }
  }

  method FixedRecord(d: Dialect, t: Template, body: Bytes, pos: nat, ctx: Context,
                     ghost dec: Bytes -> Option<(Flow, nat)>) returns (flow: Flow)
    requires TemplateOk(d, t) && !t.isOptions && !t.hasVar && pos + t.recordLen <= |body|
      && DecodesFixed(d, t, ctx, dec)
    ensures dec(body[pos..]) == Some((flow, t.recordLen))
  {
    var rec := body[pos..pos + t.recordLen];
    flow := OneFixed(d, t, rec, ctx);
    assert At(body[pos..]);
    assert body[pos..][..t.recordLen] == rec;
  }

  method EmitFixedRecords(d: Dialect, t: Template, body: Bytes, limit: nat, ctx: Context, dst: seq<Flow>)
      returns (flows: seq<Flow>)
    requires TemplateOk(d, t) && !t.isOptions && !t.hasVar && t.recordLen > 0
    ensures flows == dst + EmitFixed(d, t, body, limit, ctx)
  {
    flows := dst;
    ghost var dec := FixedDecoder(d, t, body, limit, ctx);
    ghost var left := EmitBy(dec, body, limit);
    ghost var all := dst + left;
    assert body[0..] == body;
    var pos, emitted := 0, 0;
    while pos + t.recordLen <= |body| && emitted < limit
      invariant emitted <= limit && pos <= |body| && left == EmitBy(dec, body[pos..], limit - emitted)
        && all == flows + left
    {
      var flow := FixedRecord(d, t, body, pos, ctx, dec);
      left := EmitNext(dec, body, pos, limit - emitted, flows, flow, t.recordLen, left);
      flows, emitted, pos := flows + [flow], emitted + 1, pos + t.recordLen;
    }
    assert At(body[pos..]);
    assert left == [];
  }

  method VarRecord(d: Dialect, t: Template, body: Bytes, pos: nat, ctx: Context,
                   ghost dec: Bytes -> Option<(Flow, nat)>)
    returns (flow: Flow, n: nat, ok: bool)
    requires d.Ipfix? && pos <= |body| && DecodesVar(d, t, ctx, dec)
    ensures ok ==> pos + n <= |body|
    ensures dec(body[pos..]) == if ok then Some((flow, n)) else None
  {
    flow, n, ok := ReadRecord(d, body[pos..], t.fields, ctx);
    assert At(body[pos..]);
  }

  lemma NothingLeft(d: Dialect, t: Template, ctx: Context, dec: Bytes -> Option<(Flow, nat)>, limit: nat)
    requires DecodesVar(d, t, ctx, dec)
    ensures EmitBy(dec, [], limit) == []
  {
    assert At<Bytes>([]);
  }

  method EmitVarRecords(d: Dialect, t: Template, body: Bytes, limit: nat, ctx: Context, dst: seq<Flow>)
      returns (flows: seq<Flow>)
    requires d.Ipfix?
    ensures flows == dst + EmitVar(d, t, body, limit, ctx)
  {
    flows := dst;
    ghost var dec := VarDecoder(d, t, body, limit, ctx);
    ghost var left := EmitBy(dec, body, limit);
    ghost var all := dst + left;
    assert body[0..] == body;
    var pos, emitted := 0, 0;
    while pos < |body| && emitted < limit
      invariant emitted <= limit && pos <= |body| && left == EmitBy(dec, body[pos..], limit - emitted)
        && all == flows + left
      decreases |body| - pos
    {
      var flow, n, ok := VarRecord(d, t, body, pos, ctx, dec);
      if !ok || n == 0 {
        assert left == [];
        return;
      }
      left := EmitNext(dec, body, pos, limit - emitted, flows, flow, n, left);
      flows, emitted, pos := flows + [flow], emitted + 1, pos + n;
    }
    NothingLeft(d, t, ctx, dec, limit - emitted);
    assert left == [];
  }

  // Appends the flows of a data set, `limit` at most.
  method EmitRecords(d: Dialect, t: Template, body: Bytes, limit: nat, ctx: Context, dst: seq<Flow>)
      returns (flows: seq<Flow>)
    requires TemplateOk(d, t)
    ensures flows == dst + Emit(d, t, body, limit, ctx)
  {
    if t.isOptions || (!t.hasVar && t.recordLen == 0) { return dst; }
    if t.hasVar { flows := EmitVarRecords(d, t, body, limit, ctx, dst); }
    else { flows := EmitFixedRecords(d, t, body, limit, ctx, dst); }
  }

  // ---- template sets ----

  predicate ItemOk(d: Dialect, item: Item) {
    item.Define? ==> TemplateOk(d, item.t)
  }

  // All of `count` v9 specifiers are there exactly when their bytes are.
  lemma {:induction false} V9SpecsFit(body: Bytes, count: nat)
    ensures ParseSpecs(V9, body, count).Some? <==> 4 * count <= |body|
    decreases count
  {
    if count > 0 && |body| >= 4 { V9SpecsFit(body[4..], count - 1); }
  }

  lemma ReadAt(body: Bytes, p: nat, i: nat)
    requires p + i + 2 <= |body|
    ensures U16(body[p..], i) == U16(body, p + i)
  {
  }

  // The template record at position `p` of a Template Set, if there is one more.
  method NextTemplate(d: Dialect, body: Bytes, p: nat) returns (item: Option<Item>, next: nat)
    requires p + 4 <= |body|
    ensures item.Some? ==> p < next <= |body| && ItemOk(d, item.value)
    ensures TemplateAt(d, body[p..]) == if item.Some? then Some((item.value, next - p)) else None
  {
    ReadAt(body, p, 0);
    ReadAt(body, p, 2);
    Suffix(body, p, 4);
    var id, count := U16(body, p), U16(body, p + 2);
    item, next := None, p + 4;
    if d.Ipfix? && id == 0 { return; }
    if count == 0 {
      if d.Ipfix? { item := Some(Withdraw(id)); }
      return;
    }
    if d.V9? && next + count * 4 > |body| {
      V9SpecsFit(body[next..], count);
      return;
    }
    var fields, recordLen, hasVar, ok, end := ParseFieldSpecs(d, body, next, count);
    if ok { item, next := Some(Define(id, Template(fields, recordLen, hasVar, false))), end; }
  }

  // The sum of the lengths of an options template's specifiers.
  method SumSpecs(body: Bytes, p: nat, total: nat) returns (recordLen: nat)
    requires p + total <= |body|
    ensures recordLen == SumLengths(body[p..p + total])
  {
    recordLen := 0;
    var q, end := p, p + total;
    while q + 4 <= end
      invariant p <= q <= end && SumLengths(body[p..end]) == recordLen + SumLengths(body[q..end])
    {
      assert body[q..end][4..] == body[q + 4..end];
      recordLen, q := recordLen + U16(body, q + 2), q + 4;
    }
  }

  // The options template at position `p`, if there is one more.
  method NextOptions(d: Dialect, body: Bytes, p: nat) returns (item: Option<Item>, next: nat)
    requires p + 6 <= |body|
    ensures item.Some? ==> p < next <= |body| && ItemOk(d, item.value)
    ensures OptionsAt(d, body[p..]) == if item.Some? then Some((item.value, next - p)) else None
  {
    ReadAt(body, p, 0);
    ReadAt(body, p, 2);
    ReadAt(body, p, 4);
    Suffix(body, p, 6);
    var id := U16(body, p);
    item, next := None, p + 6;
    if d.V9? {
      var total := U16(body, p + 2) + U16(body, p + 4);
      if total == 0 || next + total > |body| { return; }
      var recordLen := SumSpecs(body, next, total);
      assert body[p..][6..6 + total] == body[next..next + total];
      item, next := Some(Define(id, OptionsTemplate(recordLen))), |body|;
    } else {
      if id == 0 { return; }
      var fields, recordLen, hasVar, ok, end := ParseFieldSpecs(d, body, next, U16(body, p + 2));
      if ok { item, next := Some(Define(id, OptionsTemplate(0))), end; }
    }
  }

  // `items` lists what the records found by `at` hold; `At` marks where that is unfolded.
  ghost predicate Lists(at: Bytes -> Option<(Item, nat)>, items: Bytes -> seq<Item>) {
    forall b {:trigger At(b)} :: At(b) ==> match at(b)
      case None => items(b) == []
      case Some(x) => 0 < x.1 <= |b| && items(b) == [x.0] + items(b[x.1..])
  }

  lemma TemplateLister(d: Dialect, body: Bytes) returns (at: Bytes -> Option<(Item, nat)>, items: Bytes -> seq<Item>)
    ensures Lists(at, items) && items(body) == ParseTemplates(d, body) && forall b :: at(b) == TemplateAt(d, b)
  {
    at, items := (b: Bytes) => TemplateAt(d, b), (b: Bytes) => ParseTemplates(d, b);
  }

  lemma OptionsLister(d: Dialect, body: Bytes) returns (at: Bytes -> Option<(Item, nat)>, items: Bytes -> seq<Item>)
    ensures Lists(at, items) && items(body) == ParseOptions(d, body) && forall b :: at(b) == OptionsAt(d, b)
  {
    at, items := (b: Bytes) => OptionsAt(d, b), (b: Bytes) => ParseOptions(d, b);
  }

  lemma ListStep(at: Bytes -> Option<(Item, nat)>, items: Bytes -> seq<Item>, body: Bytes, p: nat,
                 item: Option<Item>, next: nat)
    requires p <= |body| && (item.Some? ==> p < next <= |body|) && Lists(at, items)
    requires at(body[p..]) == if item.Some? then Some((item.value, next - p)) else None
    ensures items(body[p..]) == if item.Some? then [item.value] + items(body[next..]) else []
  {
    assert At(body[p..]);
    if item.Some? { Suffix(body, p, next - p); }
  }

  lemma ListEnds(d: Dialect, at: Bytes -> Option<(Item, nat)>, items: Bytes -> seq<Item>, body: Bytes)
    requires Lists(at, items) && at(body) == None
    ensures items(body) == []
  {
    assert At(body);
  }

  // ---- the sets of a datagram ----

  // The set at position `off` of a datagram that ends at `end`.
  lemma SetAt(payload: Bytes, off: nat, end: nat, rest: Bytes)
    requires off + 4 <= end <= |payload| && rest == payload[off..end]
    ensures U16(rest, 0) == U16(payload, off) && U16(rest, 2) == U16(payload, off + 2)
    ensures WholeSet(rest) <==> U16(payload, off + 2) >= 4 && off + U16(payload, off + 2) <= end
    ensures WholeSet(rest) ==> SetBody(rest) == payload[off + 4..off + U16(payload, off + 2)]
    ensures WholeSet(rest) ==> rest[U16(rest, 2)..] == payload[off + U16(payload, off + 2)..end]
  {
    assert rest[0] == payload[off] && rest[1] == payload[off + 1] && rest[2] == payload[off + 2]
      && rest[3] == payload[off + 3];
    var n := U16(payload, off + 2);
    if 4 <= n <= |rest| { Slice(payload, off, end, 4, n); }
  }

  // Reads the header of the set at `off`; not ok if it is malformed or cut short.
  method ReadSet(payload: Bytes, off: nat, end: nat, ghost rest: Bytes)
      returns (id: nat, body: Bytes, next: nat, ok: bool, ghost rest': Bytes)
    requires off + 4 <= end <= |payload| && rest == payload[off..end]
    ensures ok <==> WholeSet(rest)
    ensures ok ==>
      off + 4 <= next <= end && next - off == U16(rest, 2) && rest' == payload[next..end]
      && id == U16(rest, 0) && body == SetBody(rest) && rest' == rest[U16(rest, 2)..]
  {
    SetAt(payload, off, end, rest);
    var length := U16(payload, off + 2);
    id, next, ok := U16(payload, off), off + length, length >= 4 && off + length <= end;
    body, rest' := [], [];
    if ok { body, rest' := payload[off + 4..next], payload[next..end]; }
  }
}
