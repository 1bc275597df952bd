/** Decoding a sanitized payload gives the flows of the original, their IPv4 addresses mapped.  */
module Commute {
  import opened Prelude
  import opened Wire
  import opened Decode
  import opened Records
  import opened Sanitize

  function MapAddr(r: Renaming, a: Bytes): Bytes {
    if |a| == 4 then Rename(r, a) else a
  }

  // The flow with each IPv4 address replaced; the exporter is not part of the payload.
  function MapFlow(r: Renaming, f: Flow): Flow {
    Flow(MapAddresses(r, f.ip), f.info)
  }

  function MapAddresses(r: Renaming, ip: Addresses): Addresses {
    Addresses(MapAddr(r, ip.src), MapAddr(r, ip.dst), MapAddr(r, ip.natPublic), MapAddr(r, ip.natDest))
  }

  function MapFlows(r: Renaming, fs: seq<Flow>): (gs: seq<Flow>)
    ensures |gs| == |fs|
  {
    if fs == [] then [] else [MapFlow(r, fs[0])] + MapFlows(r, fs[1..])
  }

  // Every address in the flow is an IPv4 address, where there is one.
  predicate PlainAddr(a: Bytes) { a == [] || |a| == 4 }

  predicate Plain(f: Flow) {
    PlainAddr(f.ip.src) && PlainAddr(f.ip.dst) && PlainAddr(f.ip.natPublic) && PlainAddr(f.ip.natDest)
  }

  predicate AllPlain(fs: seq<Flow>) {
    forall i | 0 <= i < |fs| :: Plain(fs[i])
  }

  // A v9 field of length 0xFFFF is an ordinary fixed one to the v9 decoder only.
  predicate SameLayout(d: Dialect, fields: seq<Field>) {
    d.Ipfix? || forall i | 0 <= i < |fields| :: fields[i].length != VARLEN
  }

  // ---- one record ----

  predicate AllHandled(fields: seq<Field>, values: seq<Bytes>)
    requires |fields| == |values|
  {
    forall i | 0 <= i < |fields| :: Handled(fields[i], values[i])
  }

  function NewValues(r: Renaming, fields: seq<Field>, values: seq<Bytes>): (vs: seq<Bytes>)
    requires |fields| == |values|
    ensures |vs| == |values|
    decreases |fields|
  {
    if fields == [] then [] else [NewValue(r, fields[0], values[0])] + NewValues(r, fields[1..], values[1..])
  }

  // Without such fields both dialects cut a record alike.
  lemma {:induction false} SameWalk(d: Dialect, body: Bytes, fields: seq<Field>)
    requires SameLayout(d, fields)
    ensures Walk(d, body, fields) == Walk(Ipfix, body, fields)
    decreases |fields|
  {
    if fields != [] && Locate(d, body, fields[0]).Some? {
      var s := Locate(d, body, fields[0]).value;
      SameWalk(d, body[s.off + s.len..], fields[1..]);
    }
  }

  lemma ScrubStep(r: Renaming, body: Bytes, fields: seq<Field>, s: Span)
    requires fields != [] && Locate(Ipfix, body, fields[0]) == Some(s) && !ScrubFields(r, body, fields).Unsafe?
    ensures Handled(fields[0], Value(body, s))
    ensures !ScrubFields(r, body[s.off + s.len..], fields[1..]).Unsafe?
    ensures ScrubFields(r, body, fields)
            == After(body[..s.off] + NewValue(r, fields[0], Value(body, s)),
                     ScrubFields(r, body[s.off + s.len..], fields[1..]))
  {
  }

  // A scrubbed record is the record laid out again with its addresses replaced.
  lemma {:induction false} ScrubbedLaid(r: Renaming, body: Bytes, fields: seq<Field>, rec: Bytes)
    returns (heads: seq<Bytes>, values: seq<Bytes>, rest: Bytes)
    requires ScrubFields(r, body, fields) == Clean(rec)
    ensures HeadsOk(Ipfix, fields, heads, values) && AllHandled(fields, values)
    ensures body == Lay(heads, values) + rest && rec == Lay(heads, NewValues(r, fields, values))
    decreases |fields|
  {
    if fields == [] {
      heads, values, rest := [], [], body;
    } else {
      var s := Locate(Ipfix, body, fields[0]).value;
      ScrubStep(r, body, fields, s);
      LocatedLaid(Ipfix, body, fields[0], s);
      heads, values, rest := ScrubbedLaid(r, body[s.off + s.len..], fields[1..],
                                          ScrubFields(r, body[s.off + s.len..], fields[1..]).rec);
      LaidCons(r, fields, body, s, heads, values, rest);
      heads, values := [body[..s.off]] + heads, [Value(body, s)] + values;
    }
  }

  lemma LaidCons(r: Renaming, fields: seq<Field>, body: Bytes, s: Span, heads: seq<Bytes>, values: seq<Bytes>,
                 rest: Bytes)
    requires fields != [] && s.off + s.len <= |body| && HeadOk(Ipfix, fields[0], body[..s.off], Value(body, s))
    requires Handled(fields[0], Value(body, s)) && HeadsOk(Ipfix, fields[1..], heads, values)
      && AllHandled(fields[1..], values)
    requires body[s.off + s.len..] == Lay(heads, values) + rest
    ensures var hs, vs := [body[..s.off]] + heads, [Value(body, s)] + values;
      && HeadsOk(Ipfix, fields, hs, vs) && AllHandled(fields, vs) && body == Lay(hs, vs) + rest
      && Lay(hs, NewValues(r, fields, vs))
         == body[..s.off] + NewValue(r, fields[0], Value(body, s)) + Lay(heads, NewValues(r, fields[1..], values))
  {
    var hs, vs := [body[..s.off]] + heads, [Value(body, s)] + values;
    assert hs[1..] == heads && vs[1..] == values;
    forall i | 0 <= i < |fields| ensures HeadOk(Ipfix, fields[i], hs[i], vs[i]) && Handled(fields[i], vs[i]) {
      if i > 0 {
        assert HeadOk(Ipfix, fields[1..][i - 1], heads[i - 1], values[i - 1])
          && Handled(fields[1..][i - 1], values[i - 1]);
      }
    }
    assert body == body[..s.off] + Value(body, s) + body[s.off + s.len..];
    Associate(body[..s.off] + Value(body, s), Lay(heads, values), rest);
    assert NewValues(r, fields, vs)[1..] == NewValues(r, fields[1..], values);
  }

  lemma {:induction false} NewHeadsOk(r: Renaming, fields: seq<Field>, heads: seq<Bytes>, values: seq<Bytes>)
    requires HeadsOk(Ipfix, fields, heads, values) && AllHandled(fields, values)
    ensures HeadsOk(Ipfix, fields, heads, NewValues(r, fields, values))
    ensures |Lay(heads, NewValues(r, fields, values))| == |Lay(heads, values)|
    decreases |fields|
  {
    if fields != [] {
      assert HeadOk(Ipfix, fields[0], heads[0], values[0]) && Handled(fields[0], values[0]);
      NewHeadsOk(r, fields[1..], heads[1..], values[1..]);
      var vs := NewValues(r, fields, values);
      assert vs[1..] == NewValues(r, fields[1..], values[1..]);
      forall i | 0 < i < |fields| ensures HeadOk(Ipfix, fields[i], heads[i], vs[i]) {
        assert HeadOk(Ipfix, fields[1..][i - 1], heads[1..][i - 1], vs[1..][i - 1]);
      }
    }
  }

  // Scrubbing changes the values of a record and not its shape.
  lemma WalkCommutes(r: Renaming, body: Bytes, fields: seq<Field>, rec: Bytes, tail: Bytes) returns (values: seq<Bytes>)
    requires ScrubFields(r, body, fields) == Clean(rec)
    ensures |values| == |fields| && AllHandled(fields, values)
    ensures Walk(Ipfix, body, fields) == Some((values, |rec|))
    ensures Walk(Ipfix, rec + tail, fields) == Some((NewValues(r, fields, values), |rec|))
  {
    var heads, rest;
    heads, values, rest := ScrubbedLaid(r, body, fields, rec);
    NewHeadsOk(r, fields, heads, values);
    WalkLaid(Ipfix, fields, heads, values, Lay(heads, values), rest);
    WalkLaid(Ipfix, fields, heads, NewValues(r, fields, values), rec, tail);
  }

  // What runs out of bytes for the sanitizer does so for the decoder.
  lemma {:induction false} IncompleteTruncated(r: Renaming, body: Bytes, fields: seq<Field>)
    requires ScrubFields(r, body, fields).Incomplete?
    ensures Walk(Ipfix, body, fields).None?
    decreases |fields|
  {
    if Locate(Ipfix, body, fields[0]).Some? {
      var s := Locate(Ipfix, body, fields[0]).value;
      ScrubStep(r, body, fields, s);
      IncompleteTruncated(r, body[s.off + s.len..], fields[1..]);
    }
  }

  // Scrubbing leaves a 10 behind: a tail that is still all zero was not touched.
  lemma {:induction false} ZeroTailUntouched(r: Renaming, body: Bytes, fields: seq<Field>)
    requires ScrubFields(r, body, fields).Incomplete? && AllZero(ScrubFields(r, body, fields).body)
    ensures ScrubFields(r, body, fields).body == body
    decreases |fields|
  {
    if Locate(Ipfix, body, fields[0]).Some? {
      var s := Locate(Ipfix, body, fields[0]).value;
      var end, v := s.off + s.len, Value(body, s);
      ScrubStep(r, body, fields, s);
      var b, b' := ScrubFields(r, body, fields).body, ScrubFields(r, body[end..], fields[1..]).body;
      var v' := NewValue(r, fields[0], v);
      assert b == body[..s.off] + v' + b';
      assert b' == b[end..] && AllZero(b');
      assert v' == b[s.off..end] && AllZero(v');
      ZeroTailUntouched(r, body[end..], fields[1..]);
      assert v' == v;
      assert body == body[..s.off] + v + body[end..];
    }
  }

  lemma ApplyCommutes(d: Dialect, r: Renaming, flow: Flow, field: Field, v: Bytes, base: int)
    requires Handled(field, v)
    ensures ApplyOne(d, MapFlow(r, flow), field, NewValue(r, field, v), base)
            == MapFlow(r, ApplyOne(d, flow, field, v, base))
    ensures Plain(flow) ==> Plain(ApplyOne(d, flow, field, v, base))
  {
    if !field.enterprise && IsAddress(field.ie) {
      assert IsV4(field.ie);
    }
  }

  lemma {:induction false} FoldCommutes(d: Dialect, r: Renaming, flow: Flow, fields: seq<Field>,
                                        values: seq<Bytes>, base: int)
    requires |fields| == |values| && AllHandled(fields, values)
    ensures Fold(d, MapFlow(r, flow), fields, NewValues(r, fields, values), base)
            == MapFlow(r, Fold(d, flow, fields, values, base))
    ensures Plain(flow) ==> Plain(Fold(d, flow, fields, values, base))
    decreases |fields|
  {
    if fields != [] {
      assert Handled(fields[0], values[0]);
      ApplyCommutes(d, r, flow, fields[0], values[0], base);
      FoldCommutes(d, r, ApplyOne(d, flow, fields[0], values[0], base), fields[1..], values[1..], base);
    }
  }

  lemma RecordCommutes(d: Dialect, r: Renaming, body: Bytes, fields: seq<Field>, ctx: Context, tail: Bytes)
    requires SameLayout(d, fields) && ScrubFields(r, body, fields).Clean?
    ensures var rec := ScrubFields(r, body, fields).rec; var o := DecodeRecord(d, body, fields, ctx);
      && o.Some? && o.value.1 == |rec| && Plain(o.value.0)
      && DecodeRecord(d, rec + tail, fields, ctx) == Some((MapFlow(r, o.value.0), |rec|))
  {
    var rec := ScrubFields(r, body, fields).rec;
    SameWalk(d, body, fields);
    SameWalk(d, rec + tail, fields);
    var values := WalkCommutes(r, body, fields, rec, tail);
    FoldCommutes(d, r, EmptyFlow(ctx), fields, values, ctx.base);
    assert MapFlow(r, EmptyFlow(ctx)) == EmptyFlow(ctx);
  }

  // ---- one data set ----

  lemma {:induction false} LongFieldLongRecord(d: Dialect, fields: seq<Field>, i: nat)
    requires i < |fields| && !(d.Ipfix? && fields[i].length == VARLEN)
    ensures FixedLen(d, fields) >= fields[i].length
    decreases i
  {
    if i > 0 { LongFieldLongRecord(d, fields[1..], i - 1); }
  }

  // No v9 record long enough for a field of 0xFFFF bytes fits into a set.
  lemma ShortBodySameLayout(d: Dialect, t: Template, body: Bytes)
    requires TemplateOk(d, t) && !t.isOptions && t.recordLen <= |body| < VARLEN
    ensures SameLayout(d, t.fields)
  {
    forall i | 0 <= i < |t.fields| && d.V9? ensures t.fields[i].length != VARLEN {
      LongFieldLongRecord(d, t.fields, i);
    }
  }

  lemma {:induction false} FixedCommutes(d: Dialect, r: Renaming, t: Template, body: Bytes, limit: nat, ctx: Context)
    requires TemplateOk(d, t) && !t.isOptions && t.recordLen > 0 && |body| < VARLEN
    requires ScrubFixed(r, t, body).Some?
    ensures var body' := ScrubFixed(r, t, body).value;
      && EmitFixed(d, t, body', limit, ctx) == MapFlows(r, EmitFixed(d, t, body, limit, ctx))
      && AllPlain(EmitFixed(d, t, body, limit, ctx))
    decreases |body|
  {
    if |body| >= t.recordLen {
      ShortBodySameLayout(d, t, body);
      var first, rest := body[..t.recordLen], body[t.recordLen..];
      var rec := ScrubFields(r, first, t.fields).rec;
      var tail := first[|rec|..];
      assert tail == body[|rec|..t.recordLen];
      RecordCommutes(d, r, first, t.fields, ctx, tail);
      var rest' := ScrubFixed(r, t, rest).value;
      FixedCommutes(d, r, t, rest, if limit == 0 then 0 else limit - 1, ctx);
      var body' := rec + tail + rest';
      assert body'[..t.recordLen] == rec + tail && body'[t.recordLen..] == rest';
    }
  }

  lemma {:induction false} VarCommutes(r: Renaming, t: Template, body: Bytes, limit: nat, ctx: Context)
    requires ScrubVar(r, t, body).Some?
    ensures var body' := ScrubVar(r, t, body).value;
      && EmitVar(Ipfix, t, body', limit, ctx) == MapFlows(r, EmitVar(Ipfix, t, body, limit, ctx))
      && AllPlain(EmitVar(Ipfix, t, body, limit, ctx))
    decreases |body|
  {
    if body != [] {
      match ScrubFields(r, body, t.fields)
      case Incomplete(b) =>
        ZeroTailUntouched(r, body, t.fields);
        IncompleteTruncated(r, body, t.fields);
      case Clean(rec) =>
        var rest' := ScrubVar(r, t, body[|rec|..]).value;
        RecordCommutes(Ipfix, r, body, t.fields, ctx, rest');
        VarCommutes(r, t, body[|rec|..], if limit == 0 then 0 else limit - 1, ctx);
        assert (rec + rest')[|rec|..] == rest';
      case Unsafe =>
    }
  }

  // Scrubbing a data set and decoding it commute, whatever the record limit.
  lemma DataCommutes(d: Dialect, r: Renaming, t: Template, body: Bytes, limit: nat, ctx: Context)
    requires TemplateOk(d, t) && |body| < VARLEN && ScrubData(r, t, body).Some?
    ensures var body' := ScrubData(r, t, body).value;
      && Emit(d, t, body', limit, ctx) == MapFlows(r, Emit(d, t, body, limit, ctx))
      && AllPlain(Emit(d, t, body, limit, ctx))
  {
    if t.hasVar { VarCommutes(r, t, body, limit, ctx); }
    else if t.recordLen > 0 { FixedCommutes(d, r, t, body, limit, ctx); }
  }
}
