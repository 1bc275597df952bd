/** What becomes of each part of a kept payload: it is cut into pieces of the format, of element values and of
    IPv4 addresses, of which the last are renamed; and into pieces that nobody has looked at.  */
module SanitizeBytes {
  import opened Prelude
  import opened Wire
  import opened Decode
  import opened Sanitize
  import Commute
  import opened SanitizeTheorems

  // A part of the format, the value of a field, another address, another value, or bytes the sanitizer does not read.
  datatype Kind = Format | Element(ie: nat, enterprise: bool) | Address | Datum | Unread

  // The elements that are IPv4 addresses: source and destination, the two next hops, and both after translation.
  predicate Renames(kind: Kind) {
    kind.Address? || (kind.Element? && !kind.enterprise && kind.ie in {8, 12, 15, 18, 225, 226})
  }

  // The elements that are IPv6 addresses, likewise.
  predicate Forbidden(kind: Kind) {
    kind.Element? && !kind.enterprise && kind.ie in {27, 28, 62, 63, 281, 282}
  }

  datatype Piece = Piece(kind: Kind, bytes: Bytes)

  function Joined(ps: seq<Piece>): Bytes {
    if ps == [] then [] else ps[0].bytes + Joined(ps[1..])
  }

  function Renamed(r: Renaming, p: Piece): Piece {
    if Renames(p.kind) then Piece(p.kind, Rename(r, p.bytes)) else p
  }

  function AllRenamed(r: Renaming, ps: seq<Piece>): seq<Piece> {
    if ps == [] then [] else [Renamed(r, ps[0])] + AllRenamed(r, ps[1..])
  }

  // IPv4 addresses have four bytes, and there are no others.
  predicate Regular(ps: seq<Piece>) {
    forall k | 0 <= k < |ps| :: !Forbidden(ps[k].kind) && (Renames(ps[k].kind) ==> |ps[k].bytes| == 4)
  }

  predicate AllRead(ps: seq<Piece>) {
    forall k | 0 <= k < |ps| && ps[k].kind.Unread? :: ps[k].bytes == []
  }

  // The pieces make up `b`, and with their addresses renamed `b'`.
  predicate Makes(r: Renaming, ps: seq<Piece>, b: Bytes, b': Bytes) {
    Joined(ps) == b && Joined(AllRenamed(r, ps)) == b' && Regular(ps)
  }

  lemma {:induction false} JoinedAppend(r: Renaming, ps: seq<Piece>, qs: seq<Piece>)
    ensures Joined(ps + qs) == Joined(ps) + Joined(qs)
    ensures Joined(AllRenamed(r, ps + qs)) == Joined(AllRenamed(r, ps)) + Joined(AllRenamed(r, qs))
  {
    if ps == [] {
      assert ps + qs == qs;
    } else {
      assert (ps + qs)[1..] == ps[1..] + qs;
      JoinedAppend(r, ps[1..], qs);
      var p := Renamed(r, ps[0]);
      assert AllRenamed(r, ps) == [p] + AllRenamed(r, ps[1..]);
      assert AllRenamed(r, ps + qs) == [p] + AllRenamed(r, ps[1..] + qs);
      HeadJoined(p, AllRenamed(r, ps[1..]));
      HeadJoined(p, AllRenamed(r, ps[1..] + qs));
    }
  }

  lemma HeadJoined(p: Piece, ps: seq<Piece>)
    ensures Joined([p] + ps) == p.bytes + Joined(ps)
  {
    assert ([p] + ps)[1..] == ps;
  }

  lemma PiecesAppended(r: Renaming, ps: seq<Piece>, b: Bytes, b': Bytes, qs: seq<Piece>, c: Bytes, c': Bytes)
    requires Makes(r, ps, b, b') && Makes(r, qs, c, c')
    ensures Makes(r, ps + qs, b + c, b' + c')
  {
    JoinedAppend(r, ps, qs);
  }

  lemma One(r: Renaming, p: Piece)
    requires !Forbidden(p.kind) && (Renames(p.kind) ==> |p.bytes| == 4)
    ensures Makes(r, [p], p.bytes, Renamed(r, p).bytes)
  {
    HeadJoined(p, []);
    HeadJoined(Renamed(r, p), []);
    assert AllRenamed(r, [p]) == [Renamed(r, p)];
  }

  lemma PieceFirst(r: Renaming, p: Piece, ps: seq<Piece>, c: Bytes, c': Bytes)
    requires Makes(r, ps, c, c') && !Forbidden(p.kind) && (Renames(p.kind) ==> |p.bytes| == 4)
    ensures Makes(r, [p] + ps, p.bytes + c, Renamed(r, p).bytes + c')
  {
    One(r, p);
    PiecesAppended(r, [p], p.bytes, Renamed(r, p).bytes, ps, c, c');
  }

  lemma ReadAppend(ps: seq<Piece>, qs: seq<Piece>)
    ensures AllRead(ps + qs) <==> AllRead(ps) && AllRead(qs)
  {
    if AllRead(ps + qs) {
      forall k | 0 <= k < |ps| && ps[k].kind.Unread? ensures ps[k].bytes == [] { assert (ps + qs)[k] == ps[k]; }
      forall k | 0 <= k < |qs| && qs[k].kind.Unread? ensures qs[k].bytes == [] { assert (ps + qs)[|ps| + k] == qs[k]; }
    }
  }

  lemma Last(r: Renaming, ps: seq<Piece>, b: Bytes, b': Bytes, tail: Bytes)
    requires Makes(r, ps, b, b')
    ensures Makes(r, ps + [Piece(Unread, tail)], b + tail, b' + tail)
    ensures AllRead(ps + [Piece(Unread, tail)]) <==> AllRead(ps) && tail == []
  {
    var q := Piece(Unread, tail);
    One(r, q);
    PiecesAppended(r, ps, b, b', [q], tail, tail);
    ReadAppend(ps, [q]);
    assert [q][0] == q;
  }

  lemma First(r: Renaming, head: Bytes, ps: seq<Piece>, b: Bytes, b': Bytes)
    requires Makes(r, ps, b, b')
    ensures Makes(r, [Piece(Format, head)] + ps, head + b, head + b')
    ensures AllRead([Piece(Format, head)] + ps) <==> AllRead(ps)
  {
    PieceFirst(r, Piece(Format, head), ps, b, b');
    ReadAppend([Piece(Format, head)], ps);
  }

  // ---- one record ----

  function FieldPiece(f: Field, v: Bytes): Piece {
    Piece(Element(f.ie, f.enterprise), v)
  }

  // The record that `body` starts with, as far as it goes.
  function RecordPieces(body: Bytes, fields: seq<Field>): seq<Piece>
    decreases |fields|
  {
    if fields == [] then []
    else match Locate(Ipfix, body, fields[0])
      case None => []
      case Some(s) => [Piece(Format, body[..s.off])] + ([FieldPiece(fields[0], Value(body, s))]
                                                        + RecordPieces(body[s.off + s.len..], fields[1..]))
  }

  lemma {:induction false} RecordCut(r: Renaming, body: Bytes, fields: seq<Field>, rec: Bytes)
    requires ScrubFields(r, body, fields) == Clean(rec)
    ensures Makes(r, RecordPieces(body, fields), body[..|rec|], rec) && AllRead(RecordPieces(body, fields))
    decreases |fields|
  {
    if fields != [] {
      var s := Locate(Ipfix, body, fields[0]).value;
      Commute.ScrubStep(r, body, fields, s);
      var next, v, v' := body[s.off + s.len..], Value(body, s), NewValue(r, fields[0], Value(body, s));
      var tail := ScrubFields(r, next, fields[1..]).rec;
      RecordCut(r, next, fields[1..], tail);
      FieldCut(r, fields[0], body[..s.off], v, RecordPieces(next, fields[1..]), next[..|tail|], tail);
      Sides(body, s, v', tail, rec);
    }
  }

  lemma FieldCut(r: Renaming, f: Field, head: Bytes, v: Bytes, ps: seq<Piece>, c: Bytes, c': Bytes)
    requires Handled(f, v) && Makes(r, ps, c, c') && AllRead(ps)
    ensures Makes(r, [Piece(Format, head)] + ([FieldPiece(f, v)] + ps), head + (v + c), head + (NewValue(r, f, v) + c'))
    ensures AllRead([Piece(Format, head)] + ([FieldPiece(f, v)] + ps))
  {
    PieceFirst(r, FieldPiece(f, v), ps, c, c');
    PieceFirst(r, Piece(Format, head), [FieldPiece(f, v)] + ps, v + c, NewValue(r, f, v) + c');
  }

  lemma Sides(body: Bytes, s: Span, v': Bytes, tail: Bytes, rec: Bytes)
    requires s.off + s.len <= |body| && |v'| == s.len && |tail| <= |body| - s.off - s.len
      && rec == body[..s.off] + v' + tail
    ensures body[..|rec|] == body[..s.off] + (Value(body, s) + body[s.off + s.len..][..|tail|])
    ensures rec == body[..s.off] + (v' + tail)
  {
  }

  // A record without fields of their own length is as long as its template says.
  lemma {:induction false} FullRecord(d: Dialect, r: Renaming, body: Bytes, fields: seq<Field>, rec: Bytes)
    requires ScrubFields(r, body, fields) == Clean(rec) && forall i | 0 <= i < |fields| :: fields[i].length != VARLEN
    ensures |rec| == FixedLen(d, fields)
    decreases |fields|
  {
    if fields != [] {
      var s := Locate(Ipfix, body, fields[0]).value;
      FullRecord(d, r, body[s.off + s.len..], fields[1..], ScrubFields(r, body[s.off + s.len..], fields[1..]).rec);
    }
  }

  // ---- one data set ----

  function FixedPieces(t: Template, body: Bytes): seq<Piece>
    requires t.recordLen > 0
    decreases |body|
  {
    if |body| < t.recordLen then [Piece(Unread, body)]
    else RecordPieces(body[..t.recordLen], t.fields) + FixedPieces(t, body[t.recordLen..])
  }

  // Behind the last record there are only zeros.
  function VarPieces(t: Template, body: Bytes): seq<Piece>
    decreases |body|
  {
    if body == [] then []
    else match Walk(Ipfix, body, t.fields)
      case None => [Piece(Format, body)]
      case Some(vn) =>
        if vn.1 == 0 then [Piece(Unread, body)] else RecordPieces(body, t.fields) + VarPieces(t, body[vn.1..])
  }

  function DataPieces(t: Template, body: Bytes): seq<Piece> {
    if t.hasVar then VarPieces(t, body) else if t.recordLen > 0 then FixedPieces(t, body) else [Piece(Unread, body)]
  }

  lemma WholeRecord(d: Dialect, r: Renaming, t: Template, body: Bytes, rec: Bytes)
    requires t == MakeTemplate(d, t.fields) && !t.hasVar && |body| == t.recordLen < VARLEN
    requires ScrubFields(r, body, t.fields) == Clean(rec)
    ensures |rec| == t.recordLen
  {
    Commute.ShortBodySameLayout(d, t, body);
    FullRecord(d, r, body, t.fields, rec);
  }

  lemma FixedStep(r: Renaming, t: Template, body: Bytes, body': Bytes) returns (rec: Bytes, rest: Bytes)
    requires 0 < t.recordLen <= |body| && ScrubFixed(r, t, body) == Some(body')
    ensures ScrubFields(r, body[..t.recordLen], t.fields) == Clean(rec) && |rec| <= t.recordLen
    ensures ScrubFixed(r, t, body[t.recordLen..]) == Some(rest) && body' == rec + body[|rec|..t.recordLen] + rest
  {
    rec := ScrubFields(r, body[..t.recordLen], t.fields).rec;
    rest := ScrubFixed(r, t, body[t.recordLen..]).value;
  }

  lemma FixedFirst(d: Dialect, r: Renaming, t: Template, body: Bytes, body': Bytes) returns (rec: Bytes, rest: Bytes)
    requires t == MakeTemplate(d, t.fields) && !t.hasVar && 0 < t.recordLen <= |body| < VARLEN
    requires ScrubFixed(r, t, body) == Some(body')
    ensures ScrubFields(r, body[..t.recordLen], t.fields) == Clean(rec) && |rec| == t.recordLen
    ensures ScrubFixed(r, t, body[t.recordLen..]) == Some(rest) && body' == rec + rest
  {
    rec, rest := FixedStep(r, t, body, body');
    WholeRecord(d, r, t, body[..t.recordLen], rec);
    assert body[|rec|..t.recordLen] == [];
  }

  // A whole number of records of n bytes.
  predicate Full(len: nat, n: nat)
    requires n > 0
  {
    len == 0 || (n <= len && Full(len - n, n))
  }

  lemma {:induction false} FullMultiple(q: nat, n: nat)
    requires n > 0
    ensures Full(q * n, n)
  {
    if q > 0 {
      FullMultiple(q - 1, n);
      assert q * n == (q - 1) * n + n;
    }
  }

  lemma FullIf(len: nat, n: nat)
    requires n > 0 && len % n == 0
    ensures Full(len, n)
  {
    FullMultiple(len / n, n);
    assert len == (len / n) * n;
  }

  lemma {:induction false} FixedCut(d: Dialect, r: Renaming, t: Template, body: Bytes, body': Bytes)
    requires t == MakeTemplate(d, t.fields) && !t.hasVar && t.recordLen > 0 && |body| < VARLEN
      && Full(|body|, t.recordLen)
    requires ScrubFixed(r, t, body) == Some(body')
    ensures Makes(r, FixedPieces(t, body), body, body') && AllRead(FixedPieces(t, body))
    decreases |body|
  {
    if body == [] {
      One(r, Piece(Unread, body));
    } else {
      var rec, rest := FixedFirst(d, r, t, body, body');
      var first, next := body[..t.recordLen], body[t.recordLen..];
      RecordCut(r, first, t.fields, rec);
      FixedCut(d, r, t, next, rest);
      assert first[..|rec|] == first && body == first + next;
      PiecesAppended(r, RecordPieces(first, t.fields), first, rec, FixedPieces(t, next), next, rest);
    }
  }

  lemma VarFirst(r: Renaming, t: Template, body: Bytes, body': Bytes) returns (rec: Bytes, rest: Bytes)
    requires ScrubVar(r, t, body) == Some(body') && body != [] && !ScrubFields(r, body, t.fields).Incomplete?
    ensures ScrubFields(r, body, t.fields) == Clean(rec) && 0 < |rec| <= |body|
    ensures ScrubVar(r, t, body[|rec|..]) == Some(rest) && body' == rec + rest
    ensures Walk(Ipfix, body, t.fields).Some? && Walk(Ipfix, body, t.fields).value.1 == |rec|
  {
    rec := ScrubFields(r, body, t.fields).rec;
    rest := ScrubVar(r, t, body[|rec|..]).value;
    var _ := Commute.WalkCommutes(r, body, t.fields, rec, []);
  }

  lemma {:induction false} VarCut(r: Renaming, t: Template, body: Bytes, body': Bytes)
    requires ScrubVar(r, t, body) == Some(body')
    ensures Makes(r, VarPieces(t, body), body, body') && AllRead(VarPieces(t, body))
    decreases |body|
  {
    if body == [] {
    } else if ScrubFields(r, body, t.fields).Incomplete? {
      Commute.ZeroTailUntouched(r, body, t.fields);
      Commute.IncompleteTruncated(r, body, t.fields);
      One(r, Piece(Format, body));
    } else {
      var rec, rest := VarFirst(r, t, body, body');
      var next := body[|rec|..];
      RecordCut(r, body, t.fields, rec);
      VarCut(r, t, next, rest);
      assert body == body[..|rec|] + next;
      PiecesAppended(r, RecordPieces(body, t.fields), body[..|rec|], rec, VarPieces(t, next), next, rest);
    }
  }

  // A kept data set is read from end to end.
  lemma DataCut(d: Dialect, r: Renaming, t: Template, body: Bytes, body': Bytes)
    requires TemplateOk(d, t) && ScrubData(r, t, body) == Some(body') && |body| < VARLEN
    ensures Makes(r, DataPieces(t, body), body, body') && AllRead(DataPieces(t, body))
  {
    if t.hasVar {
      VarCut(r, t, body, body');
    } else if t.recordLen > 0 {
      FullIf(|body|, t.recordLen);
      FixedCut(d, r, t, body, body');
    } else {
      One(r, Piece(Unread, body));
    }
  }

  // ---- all sets ----

  // How much of a set body makes up templates, and how much is read of any set numbered below DATA_MIN.
  function TemplatesLen(d: Dialect, body: Bytes): (n: nat)
    ensures n <= |body|
    decreases |body|
  {
    match TemplateAt(d, body)
    case None => 0
    case Some(x) => x.1 + TemplatesLen(d, body[x.1..])
  }

  function ReadLen(d: Dialect, id: nat, body: Bytes): (n: nat)
    ensures n <= |body|
  {
    if id == TemplateSet(d) then TemplatesLen(d, body)
    else if id == OptionsSet(d) && |body| >= 2 then 2
    else 0
  }

  // The pieces of a set body, given the templates known there and the set's number.
  type Cutter = (Templates, nat, Bytes) -> seq<Piece>

  function ControlPieces(n: nat, body: Bytes): seq<Piece>
    requires n <= |body|
  {
    [Piece(Format, body[..n])] + [Piece(Unread, body[n..])]
  }

  function BodyPieces(d: Dialect, exporter: Bytes, domain: nat, known: Templates, id: nat, body: Bytes): seq<Piece> {
    var key := Key(exporter, domain, id);
    if id < DATA_MIN then ControlPieces(ReadLen(d, id, body), body)
    else if key in known then DataPieces(known[key], body) else []
  }

  function CutterOf(d: Dialect, exporter: Bytes, domain: nat): Cutter {
    (known: Templates, id: nat, body: Bytes) => BodyPieces(d, exporter, domain, known, id, body)
  }

  function SetsPieces(cl: Cleaner, cut: Cutter, known: Templates, rest: Bytes): seq<Piece>
    decreases |rest|
  {
    if !WholeSet(rest) then [Piece(Unread, rest)]
    else
      var id, n, body := U16(rest, 0), U16(rest, 2), SetBody(rest);
      [Piece(Format, rest[..4])]
      + (cut(known, id, body)
         + SetsPieces(cl, cut, if id < DATA_MIN then cl.learn(known, id, body) else known, rest[n..]))
  }

  // Every set is whole, and read whole.
  predicate TightSets(d: Dialect, rest: Bytes)
    decreases |rest|
  {
    if |rest| < 4 then rest == []
    else
      && WholeSet(rest)
      && (U16(rest, 0) < DATA_MIN ==> ReadLen(d, U16(rest, 0), SetBody(rest)) == |SetBody(rest)|)
      && TightSets(d, rest[U16(rest, 2)..])
  }

  // What is left of a body, and whether its pieces were all read.
  predicate CutWell(d: Dialect, r: Renaming, ps: seq<Piece>, id: nat, body: Bytes, body': Bytes) {
    Makes(r, ps, body, body') && (AllRead(ps) <==> id < DATA_MIN ==> ReadLen(d, id, body) == |body|)
  }

  ghost predicate Fitting(d: Dialect, ok: Templates -> bool, r: Renaming, cl: Cleaner, cut: Cutter) {
    && (forall known, id: nat, body | ok(known) :: ok(cl.learn(known, id, body)))
    && (forall known, id: nat, body | id < DATA_MIN && |body| < VARLEN ::
          CutWell(d, r, cut(known, id, body), id, body, body))
    && (forall known, id: nat, body | ok(known) && |body| < VARLEN && cl.scrub(known, id, body).Some?
    && id >= DATA_MIN ::
          CutWell(d, r, cut(known, id, body), id, body, cl.scrub(known, id, body).value))
  }

  lemma NoteKeepsOk(d: Dialect, known: Templates, exporter: Bytes, domain: nat, id: nat, body: Bytes)
    requires TemplatesOk(d, known)
    ensures TemplatesOk(d, NoteSet(d, known, exporter, domain, id, body))
  {
    if id == TemplateSet(d) {
      ParsedTemplatesOk(d, body);
      LearnKeepsOk(d, known, exporter, domain, ParseTemplates(d, body));
    }
  }

  lemma ControlCut(r: Renaming, n: nat, body: Bytes)
    requires n <= |body|
    ensures Makes(r, ControlPieces(n, body), body, body) && (AllRead(ControlPieces(n, body)) <==> n == |body|)
  {
    One(r, Piece(Format, body[..n]));
    Last(r, [Piece(Format, body[..n])], body[..n], body[..n], body[n..]);
    assert body == body[..n] + body[n..];
  }

  lemma CutterFits(d: Dialect, ok: Templates -> bool, r: Renaming, exporter: Bytes, domain: nat)
    requires forall known :: ok(known) <==> TemplatesOk(d, known)
    ensures Fitting(d, ok, r, CleanerOf(d, r, exporter, domain), CutterOf(d, exporter, domain))
  {
    var cl, cut := CleanerOf(d, r, exporter, domain), CutterOf(d, exporter, domain);
    forall known, id: nat, body | ok(known) ensures ok(cl.learn(known, id, body)) {
      NoteKeepsOk(d, known, exporter, domain, id, body);
    }
    forall known, id: nat, body | id < DATA_MIN && |body| < VARLEN
      ensures CutWell(d, r, cut(known, id, body), id, body, body)
    {
      ControlCut(r, ReadLen(d, id, body), body);
    }
    forall known, id: nat, body | ok(known) && |body| < VARLEN && cl.scrub(known, id, body).Some? && id >= DATA_MIN
      ensures CutWell(d, r, cut(known, id, body), id, body, cl.scrub(known, id, body).value)
    {
      DataCut(d, r, known[Key(exporter, domain, id)], body, cl.scrub(known, id, body).value);
    }
  }

  lemma SetCut(r: Renaming, rest: Bytes, ps: seq<Piece>, body': Bytes, qs: seq<Piece>, next': Bytes, out: Bytes)
    requires WholeSet(rest) && out == rest[..4] + body' + next'
    requires Makes(r, ps, SetBody(rest), body') && Makes(r, qs, rest[U16(rest, 2)..], next')
    ensures Makes(r, [Piece(Format, rest[..4])] + (ps + qs), rest, out)
    ensures AllRead([Piece(Format, rest[..4])] + (ps + qs)) <==> AllRead(ps) && AllRead(qs)
  {
    var body, next := SetBody(rest), rest[U16(rest, 2)..];
    PiecesAppended(r, ps, body, body', qs, next, next');
    First(r, rest[..4], ps + qs, body + next, body' + next');
    assert rest == rest[..4] + (body + next) && out == rest[..4] + (body' + next');
    ReadAppend(ps, qs);
  }

  lemma {:induction false} SetsCut(d: Dialect, ok: Templates -> bool, r: Renaming, cl: Cleaner, cut: Cutter,
                                   known: Templates, rest: Bytes, s: Sanitized)
    requires Fitting(d, ok, r, cl, cut) && ok(known) && s == SanitizeSets(cl, known, rest) && s.ok
    ensures Makes(r, SetsPieces(cl, cut, known, rest), rest, s.bytes)
    ensures AllRead(SetsPieces(cl, cut, known, rest)) <==> TightSets(d, rest)
    decreases |rest|
  {
    if !WholeSet(rest) {
      var p := Piece(Unread, rest);
      One(r, p);
      assert [p][0] == p;
    } else {
      var known1, body', next := SanitizeStep(cl, known, rest);
      var id, n, body := U16(rest, 0), U16(rest, 2), SetBody(rest);
      assert CutWell(d, r, cut(known, id, body), id, body, body');
      SetsCut(d, ok, r, cl, cut, known1, rest[n..], next);
      SetCut(r, rest, cut(known, id, body), body', SetsPieces(cl, cut, known1, rest[n..]), next.bytes, s.bytes);
    }
  }

  // ---- one payload ----

  function PayloadPieces(d: Dialect, r: Renaming, known: Templates, exporter: Bytes, payload: Bytes): seq<Piece> {
    if |payload| < HeaderLen(d) then [Piece(Unread, payload)]
    else
      var header, end, domain := HeaderLen(d), EndOf(d, payload), DomainOf(d, payload);
      [Piece(Format, payload[..header])]
      + (SetsPieces(CleanerOf(d, r, exporter, domain), CutterOf(d, exporter, domain), known, payload[header..end])
         + [Piece(Unread, payload[end..])])
  }

  // The payload has a header, ends where that says, and its sets are read to the end.
  predicate Tight(d: Dialect, payload: Bytes) {
    HeaderLen(d) <= |payload| == EndOf(d, payload) && TightSets(d, payload[HeaderLen(d)..])
  }

  lemma AroundSets(r: Renaming, payload: Bytes, header: nat, end: nat, ps: seq<Piece>, sets: Bytes)
    requires header <= end <= |payload| && Makes(r, ps, payload[header..end], sets)
    ensures var all := [Piece(Format, payload[..header])] + (ps + [Piece(Unread, payload[end..])]);
      && Makes(r, all, payload, payload[..header] + sets + payload[end..])
      && (AllRead(all) <==> AllRead(ps) && end == |payload|)
  {
    var rest, tail := payload[header..end], payload[end..];
    Last(r, ps, rest, sets, tail);
    First(r, payload[..header], ps + [Piece(Unread, tail)], rest + tail, sets + tail);
    assert payload == payload[..header] + (rest + tail);
    assert payload[..header] + sets + tail == payload[..header] + (sets + tail);
  }

  // Main result: a kept payload is cut into pieces of which exactly the IPv4 address fields of data records are
  // renamed; and it was read to the last byte if and only if it is tight, which its bytes alone decide.
  lemma PayloadCut(d: Dialect, r: Renaming, known: Templates, exporter: Bytes, payload: Bytes, s: Sanitized)
    requires s == SanitizePacket(d, r, known, exporter, payload) && s.ok && TemplatesOk(d, known) && payload != []
    ensures Makes(r, PayloadPieces(d, r, known, exporter, payload), payload, s.bytes)
    ensures AllRead(PayloadPieces(d, r, known, exporter, payload)) <==> Tight(d, payload)
  {
    if |payload| < HeaderLen(d) {
      var p := Piece(Unread, payload);
      One(r, p);
      assert [p][0] == p;
    } else {
      var header, end, domain := HeaderLen(d), EndOf(d, payload), DomainOf(d, payload);
      var cl, cut, rest := CleanerOf(d, r, exporter, domain), CutterOf(d, exporter, domain), payload[header..end];
      ghost var ok := (k: Templates) => TemplatesOk(d, k);
      CutterFits(d, ok, r, exporter, domain);
      var sets := SanitizeSets(cl, known, rest);
      SetsCut(d, ok, r, cl, cut, known, rest, sets);
      AroundSets(r, payload, header, end, SetsPieces(cl, cut, known, rest), sets.bytes);
      assert end == |payload| ==> rest == payload[header..];
    }
  }

  // ---- NetFlow v5 ----

  function V5RecordPieces(b: Bytes): seq<Piece>
    requires |b| >= 48
  {
    [Piece(Address, b[..4])] + ([Piece(Address, b[4..8])] + ([Piece(Address, b[8..12])] + [Piece(Datum, b[12..48])]))
  }

  function V5RecordsPieces(b: Bytes): seq<Piece>
    decreases |b|
  {
    if |b| < 48 then [Piece(Unread, b)] else V5RecordPieces(b) + V5RecordsPieces(b[48..])
  }

  function V5Pieces(payload: Bytes): seq<Piece>
    requires |payload| >= 24
  {
    [Piece(Format, payload[..24])] + V5RecordsPieces(payload[24..])
  }

  lemma V5RecordCut(r: Renaming, b: Bytes)
    requires |b| >= 48
    ensures Makes(r, V5RecordPieces(b), b[..48], V5Record(r, b)) && AllRead(V5RecordPieces(b))
  {
    var p, q, s, t := Piece(Address, b[..4]), Piece(Address, b[4..8]), Piece(Address, b[8..12]),
        Piece(Datum, b[12..48]);
    var s', q', p' := Renamed(r, s).bytes, Renamed(r, q).bytes, Renamed(r, p).bytes;
    One(r, t);
    PieceFirst(r, s, [t], t.bytes, t.bytes);
    PieceFirst(r, q, [s] + [t], s.bytes + t.bytes, s' + t.bytes);
    PieceFirst(r, p, [q] + ([s] + [t]), q.bytes + (s.bytes + t.bytes), q' + (s' + t.bytes));
    assert b[..48] == p.bytes + (q.bytes + (s.bytes + t.bytes));
    assert V5Record(r, b) == p' + (q' + (s' + t.bytes));
  }

  lemma {:induction false} V5RecordsCut(r: Renaming, b: Bytes, q: nat)
    requires |b| == 48 * q
    ensures Makes(r, V5RecordsPieces(b), b, V5Records(r, b)) && AllRead(V5RecordsPieces(b))
    decreases q
  {
    if q == 0 {
      One(r, Piece(Unread, b));
    } else {
      V5RecordCut(r, b);
      V5RecordsCut(r, b[48..], q - 1);
      assert b == b[..48] + b[48..];
      PiecesAppended(r, V5RecordPieces(b), b[..48], V5Record(r, b), V5RecordsPieces(b[48..]), b[48..],
                     V5Records(r, b[48..]));
    }
  }

  lemma V5Cut(r: Renaming, payload: Bytes)
    requires V5Ok(payload)
    ensures Makes(r, V5Pieces(payload), payload, ScrubV5(r, payload)) && AllRead(V5Pieces(payload))
  {
    V5RecordsCut(r, payload[24..], (|payload| - 24) / 48);
    PieceFirst(r, Piece(Format, payload[..24]), V5RecordsPieces(payload[24..]), payload[24..],
               V5Records(r, payload[24..]));
    assert payload == payload[..24] + payload[24..];
  }
}
