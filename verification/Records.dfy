/** The wire form of a record: what an exporter writes for a sequence of field values, and that
    the record walk takes exactly these values back out of it.  */
module Records {
  import opened Prelude
  import opened Wire
  import opened Decode

  // `head` announces the value `v` of field `f`: nothing for a fixed length, one byte or three
  // for a variable one.
  predicate HeadOk(d: Dialect, f: Field, head: Bytes, v: Bytes) {
    if d.Ipfix? && f.length == 0xFFFF then
      (|v| < 255 && head == [|v|]) || (|v| < 0x1_0000 && head == [255] + Put16(|v|))
    else head == [] && |v| == f.length
  }

  predicate HeadsOk(d: Dialect, fields: seq<Field>, heads: seq<Bytes>, values: seq<Bytes>) {
    |fields| == |heads| == |values| && forall i | 0 <= i < |fields| :: HeadOk(d, fields[i], heads[i], values[i])
  }

  function Lay(heads: seq<Bytes>, values: seq<Bytes>): Bytes
    requires |heads| == |values|
    decreases |values|
  {
    if values == [] then [] else heads[0] + values[0] + Lay(heads[1..], values[1..])
  }

  lemma LocateLaid(d: Dialect, f: Field, head: Bytes, v: Bytes, rest: Bytes)
    requires HeadOk(d, f, head, v)
    ensures var b, s := head + v + rest, Span(|head|, |v|);
      Locate(d, b, f) == Some(s) && Value(b, s) == v && b[s.off + s.len..] == rest
  {
    var b := head + v + rest;
    if |head| > 0 { assert b[0] == head[0]; }
    if |head| == 3 { assert b[1] == head[1] && b[2] == head[2]; }
    assert b[|head|..|head| + |v|] == v;
    assert b[|head| + |v|..] == rest;
  }

  lemma LocatedLaid(d: Dialect, body: Bytes, f: Field, s: Span)
    requires Locate(d, body, f) == Some(s)
    ensures HeadOk(d, f, body[..s.off], Value(body, s))
  {
  }

  lemma WalkStep(d: Dialect, fields: seq<Field>, head: Bytes, v: Bytes, rest: Bytes)
    requires fields != [] && HeadOk(d, fields[0], head, v)
    ensures Walk(d, head + v + rest, fields) == Prepend(v, |head| + |v|, Walk(d, rest, fields[1..]))
  {
    LocateLaid(d, fields[0], head, v, rest);
  }

  lemma WalkJoined(d: Dialect, fields: seq<Field>, head: Bytes, v: Bytes, rest: Bytes, tail: Bytes, others: seq<Bytes>)
    requires fields != [] && HeadOk(d, fields[0], head, v)
    requires Walk(d, rest + tail, fields[1..]) == Some((others, |rest|))
    ensures Walk(d, head + v + rest + tail, fields) == Some(([v] + others, |head + v + rest|))
  {
    Associate(head + v, rest, tail);
    WalkStep(d, fields, head, v, rest + tail);
  }

  // Decoding undoes encoding, record by record: any mix of fixed, short and long variable fields.
  lemma {:induction false} WalkLaid(d: Dialect, fields: seq<Field>, heads: seq<Bytes>, values: seq<Bytes>,
                                    rec: Bytes, tail: Bytes)
    requires HeadsOk(d, fields, heads, values) && rec == Lay(heads, values)
    ensures Walk(d, rec + tail, fields) == Some((values, |rec|))
    decreases |fields|
  {
    if fields != [] {
      var rest := Lay(heads[1..], values[1..]);
      assert HeadOk(d, fields[0], heads[0], values[0]);
      WalkLaid(d, fields[1..], heads[1..], values[1..], rest, tail);
      WalkJoined(d, fields, heads[0], values[0], rest, tail, values[1..]);
      assert [values[0]] + values[1..] == values;
    }
  }
}
