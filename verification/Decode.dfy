/** What the NetFlow v9 and IPFIX decoders compute from a datagram and a template cache.  */
module Decode {
  import opened Prelude
  import opened Wire

  // The values of the record `body` starts with, and its length; None if the bytes run out.
  function Walk(d: Dialect, body: Bytes, fields: seq<Field>): (r: Option<(seq<Bytes>, nat)>)
    ensures r.Some? ==> |r.value.0| == |fields| && r.value.1 <= |body|
    decreases |fields|
  {
    if fields == [] then Some(([], 0))
    else match Locate(d, body, fields[0])
      case None => None
      case Some(s) => Prepend(Value(body, s), s.off + s.len, Walk(d, body[s.off + s.len..], fields[1..]))
  }

  function Prepend(v: Bytes, n: nat, rest: Option<(seq<Bytes>, nat)>): Option<(seq<Bytes>, nat)> {
    match rest
    case None => None
    case Some(r) => Some(([v] + r.0, n + r.1))
  }

  // The flow those values make, field by field.
  function Fold(d: Dialect, flow: Flow, fields: seq<Field>, values: seq<Bytes>, base: int): Flow
    requires |fields| == |values|
    decreases |fields|
  {
    if fields == [] then flow
    else Fold(d, ApplyOne(d, flow, fields[0], values[0], base), fields[1..], values[1..], base)
  }

  function RecordFlow(d: Dialect, fields: seq<Field>, values: seq<Bytes>, ctx: Context): Flow
    requires |fields| == |values|
  {
    Finish(d, Fold(d, EmptyFlow(ctx), fields, values, ctx.base), ctx)
  }

  function DecodeRecord(d: Dialect, body: Bytes, fields: seq<Field>, ctx: Context): (r: Option<(Flow, nat)>)
    ensures r.Some? ==> r.value.1 <= |body|
  {
    match Walk(d, body, fields)
    case None => None
    case Some(vn) => Some((RecordFlow(d, fields, vn.0, ctx), vn.1))
  }

  function FixedFlow(d: Dialect, rec: Bytes, fields: seq<Field>, ctx: Context): Flow {
    match DecodeRecord(d, rec, fields, ctx)
    case Some(fn) => fn.0
    case None => EmptyFlow(ctx)
  }

  function EmitFixed(d: Dialect, t: Template, body: Bytes, limit: nat, ctx: Context): seq<Flow>
    decreases limit
  {
    if limit == 0 || t.recordLen == 0 || t.recordLen > |body| then []
    else [FixedFlow(d, body[..t.recordLen], t.fields, ctx)]
         + EmitFixed(d, t, body[t.recordLen..], limit - 1, ctx)
  }

  function EmitVar(d: Dialect, t: Template, body: Bytes, limit: nat, ctx: Context): seq<Flow>
    decreases limit
  {
    if limit == 0 || body == [] then []
    else match DecodeRecord(d, body, t.fields, ctx)
      case None => []
      case Some(fn) => if fn.1 == 0 then [] else [fn.0] + EmitVar(d, t, body[fn.1..], limit - 1, ctx)
  }

  // The flows of one data set.
  function Emit(d: Dialect, t: Template, body: Bytes, limit: nat, ctx: Context): seq<Flow> {
    if t.isOptions then [] else if t.hasVar then EmitVar(d, t, body, limit, ctx) else EmitFixed(d, t, body, limit, ctx)
  }

  // ---- template sets ----

  datatype Item = Define(id: nat, t: Template) | Withdraw(id: nat)

  // One field specifier and its length in bytes.
  function ParseSpec(d: Dialect, body: Bytes): Option<(Field, nat)> {
    if |body| < 4 then None
    else
      var ie, length := U16(body, 0), U16(body, 2);
      if d.V9? || ie < 0x8000 then Some((Field(ie, length, false), 4))
      else if |body| < 8 then None
      else Some((Field(ie - 0x8000, length, true), 8))
  }

  function ParseSpecs(d: Dialect, body: Bytes, count: nat): (r: Option<(seq<Field>, nat)>)
    ensures r.Some? ==> |r.value.0| == count && r.value.1 <= |body|
    decreases count
  {
    if count == 0 then Some(([], 0))
    else match ParseSpec(d, body)
      case None => None
      case Some(fn) =>
        match ParseSpecs(d, body[fn.1..], count - 1)
        case None => None
        case Some(rest) => Some(([fn.0] + rest.0, fn.1 + rest.1))
  }

  // The template record `body` starts with, and its length; none if it is padding or cut short.
  function TemplateAt(d: Dialect, body: Bytes): (r: Option<(Item, nat)>)
    ensures r.Some? ==> 0 < r.value.1 <= |body|
  {
    if |body| < 4 then None
    else
      var id, count := U16(body, 0), U16(body, 2);
      if d.Ipfix? && id == 0 then None
      else if count == 0 then (if d.V9? then None else Some((Withdraw(id), 4)))
      else match ParseSpecs(d, body[4..], count)
        case None => None
        case Some(fn) => Some((Define(id, MakeTemplate(d, fn.0)), 4 + fn.1))
  }

  // The templates a Template Set defines or withdraws, in order.
  function ParseTemplates(d: Dialect, body: Bytes): seq<Item>
    decreases |body|
  {
    match TemplateAt(d, body)
    case None => []
    case Some(x) => [x.0] + ParseTemplates(d, body[x.1..])
  }

  function OptionsTemplate(recordLen: nat): Template {
    Template([], recordLen, false, true)
  }

  function SumLengths(specs: Bytes): nat
    decreases |specs|
  {
    if |specs| < 4 then 0 else U16(specs, 2) + SumLengths(specs[4..])
  }

  // The options template `body` starts with; a v9 set holds one.
  function OptionsAt(d: Dialect, body: Bytes): (r: Option<(Item, nat)>)
    ensures r.Some? ==> 0 < r.value.1 <= |body|
  {
    if |body| < 6 then None
    else
      var id := U16(body, 0);
      match d
      case V9 =>
        var total := U16(body, 2) + U16(body, 4);
        if total == 0 || 6 + total > |body| then None
        else Some((Define(id, OptionsTemplate(SumLengths(body[6..6 + total]))), |body|))
      case Ipfix =>
        if id == 0 then None
        else match ParseSpecs(d, body[6..], U16(body, 2))
          case None => None
          case Some(fn) => Some((Define(id, OptionsTemplate(0)), 6 + fn.1))
  }

  function ParseOptions(d: Dialect, body: Bytes): seq<Item>
    decreases |body|
  {
    match OptionsAt(d, body)
    case None => []
    case Some(x) => [x.0] + ParseOptions(d, body[x.1..])
  }

  // ---- the template cache ----

  const TEMPLATE_TTL := 30 * 60 * 1_000_000_000
  const SWEEP_EVERY := 60 * 1_000_000_000
  const MAX_TEMPLATES := 0x1_0000

  datatype Entry = Entry(t: Template, lastSeen: int)

  // `puts` counts the templates stored so far.
  datatype Cache = Cache(entries: map<Key, Entry>, lastSweep: int, puts: nat)

  // Which keys the sweep of the n-th put removes: map iteration order decides among equals.
  type Sweeps = nat -> set<Key>

  predicate SweepDue(c: Cache, entries: map<Key, Entry>, now: int) {
    now - c.lastSweep > SWEEP_EVERY || |entries| > MAX_TEMPLATES
  }

  function Put(c: Cache, key: Key, t: Template, now: int, sweeps: Sweeps): Cache {
    var entries := c.entries[key := Entry(t, now)];
    if SweepDue(c, entries, now) then Cache(entries - sweeps(c.puts), now, c.puts + 1)
    else Cache(entries, c.lastSweep, c.puts + 1)
  }

  function Touch(c: Cache, key: Key, now: int): Cache
    requires key in c.entries
  {
    c.(entries := c.entries[key := c.entries[key].(lastSeen := now)])
  }

  function StoreOne(c: Cache, exporter: Bytes, domain: nat, item: Item, now: int, sweeps: Sweeps): Cache {
    var key := Key(exporter, domain, item.id);
    match item
    case Define(_, t) => Put(c, key, t, now, sweeps)
    case Withdraw(_) => c.(entries := c.entries - {key})
  }

  function Store(c: Cache, exporter: Bytes, domain: nat, items: seq<Item>, now: int, sweeps: Sweeps): Cache
    decreases |items|
  {
    if items == [] then c else Store(StoreOne(c, exporter, domain, items[0], now, sweeps), exporter, domain,
                                     items[1..], now, sweeps)
  }

  // ---- one datagram ----

  const MAX_RECORDS := 8192

  datatype Out = Out(flows: seq<Flow>, cache: Cache)

  // Who a datagram is from and when it arrived.
  datatype Arrival = Arrival(exporter: Bytes, domain: nat, now: int, ctx: Context)

  // What the decoder does with a set numbered below DATA_MIN, and with a data set.
  datatype Reader = Reader(learn: (Cache, nat, Bytes) -> Cache, data: (Cache, nat, Bytes, nat) -> Out)

  function LearnSet(d: Dialect, c: Cache, a: Arrival, id: nat, body: Bytes, sweeps: Sweeps): Cache {
    if id == TemplateSet(d) then Store(c, a.exporter, a.domain, ParseTemplates(d, body), a.now, sweeps)
    else if id == OptionsSet(d) then Store(c, a.exporter, a.domain, ParseOptions(d, body), a.now, sweeps)
    else c
  }

  function DataFlows(d: Dialect, c: Cache, a: Arrival, id: nat, body: Bytes, limit: nat): Out {
    var key := Key(a.exporter, a.domain, id);
    if key !in c.entries then Out([], c)
    else Out(Emit(d, c.entries[key].t, body, limit, a.ctx), Touch(c, key, a.now))
  }

  function ReaderOf(d: Dialect, a: Arrival, sweeps: Sweeps): Reader {
    Reader((c: Cache, id: nat, body: Bytes) => LearnSet(d, c, a, id, body, sweeps),
           (c: Cache, id: nat, body: Bytes, limit: nat) => DataFlows(d, c, a, id, body, limit))
  }

  predicate WholeSet(rest: Bytes) {
    |rest| >= 4 && 4 <= U16(rest, 2) <= |rest|
  }

  function SetBody(rest: Bytes): (body: Bytes)
    requires WholeSet(rest)
    ensures |body| == U16(rest, 2) - 4
  {
    rest[4..U16(rest, 2)]
  }

  function Then(out: Out, more: Out): Out {
    Out(out.flows + more.flows, more.cache)
  }

  // The sets from `rest` on.  A malformed or truncated set ends the datagram, and so does the
  // last of its record budget.
  function DecodeSets(rd: Reader, c: Cache, rest: Bytes, budget: nat): Out
    decreases |rest|
  {
    if !WholeSet(rest) then Out([], c)
    else
      var id, body, next := U16(rest, 0), SetBody(rest), rest[U16(rest, 2)..];
      if id < DATA_MIN then DecodeSets(rd, rd.learn(c, id, body), next, budget)
      else
        var out := rd.data(c, id, body, budget);
        if |out.flows| >= budget then out
        else Then(out, DecodeSets(rd, out.cache, next, budget - |out.flows|))
  }

  datatype Result = ShortPacket | WrongVersion | Decoded(out: Out)

  // Where parsing stops: the IPFIX header's own length may shorten the datagram.
  function EndOf(d: Dialect, payload: Bytes): (end: nat)
    requires |payload| >= HeaderLen(d)
    ensures HeaderLen(d) <= end <= |payload|
  {
    if d.Ipfix? && 16 <= U16(payload, 2) < |payload| then U16(payload, 2) else |payload|
  }

  function DomainOf(d: Dialect, payload: Bytes): nat
    requires |payload| >= HeaderLen(d)
  {
    if d.V9? then U32(payload, 16) else U32(payload, 12)
  }

  function BaseOf(d: Dialect, payload: Bytes): int
    requires |payload| >= HeaderLen(d)
  {
    if d.V9? then U32(payload, 8) * 1000 - U32(payload, 4) else U32(payload, 4) * 1000
  }

  function DecodePacket(d: Dialect, c: Cache, payload: Bytes, exporter: Bytes, now: int, sweeps: Sweeps): Result {
    if |payload| < HeaderLen(d) then ShortPacket
    else if U16(payload, 0) != Version(d) then WrongVersion
    else
      var a := Arrival(exporter, DomainOf(d, payload), now, Context(exporter, BaseOf(d, payload)));
      Decoded(DecodeSets(ReaderOf(d, a, sweeps), c, payload[HeaderLen(d)..EndOf(d, payload)], MAX_RECORDS))
  }
}
