/** What a decoded flow holds, in terms of the values written in its record: which element goes where, which of
    several occurrences counts, and what a number, a text and a time are.  */
module Elements {
  import opened Prelude
  import opened Wire
  import opened Decode

  // ---- values ----

  function Power256(n: nat): nat {
    if n == 0 then 1 else 256 * Power256(n - 1)
  }

  // The bytes by their places.
  function PlaceValue(v: Bytes): nat {
    if v == [] then 0 else v[0] * Power256(|v| - 1) + PlaceValue(v[1..])
  }

  // A number is its last eight bytes.
  function Number(v: Bytes): nat {
    PlaceValue(if |v| > 8 then v[|v| - 8..] else v)
  }

  lemma {:induction false} PlaceValueLast(v: Bytes, b: Byte)
    ensures PlaceValue(v + [b]) == PlaceValue(v) * 256 + b
  {
    if v == [] {
      assert (v + [b])[1..] == [] && Power256(0) == 1;
    } else {
      PlaceValueLast(v[1..], b);
      assert (v + [b])[1..] == v[1..] + [b];
      assert Power256(|v|) == 256 * Power256(|v| - 1);
    }
  }

  lemma {:induction false} BeUintIs(v: Bytes)
    ensures BeUint(v) == Number(v)
    decreases |v|
  {
    if |v| > 8 {
      BeUintIs(v[|v| - 8..]);
    } else if v != [] {
      BeUintIs(v[..|v| - 1]);
      PlaceValueLast(v[..|v| - 1], v[|v| - 1]);
      assert v == v[..|v| - 1] + [v[|v| - 1]];
    }
  }

  // The 64-bit integer that agrees with x in its last 64 bits.
  predicate IsSigned(x: int, y: int) {
    -0x8000_0000_0000_0000 <= y < 0x8000_0000_0000_0000 && (x - y) % 0x1_0000_0000_0000_0000 == 0
  }

  lemma Int64Is(x: int)
    ensures IsSigned(x, Int64(x)) && forall y | IsSigned(x, y) :: y == Int64(x)
  {
  }

  // The text w in the field v: it ends before the first NUL, and blanks around it do not count.
  predicate TextAt(v: Bytes, w: Bytes, from: nat, to: nat, end: nat) {
    && from <= to <= end <= |v| && w == v[from..to]
    && (forall i | 0 <= i < end :: v[i] != 0) && (end == |v| || v[end] == 0)
    && (forall i | 0 <= i < from :: Blank(v[i])) && (forall i | to <= i < end :: Blank(v[i]))
    && (from < to ==> !Blank(v[from]) && !Blank(v[to - 1]))
  }

  ghost predicate IsText(v: Bytes, w: Bytes) {
    exists from: nat, to: nat, end: nat :: TextAt(v, w, from, to, end)
  }

  lemma {:induction false} CutAtNulIs(v: Bytes)
    ensures var n := |CutAtNul(v)|;
      && n <= |v| && CutAtNul(v) == v[..n] && (forall i | 0 <= i < n :: v[i] != 0) && (n == |v| || v[n] == 0)
  {
    if v != [] && v[0] != 0 {
      CutAtNulIs(v[1..]);
      var n := |CutAtNul(v[1..])|;
      assert v[..n + 1] == [v[0]] + v[1..][..n];
      forall i | 0 <= i < n + 1 ensures v[i] != 0 { if i > 0 { assert v[i] == v[1..][i - 1]; } }
      assert n + 1 < |v| ==> v[n + 1] == v[1..][n];
    }
  }

  lemma {:induction false} TrimLeftIs(v: Bytes)
    ensures var n := |v| - |TrimLeft(v)|;
      && 0 <= n <= |v| && TrimLeft(v) == v[n..] && (forall i | 0 <= i < n :: Blank(v[i])) && (n < |v| ==> !Blank(v[n]))
  {
    if v != [] && Blank(v[0]) {
      TrimLeftIs(v[1..]);
      var n := |v| - |TrimLeft(v)|;
      assert v[1..][n - 1..] == v[n..];
      forall i | 0 <= i < n ensures Blank(v[i]) { if i > 0 { assert v[i] == v[1..][i - 1]; } }
      assert n < |v| ==> v[n] == v[1..][n - 1];
    }
  }

  lemma {:induction false} TrimRightIs(v: Bytes)
    ensures var n := |TrimRight(v)|;
      && n <= |v| && TrimRight(v) == v[..n] && (forall i | n <= i < |v| :: Blank(v[i])) && (n > 0 ==> !Blank(v[n - 1]))
    decreases |v|
  {
    if v != [] && Blank(v[|v| - 1]) {
      var u := v[..|v| - 1];
      TrimRightIs(u);
      var n := |TrimRight(u)|;
      assert u[..n] == v[..n];
      forall i | n <= i < |v| ensures Blank(v[i]) { if i < |u| { assert v[i] == u[i]; } }
    }
  }

  lemma TrimFieldIs(v: Bytes)
    ensures IsText(v, TrimField(v))
  {
    var cut := CutAtNul(v);
    var left := TrimLeft(cut);
    var w := TrimRight(left);
    CutAtNulIs(v);
    TrimLeftIs(cut);
    TrimRightIs(left);
    var end, from := |cut|, |cut| - |left|;
    var to := from + |w|;
    forall i | 0 <= i < from ensures Blank(v[i]) { assert v[i] == cut[i]; }
    forall i | to <= i < end ensures Blank(v[i]) { assert v[i] == left[i - from]; }
    if from < to { assert v[from] == left[0] && v[to - 1] == w[|w| - 1]; }
    assert TextAt(v, w, from, to, end);
  }

  lemma TextUnique(v: Bytes, w: Bytes, w': Bytes)
    requires IsText(v, w) && IsText(v, w')
    ensures w == w'
  {
    var from: nat, to: nat, end: nat :| TextAt(v, w, from, to, end);
    var from': nat, to': nat, end': nat :| TextAt(v, w', from', to', end');
    SameText(v, w, from, to, end, w', from', to', end');
  }

  lemma SameText(v: Bytes, w: Bytes, from: nat, to: nat, end: nat, w': Bytes, from': nat, to': nat, end': nat)
    requires TextAt(v, w, from, to, end) && TextAt(v, w', from', to', end')
    ensures w == w'
  {
    assert end == end';
    if from < to {
      assert from' <= from && to <= to';
    }
    if from' < to' {
      assert from <= from' && to' <= to;
    }
  }

  // ---- occurrences ----

  predicate Carries(f: Field, ies: set<nat>) { !f.enterprise && f.ie in ies }

  // Where one of these elements occurs last, and where first.
  function LastAt(fields: seq<Field>, ies: set<nat>): (r: Option<nat>)
    ensures r.Some? ==> r.value < |fields| && Carries(fields[r.value], ies)
    ensures r.Some? ==> forall i | r.value < i < |fields| :: !Carries(fields[i], ies)
    ensures r == None ==> forall i | 0 <= i < |fields| :: !Carries(fields[i], ies)
  {
    if fields == [] then None
    else if Carries(fields[|fields| - 1], ies) then Some(|fields| - 1)
    else LastAt(fields[..|fields| - 1], ies)
  }

  function FirstAt(fields: seq<Field>, ies: set<nat>): (r: Option<nat>)
    ensures r.Some? ==> r.value < |fields| && Carries(fields[r.value], ies)
    ensures r.Some? ==> forall i | 0 <= i < r.value :: !Carries(fields[i], ies)
    ensures r == None ==> forall i | 0 <= i < |fields| :: !Carries(fields[i], ies)
  {
    if fields == [] then None
    else
      var r := FirstAt(fields[..|fields| - 1], ies);
      if r.Some? then r else if Carries(fields[|fields| - 1], ies) then Some(|fields| - 1) else None
  }

  // ---- the flow ----

  // The value of the last occurrence, as `put` reads it.
  function LastOr<T>(fields: seq<Field>, values: seq<Bytes>, ies: set<nat>, put: Bytes -> T, none: T): T
    requires |fields| == |values|
  {
    match LastAt(fields, ies)
    case None => none
    case Some(i) => put(values[i])
  }

  function Address(fields: seq<Field>, values: seq<Bytes>, v4: nat, v6: nat): Bytes
    requires |fields| == |values|
  {
    LastOr(fields, values, {v4, v6}, (v: Bytes) => v, [])
  }

  // The low bits of a number.
  function Low(fields: seq<Field>, values: seq<Bytes>, ie: nat, modulus: nat): nat
    requires |fields| == |values| && modulus > 0
  {
    LastOr(fields, values, {ie}, (v: Bytes) => Number(v) % modulus, 0)
  }

  // The first number that is not zero, of the elements 23 from position k on.
  function Fallback(fields: seq<Field>, values: seq<Bytes>, k: nat): nat
    requires |fields| == |values| && k <= |fields|
    decreases |fields| - k
  {
    if k == |fields| then 0
    else if Carries(fields[k], {23}) && Number(values[k]) != 0 then Number(values[k])
    else Fallback(fields, values, k + 1)
  }

  // Element 1 counts, and where it is missing or zero the first element 23 behind it.
  function Octets(fields: seq<Field>, values: seq<Bytes>): nat
    requires |fields| == |values|
  {
    match LastAt(fields, {1})
    case None => Fallback(fields, values, 0)
    case Some(i) => if Number(values[i]) != 0 then Number(values[i]) else Fallback(fields, values, i + 1)
  }

  // A time that is in the record: in milliseconds (`ms`) or, in NetFlow v9 since the device started and in IPFIX in
  // seconds (`other`); failing that, in NetFlow v9, the first observation time.
  function TimeIn(d: Dialect, fields: seq<Field>, values: seq<Bytes>, ms: nat, other: nat, base: int): Time
    requires |fields| == |values|
  {
    match LastAt(fields, {ms, other})
    case Some(i) =>
      var x := Int64(Number(values[i]));
      if fields[i].ie == ms then Ms(x) else if d.V9? then Ms(Int64(base + x)) else Ms(x * 1000)
    case None =>
      match FirstAt(fields, {322, 323})
      case Some(i) =>
        var x := Int64(Number(values[i]));
        if d.Ipfix? then Unset else if fields[i].ie == 323 then Ms(x) else Ms(Int64(x * 1000))
      case None => Unset
  }

  function InfoOf(d: Dialect, fields: seq<Field>, values: seq<Bytes>, ctx: Context, start: Time, end: Time): Info
    requires |fields| == |values|
  {
    Info(Low(fields, values, 7, 0x1_0000), Low(fields, values, 11, 0x1_0000),
         Low(fields, values, 227, 0x1_0000), Low(fields, values, 228, 0x1_0000),
         Low(fields, values, 4, 256), Low(fields, values, 5, 256), Low(fields, values, 6, 256),
         Low(fields, values, 230, 256),
         Octets(fields, values), LastOr(fields, values, {2}, Number, 0),
         start, end, LastOr(fields, values, {371}, TrimField, []), ctx.exporterIP)
  }

  // The flow that a record of these fields and values stands for.  An IPFIX flow without its own times takes the
  // export time.
  function FlowOf(d: Dialect, fields: seq<Field>, values: seq<Bytes>, ctx: Context): Flow
    requires |fields| == |values|
  {
    var first := if d.V9? then 22 else 150;
    var last := if d.V9? then 21 else 151;
    var start, end := TimeIn(d, fields, values, 152, first, ctx.base), TimeIn(d, fields, values, 153, last, ctx.base);
    var missing := if d.V9? then Unset else Ms(ctx.base);
    Flow(Addresses(Address(fields, values, 8, 27), Address(fields, values, 12, 28),
                   Address(fields, values, 225, 281), Address(fields, values, 226, 282)),
         InfoOf(d, fields, values, ctx, if start == Unset then missing else start, if end == Unset then missing
           else end))
  }

  // ---- the decoder's fold ----

  lemma {:induction false} FoldLast(d: Dialect, flow: Flow, fields: seq<Field>, values: seq<Bytes>, base: int)
    requires |fields| == |values| > 0
    ensures var n := |fields| - 1;
      Fold(d, flow, fields, values, base)
      == ApplyOne(d, Fold(d, flow, fields[..n], values[..n], base), fields[n], values[n], base)
    decreases |fields|
  {
    var n := |fields| - 1;
    if n > 0 {
      FoldLast(d, ApplyOne(d, flow, fields[0], values[0], base), fields[1..], values[1..], base);
      assert fields[1..][..n - 1] == fields[..n][1..] && values[1..][..n - 1] == values[..n][1..];
    } else {
      assert fields[1..] == [] && fields[..n] == [];
    }
  }

  // A part of the flow that only these elements set.
  ghost predicate SetBy<T(!new)>(d: Dialect, base: int, get: Flow -> T, ies: set<nat>, put: Bytes -> T) {
    forall flow, f, v ::
      get(ApplyOne(d, flow, f, v, base)) == if Carries(f, ies) then put(v) else get(flow)
  }

  lemma {:induction false} LastCounts<T(!new)>(d: Dialect, flow: Flow, fields: seq<Field>, values: seq<Bytes>,
                                               base: int,
                                               get: Flow -> T, ies: set<nat>, put: Bytes -> T)
    requires |fields| == |values| && SetBy(d, base, get, ies, put)
    ensures get(Fold(d, flow, fields, values, base)) == LastOr(fields, values, ies, put, get(flow))
    decreases |fields|
  {
    if fields != [] {
      FoldLast(d, flow, fields, values, base);
      LastCounts(d, flow, fields[..|fields| - 1], values[..|fields| - 1], base, get, ies, put);
    }
  }

  lemma AddressesRead(d: Dialect, flow: Flow, fields: seq<Field>, values: seq<Bytes>, base: int)
    requires |fields| == |values| && flow.ip == Addresses([], [], [], [])
    ensures Fold(d, flow, fields, values, base).ip
            == Addresses(Address(fields, values, 8, 27), Address(fields, values, 12, 28),
                         Address(fields, values, 225, 281), Address(fields, values, 226, 282))
  {
    var put := (v: Bytes) => v;
    LastCounts(d, flow, fields, values, base, (f: Flow) => f.ip.src, {8, 27}, put);
    LastCounts(d, flow, fields, values, base, (f: Flow) => f.ip.dst, {12, 28}, put);
    LastCounts(d, flow, fields, values, base, (f: Flow) => f.ip.natPublic, {225, 281}, put);
    LastCounts(d, flow, fields, values, base, (f: Flow) => f.ip.natDest, {226, 282}, put);
  }

  // A part that one element sets to the low bits of its number.
  lemma LowRead(d: Dialect, flow: Flow, fields: seq<Field>, values: seq<Bytes>, base: int, get: Flow -> nat, ie: nat,
                modulus: nat, put: Bytes -> nat)
    requires |fields| == |values| && modulus > 0 && SetBy(d, base, get, {ie}, put) && get(flow) == 0
    requires forall v :: put(v) == BeUint(v) % modulus
    ensures get(Fold(d, flow, fields, values, base)) == Low(fields, values, ie, modulus)
  {
    LastCounts(d, flow, fields, values, base, get, {ie}, put);
    if LastAt(fields, {ie}).Some? { BeUintIs(values[LastAt(fields, {ie}).value]); }
  }

  // Times are set apart from the rest.
  lemma TimesOnly(d: Dialect, info: Info, ie: nat, v: Bytes, base: int)
    ensures var t := ApplyTime(d, info, ie, v, base); t == info.(start := t.start, end := t.end)
  {
  }

  // Which element sets which number.
  lemma PortsApplied(d: Dialect, flow: Flow, f: Field, v: Bytes, base: int, t: Flow)
    requires t == ApplyOne(d, flow, f, v, base)
    ensures t.info.srcPort == if Carries(f, {7}) then BeUint(v) % 0x1_0000 else flow.info.srcPort
    ensures t.info.dstPort == if Carries(f, {11}) then BeUint(v) % 0x1_0000 else flow.info.dstPort
    ensures t.info.natPublicPort == if Carries(f, {227}) then BeUint(v) % 0x1_0000 else flow.info.natPublicPort
    ensures t.info.natDestPort == if Carries(f, {228}) then BeUint(v) % 0x1_0000 else flow.info.natDestPort
  {
    TimesOnly(d, flow.info, f.ie, v, base);
  }

  lemma BytesApplied(d: Dialect, flow: Flow, f: Field, v: Bytes, base: int, t: Flow)
    requires t == ApplyOne(d, flow, f, v, base)
    ensures t.info.protocol == if Carries(f, {4}) then BeUint(v) % 256 else flow.info.protocol
    ensures t.info.tos == if Carries(f, {5}) then BeUint(v) % 256 else flow.info.tos
    ensures t.info.tcpFlags == if Carries(f, {6}) then BeUint(v) % 256 else flow.info.tcpFlags
    ensures t.info.natEvent == if Carries(f, {230}) then BeUint(v) % 256 else flow.info.natEvent
  {
    TimesOnly(d, flow.info, f.ie, v, base);
  }

  lemma RestApplied(d: Dialect, flow: Flow, f: Field, v: Bytes, base: int, t: Flow)
    requires t == ApplyOne(d, flow, f, v, base)
    ensures t.info.packets == if Carries(f, {2}) then BeUint(v) else flow.info.packets
    ensures t.info.username == if Carries(f, {371}) then TrimField(v) else flow.info.username
    ensures t.info.exporterIP == flow.info.exporterIP
  {
    TimesOnly(d, flow.info, f.ie, v, base);
  }

  lemma SrcPortRead(d: Dialect, flow: Flow, fields: seq<Field>, values: seq<Bytes>, base: int)
    requires |fields| == |values| && flow.info.srcPort == 0
    ensures Fold(d, flow, fields, values, base).info.srcPort == Low(fields, values, 7, 0x1_0000)
  {
    var get, put := (f: Flow) => f.info.srcPort, (v: Bytes) => BeUint(v) % 0x1_0000;
    forall f, x, v ensures get(ApplyOne(d, f, x, v, base)) == if Carries(x, {7}) then put(v) else get(f) {
      PortsApplied(d, f, x, v, base, ApplyOne(d, f, x, v, base));
    }
    LowRead(d, flow, fields, values, base, get, 7, 0x1_0000, put);
  }

  lemma DstPortRead(d: Dialect, flow: Flow, fields: seq<Field>, values: seq<Bytes>, base: int)
    requires |fields| == |values| && flow.info.dstPort == 0
    ensures Fold(d, flow, fields, values, base).info.dstPort == Low(fields, values, 11, 0x1_0000)
  {
    var get, put := (f: Flow) => f.info.dstPort, (v: Bytes) => BeUint(v) % 0x1_0000;
    forall f, x, v ensures get(ApplyOne(d, f, x, v, base)) == if Carries(x, {11}) then put(v) else get(f) {
      PortsApplied(d, f, x, v, base, ApplyOne(d, f, x, v, base));
    }
    LowRead(d, flow, fields, values, base, get, 11, 0x1_0000, put);
  }

  lemma NatPublicPortRead(d: Dialect, flow: Flow, fields: seq<Field>, values: seq<Bytes>, base: int)
    requires |fields| == |values| && flow.info.natPublicPort == 0
    ensures Fold(d, flow, fields, values, base).info.natPublicPort == Low(fields, values, 227, 0x1_0000)
  {
    var get, put := (f: Flow) => f.info.natPublicPort, (v: Bytes) => BeUint(v) % 0x1_0000;
    forall f, x, v ensures get(ApplyOne(d, f, x, v, base)) == if Carries(x, {227}) then put(v) else get(f) {
      PortsApplied(d, f, x, v, base, ApplyOne(d, f, x, v, base));
    }
    LowRead(d, flow, fields, values, base, get, 227, 0x1_0000, put);
  }

  lemma NatDestPortRead(d: Dialect, flow: Flow, fields: seq<Field>, values: seq<Bytes>, base: int)
    requires |fields| == |values| && flow.info.natDestPort == 0
    ensures Fold(d, flow, fields, values, base).info.natDestPort == Low(fields, values, 228, 0x1_0000)
  {
    var get, put := (f: Flow) => f.info.natDestPort, (v: Bytes) => BeUint(v) % 0x1_0000;
    forall f, x, v ensures get(ApplyOne(d, f, x, v, base)) == if Carries(x, {228}) then put(v) else get(f) {
      PortsApplied(d, f, x, v, base, ApplyOne(d, f, x, v, base));
    }
    LowRead(d, flow, fields, values, base, get, 228, 0x1_0000, put);
  }

  lemma ProtocolRead(d: Dialect, flow: Flow, fields: seq<Field>, values: seq<Bytes>, base: int)
    requires |fields| == |values| && flow.info.protocol == 0
    ensures Fold(d, flow, fields, values, base).info.protocol == Low(fields, values, 4, 256)
  {
    var get, put := (f: Flow) => f.info.protocol, (v: Bytes) => BeUint(v) % 256;
    forall f, x, v ensures get(ApplyOne(d, f, x, v, base)) == if Carries(x, {4}) then put(v) else get(f) {
      BytesApplied(d, f, x, v, base, ApplyOne(d, f, x, v, base));
    }
    LowRead(d, flow, fields, values, base, get, 4, 256, put);
  }

  lemma TosRead(d: Dialect, flow: Flow, fields: seq<Field>, values: seq<Bytes>, base: int)
    requires |fields| == |values| && flow.info.tos == 0
    ensures Fold(d, flow, fields, values, base).info.tos == Low(fields, values, 5, 256)
  {
    var get, put := (f: Flow) => f.info.tos, (v: Bytes) => BeUint(v) % 256;
    forall f, x, v ensures get(ApplyOne(d, f, x, v, base)) == if Carries(x, {5}) then put(v) else get(f) {
      BytesApplied(d, f, x, v, base, ApplyOne(d, f, x, v, base));
    }
    LowRead(d, flow, fields, values, base, get, 5, 256, put);
  }

  lemma FlagsRead(d: Dialect, flow: Flow, fields: seq<Field>, values: seq<Bytes>, base: int)
    requires |fields| == |values| && flow.info.tcpFlags == 0
    ensures Fold(d, flow, fields, values, base).info.tcpFlags == Low(fields, values, 6, 256)
  {
    var get, put := (f: Flow) => f.info.tcpFlags, (v: Bytes) => BeUint(v) % 256;
    forall f, x, v ensures get(ApplyOne(d, f, x, v, base)) == if Carries(x, {6}) then put(v) else get(f) {
      BytesApplied(d, f, x, v, base, ApplyOne(d, f, x, v, base));
    }
    LowRead(d, flow, fields, values, base, get, 6, 256, put);
  }

  lemma EventRead(d: Dialect, flow: Flow, fields: seq<Field>, values: seq<Bytes>, base: int)
    requires |fields| == |values| && flow.info.natEvent == 0
    ensures Fold(d, flow, fields, values, base).info.natEvent == Low(fields, values, 230, 256)
  {
    var get, put := (f: Flow) => f.info.natEvent, (v: Bytes) => BeUint(v) % 256;
    forall f, x, v ensures get(ApplyOne(d, f, x, v, base)) == if Carries(x, {230}) then put(v) else get(f) {
      BytesApplied(d, f, x, v, base, ApplyOne(d, f, x, v, base));
    }
    LowRead(d, flow, fields, values, base, get, 230, 256, put);
  }

  lemma PacketsRead(d: Dialect, flow: Flow, fields: seq<Field>, values: seq<Bytes>, base: int)
    requires |fields| == |values| && flow.info.packets == 0
    ensures Fold(d, flow, fields, values, base).info.packets == LastOr(fields, values, {2}, Number, 0)
  {
    var get := (f: Flow) => f.info.packets;
    forall f, x, v ensures get(ApplyOne(d, f, x, v, base)) == if Carries(x, {2}) then BeUint(v) else get(f) {
      RestApplied(d, f, x, v, base, ApplyOne(d, f, x, v, base));
    }
    LastCounts(d, flow, fields, values, base, get, {2}, BeUint);
    if LastAt(fields, {2}).Some? { BeUintIs(values[LastAt(fields, {2}).value]); }
  }

  lemma UsernameRead(d: Dialect, flow: Flow, fields: seq<Field>, values: seq<Bytes>, base: int)
    requires |fields| == |values| && flow.info.username == []
    ensures Fold(d, flow, fields, values, base).info.username == LastOr(fields, values, {371}, TrimField, [])
  {
    var get := (f: Flow) => f.info.username;
    forall f, x, v ensures get(ApplyOne(d, f, x, v, base)) == if Carries(x, {371}) then TrimField(v) else get(f) {
      RestApplied(d, f, x, v, base, ApplyOne(d, f, x, v, base));
    }
    LastCounts(d, flow, fields, values, base, get, {371}, TrimField);
  }

  lemma ExporterKept(d: Dialect, flow: Flow, fields: seq<Field>, values: seq<Bytes>, base: int)
    requires |fields| == |values|
    ensures Fold(d, flow, fields, values, base).info.exporterIP == flow.info.exporterIP
  {
    var get := (f: Flow) => f.info.exporterIP;
    forall f, x, v ensures get(ApplyOne(d, f, x, v, base)) == if Carries(x, {}) then TrimField(v) else get(f) {
      RestApplied(d, f, x, v, base, ApplyOne(d, f, x, v, base));
    }
    LastCounts(d, flow, fields, values, base, get, {}, TrimField);
  }

  // One more field.
  lemma {:induction false} FallbackMore(fields: seq<Field>, values: seq<Bytes>, k: nat)
    requires |fields| == |values| && k < |fields|
    ensures var n := |fields| - 1;
      Fallback(fields, values, k)
      == var before := Fallback(fields[..n], values[..n], k);
         if before != 0 then before else if Carries(fields[n], {23}) then Number(values[n]) else 0
    decreases |fields| - k
  {
    var n := |fields| - 1;
    if k < n { FallbackMore(fields, values, k + 1); } else { assert Fallback(fields, values, n + 1) == 0; }
  }

  lemma {:induction false} OctetsRead(d: Dialect, flow: Flow, fields: seq<Field>, values: seq<Bytes>, base: int)
    requires |fields| == |values| && flow.info.octets == 0
    ensures Fold(d, flow, fields, values, base).info.octets == Octets(fields, values)
    decreases |fields|
  {
    if fields != [] {
      var n := |fields| - 1;
      FoldLast(d, flow, fields, values, base);
      var before := Fold(d, flow, fields[..n], values[..n], base);
      OctetsRead(d, flow, fields[..n], values[..n], base);
      OctetsApplied(d, before, fields[n], values[n], base);
      OctetsMore(fields, values, n);
    }
  }

  lemma OctetsApplied(d: Dialect, flow: Flow, f: Field, v: Bytes, base: int)
    ensures ApplyOne(d, flow, f, v, base).info.octets
            == if Carries(f, {1}) then Number(v)
               else if flow.info.octets == 0 && Carries(f, {23}) then Number(v) else flow.info.octets
  {
    BeUintIs(v);
  }

  lemma OctetsMore(fields: seq<Field>, values: seq<Bytes>, n: nat)
    requires |fields| == |values| == n + 1
    ensures var before := Octets(fields[..n], values[..n]);
      Octets(fields, values)
      == if Carries(fields[n], {1}) then Number(values[n])
         else if before == 0 && Carries(fields[n], {23}) then Number(values[n]) else before
  {
    var last := LastAt(fields[..n], {1});
    if Carries(fields[n], {1}) {
      assert LastAt(fields, {1}) == Some(n) && Fallback(fields, values, n + 1) == 0;
    } else {
      assert LastAt(fields, {1}) == last;
      FallbackMore(fields, values, if last == None then 0 else last.value + 1);
    }
  }

  // ---- times ----

  // What a field says of the start or end that `ms` and `other` set.
  function Stated(d: Dialect, f: Field, x: int, ms: nat, base: int): Time {
    if f.ie == ms then Ms(x) else if d.V9? then Ms(Int64(base + x)) else Ms(x * 1000)
  }

  function Observed(d: Dialect, f: Field, x: int): Time {
    if d.Ipfix? then Unset else if f.ie == 323 then Ms(x) else Ms(Int64(x * 1000))
  }

  // How one field changes that time.
  ghost predicate TimeSetBy(d: Dialect, base: int, get: Flow -> Time, ms: nat, other: nat) {
    forall flow, f, v ::
      get(ApplyOne(d, flow, f, v, base))
      == if Carries(f, {ms, other}) then Stated(d, f, Int64(BeUint(v)), ms, base)
         else if Carries(f, {322, 323}) && get(flow) == Unset then Observed(d, f, Int64(BeUint(v))) else get(flow)
  }

  lemma TimeMore(d: Dialect, fields: seq<Field>, values: seq<Bytes>, ms: nat, other: nat, base: int, n: nat)
    requires |fields| == |values| == n + 1
    ensures var before, x := TimeIn(d, fields[..n], values[..n], ms, other, base), Int64(Number(values[n]));
      TimeIn(d, fields, values, ms, other, base)
      == if Carries(fields[n], {ms, other}) then Stated(d, fields[n], x, ms, base)
         else if Carries(fields[n], {322, 323}) && before == Unset then Observed(d, fields[n], x) else before
  {
    if !Carries(fields[n], {ms, other}) {
      assert LastAt(fields, {ms, other}) == LastAt(fields[..n], {ms, other});
      var first := FirstAt(fields[..n], {322, 323});
      assert first.Some? ==> FirstAt(fields, {322, 323}) == first;
    }
  }

  lemma {:induction false} TimeRead(d: Dialect, flow: Flow, fields: seq<Field>, values: seq<Bytes>, base: int,
                                    get: Flow -> Time, ms: nat, other: nat)
    requires |fields| == |values| && TimeSetBy(d, base, get, ms, other) && get(flow) == Unset
    ensures get(Fold(d, flow, fields, values, base)) == TimeIn(d, fields, values, ms, other, base)
    decreases |fields|
  {
    if fields != [] {
      var n := |fields| - 1;
      FoldLast(d, flow, fields, values, base);
      TimeRead(d, flow, fields[..n], values[..n], base, get, ms, other);
      BeUintIs(values[n]);
      TimeMore(d, fields, values, ms, other, base, n);
    }
  }

  // The times of an information element.
  lemma TimeApplied(d: Dialect, info: Info, ie: nat, v: Bytes, base: int)
    ensures var x := Int64(BeUint(v));
      var t := ApplyTime(d, info, ie, v, base);
      && t.start == (if d.V9? then
                       if ie == 22 then Ms(Int64(base + x))
                       else if ie == 323 then OrSet(info.start, x)
                       else if ie == 322 then OrSet(info.start, Int64(x * 1000)) else info.start
                     else if ie == 150 then Ms(x * 1000) else info.start)
      && t.end == (if d.V9? then
                     if ie == 21 then Ms(Int64(base + x))
                     else if ie == 323 then OrSet(info.end, x)
                     else if ie == 322 then OrSet(info.end, Int64(x * 1000)) else info.end
                   else if ie == 151 then Ms(x * 1000) else info.end)
  {
  }

  lemma InfoApplied(d: Dialect, info: Info, ie: nat, v: Bytes, base: int)
    ensures var t, u := ApplyInfo(d, info, ie, v, base), ApplyTime(d, info, ie, v, base);
      && t.start == (if ie == 152 then Ms(Int64(BeUint(v))) else if Timed(ie) then u.start else info.start)
      && t.end == (if ie == 153 then Ms(Int64(BeUint(v))) else if Timed(ie) then u.end else info.end)
  {
    if !Timed(ie) { NotTimed(d, info, ie, v, base); }
  }

  predicate Timed(ie: nat) { ie == 21 || ie == 22 || ie == 150 || ie == 151 || ie == 322 || ie == 323 }

  lemma NotTimed(d: Dialect, info: Info, ie: nat, v: Bytes, base: int)
    requires !Timed(ie)
    ensures ApplyTime(d, info, ie, v, base) == info
  {
  }

  lemma StartApplied(d: Dialect, flow: Flow, f: Field, v: Bytes, base: int, t: Flow)
    requires t == ApplyOne(d, flow, f, v, base)
    ensures var x := Int64(BeUint(v));
      t.info.start == if Carries(f, {152, if d.V9? then 22 else 150}) then Stated(d, f, x, 152, base)
                     else if Carries(f, {322, 323}) && flow.info.start == Unset then Observed(d, f, x)
                     else flow.info.start
  {
    if !f.enterprise && !IsAddress(f.ie) {
      var info := flow.info;
      InfoApplied(d, info, f.ie, v, base);
      TimeApplied(d, info, f.ie, v, base);
    }
  }

  lemma EndApplied(d: Dialect, flow: Flow, f: Field, v: Bytes, base: int, t: Flow)
    requires t == ApplyOne(d, flow, f, v, base)
    ensures var x := Int64(BeUint(v));
      t.info.end == if Carries(f, {153, if d.V9? then 21 else 151}) then Stated(d, f, x, 153, base)
                     else if Carries(f, {322, 323}) && flow.info.end == Unset then Observed(d, f, x)
                     else flow.info.end
  {
    if !f.enterprise && !IsAddress(f.ie) {
      var info := flow.info;
      InfoApplied(d, info, f.ie, v, base);
      TimeApplied(d, info, f.ie, v, base);
    }
  }

  lemma StartSetBy(d: Dialect, base: int, get: Flow -> Time)
    requires forall f :: get(f) == f.info.start
    ensures TimeSetBy(d, base, get, 152, if d.V9? then 22 else 150)
  {
    forall flow, f, v
      ensures get(ApplyOne(d, flow, f, v, base))
              == if Carries(f, {152, if d.V9? then 22 else 150}) then Stated(d, f, Int64(BeUint(v)), 152, base)
                 else if Carries(f, {322, 323}) && get(flow) == Unset then Observed(d, f, Int64(BeUint(v)))
                 else get(flow)
    {
      StartApplied(d, flow, f, v, base, ApplyOne(d, flow, f, v, base));
    }
  }

  lemma EndSetBy(d: Dialect, base: int, get: Flow -> Time)
    requires forall f :: get(f) == f.info.end
    ensures TimeSetBy(d, base, get, 153, if d.V9? then 21 else 151)
  {
    forall flow, f, v
      ensures get(ApplyOne(d, flow, f, v, base))
              == if Carries(f, {153, if d.V9? then 21 else 151}) then Stated(d, f, Int64(BeUint(v)), 153, base)
                 else if Carries(f, {322, 323}) && get(flow) == Unset then Observed(d, f, Int64(BeUint(v)))
                 else get(flow)
    {
      EndApplied(d, flow, f, v, base, ApplyOne(d, flow, f, v, base));
    }
  }

  lemma TimesRead(d: Dialect, flow: Flow, fields: seq<Field>, values: seq<Bytes>, base: int)
    requires |fields| == |values| && flow.info.start == flow.info.end == Unset
    ensures var info := Fold(d, flow, fields, values, base).info;
      && info.start == TimeIn(d, fields, values, 152, if d.V9? then 22 else 150, base)
      && info.end == TimeIn(d, fields, values, 153, if d.V9? then 21 else 151, base)
  {
    var start, end := (f: Flow) => f.info.start, (f: Flow) => f.info.end;
    StartSetBy(d, base, start);
    EndSetBy(d, base, end);
    TimeRead(d, flow, fields, values, base, start, 152, if d.V9? then 22 else 150);
    TimeRead(d, flow, fields, values, base, end, 153, if d.V9? then 21 else 151);
  }

  // Main result: what the decoder makes of a record, field by field, is the flow its values stand for.
  lemma RecordRead(d: Dialect, fields: seq<Field>, values: seq<Bytes>, ctx: Context)
    requires |fields| == |values|
    ensures RecordFlow(d, fields, values, ctx) == FlowOf(d, fields, values, ctx)
  {
    var flow := EmptyFlow(ctx);
    AddressesRead(d, flow, fields, values, ctx.base);
    SrcPortRead(d, flow, fields, values, ctx.base);
    DstPortRead(d, flow, fields, values, ctx.base);
    NatPublicPortRead(d, flow, fields, values, ctx.base);
    NatDestPortRead(d, flow, fields, values, ctx.base);
    ProtocolRead(d, flow, fields, values, ctx.base);
    TosRead(d, flow, fields, values, ctx.base);
    FlagsRead(d, flow, fields, values, ctx.base);
    EventRead(d, flow, fields, values, ctx.base);
    PacketsRead(d, flow, fields, values, ctx.base);
    UsernameRead(d, flow, fields, values, ctx.base);
    ExporterKept(d, flow, fields, values, ctx.base);
    OctetsRead(d, flow, fields, values, ctx.base);
    TimesRead(d, flow, fields, values, ctx.base);
  }
}
