/** Byte slices written in place.  */
module Buffers {
  import opened Prelude
  import opened Wire

  // `b` with `v` written over it at `off`.
  function Splice(b: Bytes, off: nat, v: Bytes): (r: Bytes)
    requires off + |v| <= |b|
    ensures |r| == |b|
  {
    b[..off] + v + b[off + |v|..]
  }

  lemma SpliceAt(b: Bytes, off: nat, v: Bytes, j: nat)
    requires off + |v| <= |b| && j < |b|
    ensures Splice(b, off, v)[j] == if off <= j < off + |v| then v[j - off] else b[j]
  {
  }

  lemma SpliceNext(b: Bytes, off: nat, u: Bytes, v: Bytes)
    requires off + |u| + |v| <= |b|
    ensures Splice(Splice(b, off, u), off + |u|, v) == Splice(b, off, u + v)
  {
  }

  method PutBytes(buf: array<Byte>, off: nat, v: Bytes)
    requires off + |v| <= buf.Length
    modifies buf
    ensures buf[..] == Splice(old(buf[..]), off, v)
  {
    for i := 0 to |v|
      invariant forall k | 0 <= k < buf.Length :: buf[k] == if off <= k < off + i then v[k - off] else old(buf[k])
    {
      buf[off + i] := v[i];
    }
  }

  // Writes `v` behind the bytes `done` already written at `off`.
  method PutNext(buf: array<Byte>, off: nat, at: nat, v: Bytes, ghost base: Bytes, ghost done: Bytes)
    requires off + |done| + |v| <= buf.Length == |base| && at == off + |done| && buf[..] == Splice(base, off, done)
    modifies buf
    ensures buf[..] == Splice(base, off, done + v)
  {
    PutBytes(buf, at, v);
    SpliceNext(base, off, done, v);
  }

  // Part of a slice, and part of that part.
  lemma Slice(b: Bytes, off: nat, end: nat, i: nat, j: nat)
    requires i <= j && off + j <= end <= |b|
    ensures b[off..end][i..j] == b[off + i..off + j] && b[off..end][j..] == b[off + j..end]
  {
    var all := b[off..end];
    var x, y := all[i..j], b[off + i..off + j];
    assert forall k | 0 <= k < |x| :: x[k] == all[i + k] == y[k];
    var u, v := all[j..], b[off + j..end];
    assert forall k | 0 <= k < |u| :: u[k] == all[j + k] == v[k];
  }

  // Numbers read back where they were put.
  lemma U16At(a: Bytes, x: nat, c: Bytes, whole: Bytes)
    requires x < 0x1_0000 && whole == a + Put16(x) + c
    ensures |a| + 2 <= |whole| && U16(whole, |a|) == x
  {
    assert whole[|a|] == Put16(x)[0] && whole[|a| + 1] == Put16(x)[1];
  }

  lemma U32At(a: Bytes, x: nat, c: Bytes, whole: Bytes)
    requires x < 0x1_0000_0000 && whole == a + Put32(x) + c
    ensures |a| + 4 <= |whole| && U32(whole, |a|) == x
  {
    U16At(a, x / 0x1_0000, Put16(x % 0x1_0000) + c, whole);
    U16At(a + Put16(x / 0x1_0000), x % 0x1_0000, c, whole);
  }
}
