/** Names that several modules share.  */
module Prelude {

  datatype Option<+T> = None | Some(value: T)

  type Byte = b: int | 0 <= b < 256
  type Bytes = seq<Byte>

  // The first n elements, or all.
  function Take<T>(n: nat, s: seq<T>): seq<T> {
    if n < |s| then s[..n] else s
  }

  lemma TakeCons<T>(n: nat, x: T, s: seq<T>)
    requires n > 0
    ensures Take(n, [x] + s) == [x] + Take(n - 1, s)
  {
  }

  lemma TakeAppend<T>(n: nat, s: seq<T>, t: seq<T>)
    ensures |s| >= n ==> Take(n, s + t) == Take(n, s)
    ensures |s| < n ==> Take(n, s + t) == s + Take(n - |s|, t)
  {
  }

  lemma Associate(a: Bytes, b: Bytes, c: Bytes)
    ensures a + b + c == a + (b + c)
  {
  }

  lemma SubsetSmaller<T>(a: set<T>, b: set<T>)
    requires a <= b
    ensures |a| <= |b|
  {
    assert b == a + (b - a);
  }

  // A predicate `forall x: int {:trigger Folded(x)} :: Folded(x) ==> P` stays folded in every proof that does not
  // mention `Folded`: where a fact is only passed on, its definition costs nothing.
  predicate Folded(x: int) { true }
}
