/**
  Vector clocks: a clock is a map from client names to counters, ordered
  pointwise.  An absent component lies strictly below an explicit 0, because
  two clocks are compared as maps.
 */
module Clocks {

  type Clock = map<string, nat>

  datatype Ordering = GreaterOrEqual | Less | Concurrent

  function Max(x: int, y: int): int { if x < y then y else x }

  /** The component of a clock for one client; -1 when the clock has none. */
  function At(c: Clock, n: string): int {
    if n in c then c[n] else -1
  }

  predicate Leq(a: Clock, b: Clock) {
    forall n | n in a :: n in b && a[n] <= b[n]
  }

  /** What merging the map lattice of two clocks computes. */
  function Join(a: Clock, b: Clock): (r: Clock)
    ensures forall n :: At(r, n) == Max(At(a, n), At(b, n))
    ensures r.Keys == a.Keys + b.Keys
  {
    map n | n in a.Keys + b.Keys ::
      if n !in a then b[n] else if n !in b then a[n] else if a[n] < b[n] then b[n] else a[n]
  }

  lemma LeqIsPointwise(a: Clock, b: Clock)
    ensures Leq(a, b) <==> forall n :: At(a, n) <= At(b, n)
  {
    if forall n :: At(a, n) <= At(b, n) {
      forall n | n in a ensures n in b && a[n] <= b[n] {
        assert At(a, n) <= At(b, n);
      }
    }
  }

  /** The pointwise order is antisymmetric on maps. */
  lemma Antisymmetry(a: Clock, b: Clock)
    requires forall n :: At(a, n) == At(b, n)
    ensures a == b
  {
    forall n ensures n in a <==> n in b {
      assert At(a, n) == At(b, n);
    }
    forall n | n in a ensures a[n] == b[n] {
      assert At(a, n) == At(b, n);
    }
  }

  /** The join is the least upper bound. */
  lemma JoinIsLeastUpperBound(a: Clock, b: Clock, u: Clock)
    ensures Leq(a, Join(a, b)) && Leq(b, Join(a, b))
    ensures Leq(a, u) && Leq(b, u) ==> Leq(Join(a, b), u)
    ensures Leq(a, b) <==> Join(a, b) == b
    ensures Leq(b, a) <==> Join(a, b) == a
  {
  }

  /** Merges one clock into a copy of the other and compares the copies. */
  function Comparison(lhs: Clock, rhs: Clock): (r: Ordering)
    ensures r == GreaterOrEqual <==> Leq(rhs, lhs)
    ensures r == Less <==> Leq(lhs, rhs) && lhs != rhs
    ensures r == Concurrent <==> !Leq(lhs, rhs) && !Leq(rhs, lhs)
  {
    JoinIsLeastUpperBound(lhs, rhs, lhs);
    var merged := Join(lhs, rhs);
    if lhs == merged then GreaterOrEqual
    else if merged == rhs then Less
    else Concurrent
  }

  lemma NotEmptyAbove(a: Clock, b: Clock)
    requires a != map[] && Leq(a, b)
    ensures b != map[]
  {
    var n :| n in a;
    assert n in b;
  }

  lemma LeqTransitive(a: Clock, b: Clock, c: Clock)
    requires Leq(a, b) && Leq(b, c)
    ensures Leq(a, c)
  {
  }
}
