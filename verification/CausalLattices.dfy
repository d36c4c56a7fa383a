/**
  The causal lattices: a vector clock, the dependencies of the write, and the
  set of values written.  A merge keeps the dominating side and joins
  concurrent ones.
 */
module CausalLattices {
  import opened Clocks

  type Key = string

  datatype CrossCausal = CrossCausal(clock: Clock, deps: map<Key, Clock>, value: set<string>)

  const BOTTOM := CrossCausal(map[], map[], {})

  /** One component of the dependency on `d`; -1 when there is none. */
  function DepTick(l: CrossCausal, d: Key, n: string): int {
    if d in l.deps then At(l.deps[d], n) else -1
  }

  /** What merging two dependency maps computes. */
  function JoinDeps(a: map<Key, Clock>, b: map<Key, Clock>): (r: map<Key, Clock>)
    ensures r.Keys == a.Keys + b.Keys
    ensures forall d :: d in a && d !in b ==> r[d] == a[d]
    ensures forall d :: d in b && d !in a ==> r[d] == b[d]
    ensures forall d :: d in a && d in b ==> r[d] == Join(a[d], b[d])
  {
    map d | d in a.Keys + b.Keys ::
      if d !in a then b[d] else if d !in b then a[d] else Join(a[d], b[d])
  }

  lemma JoinDepsTicks(a: CrossCausal, b: CrossCausal, r: CrossCausal)
    requires r.deps == JoinDeps(a.deps, b.deps)
    ensures forall d, n :: DepTick(r, d, n) == Max(DepTick(a, d, n), DepTick(b, d, n))
  {
  }

  /** The merge of `p` into `e`: an incoming clock that dominates (or equals) wins outright. */
  function MergeInto(e: CrossCausal, p: CrossCausal): (r: CrossCausal)
    ensures forall n :: At(r.clock, n) == Max(At(e.clock, n), At(p.clock, n))
  {
    var clock := Join(e.clock, p.clock);
    if clock == p.clock then p
    else if clock != e.clock then CrossCausal(clock, JoinDeps(e.deps, p.deps), e.value + p.value)
    else e
  }

  /** The three outcomes of a merge, by how the clocks compare. */
  lemma MergeIntoCases(e: CrossCausal, p: CrossCausal)
    ensures MergeInto(e, p).clock == Join(e.clock, p.clock)
    ensures Leq(e.clock, p.clock) <==> Join(e.clock, p.clock) == p.clock
    ensures Leq(e.clock, p.clock) ==> MergeInto(e, p) == p
    ensures Leq(p.clock, e.clock) && p.clock != e.clock ==> MergeInto(e, p) == e
    ensures !Leq(e.clock, p.clock) && !Leq(p.clock, e.clock) ==>
              MergeInto(e, p) == CrossCausal(Join(e.clock, p.clock), JoinDeps(e.deps, p.deps), e.value + p.value)
  {
  }

  /** The cell the servers and caches merge into. */
  class CrossCausalLattice {
    var element: CrossCausal

    constructor ()
      ensures element == BOTTOM
    {
      element := BOTTOM;
    }

    method Merge(p: CrossCausal)
      modifies this
      ensures element == MergeInto(old(element), p)
    {
      var prev := element.clock;
      element := element.(clock := Join(element.clock, p.clock));
      if element.clock == p.clock {
        element := element.(deps := p.deps, value := p.value);
      } else if element.clock != prev {
        element := element.(deps := JoinDeps(element.deps, p.deps), value := element.value + p.value);
      }
    }
  }

  /** The pair lattice without dependencies, and its merge. */
  datatype CausalPair = CausalPair(clock: Clock, value: set<string>)

  function MergePair(e: CausalPair, p: CausalPair): CausalPair {
    var clock := Join(e.clock, p.clock);
    if clock == p.clock then p
    else if clock != e.clock then CausalPair(clock, e.value + p.value)
    else e
  }

  class CausalPairLattice {
    var element: CausalPair

    constructor ()
      ensures element == CausalPair(map[], {})
    {
      element := CausalPair(map[], {});
    }

    method Merge(p: CausalPair)
      modifies this
      ensures element == MergePair(old(element), p)
    {
      var prev := element.clock;
      element := element.(clock := Join(element.clock, p.clock));
      if element.clock == p.clock {
        element := element.(value := p.value);
      } else if element.clock != prev {
        element := element.(value := element.value + p.value);
      }
    }
  }

  function Forget(l: CrossCausal): CausalPair { CausalPair(l.clock, l.value) }

  /** Dropping the dependencies commutes with merging, so every theorem about clocks and values carries over. */
  lemma PairMergeIsCrossMerge(e: CrossCausal, p: CrossCausal)
    ensures Forget(MergeInto(e, p)) == MergePair(Forget(e), Forget(p))
  {
  }

  /** A write, with the client that issued it. */
  datatype Write = Write(author: string, lattice: CrossCausal)

  datatype Tree = Leaf(write: Write) | Node(left: Tree, right: Tree)

  function Eval(t: Tree): CrossCausal {
    match t
    case Leaf(w) => w.lattice
    case Node(l, r) => MergeInto(Eval(l), Eval(r))
  }

  function Writes(t: Tree): set<Write> {
    match t
    case Leaf(w) => {w}
    case Node(l, r) => Writes(l) + Writes(r)
  }

  /**
    The author's own component identifies a write: whoever has seen it has
    seen the whole write, and equal clocks are the same write.
   */
  ghost predicate Identified(ws: set<Write>) {
    && (forall w | w in ws :: w.author in w.lattice.clock)
    && (forall u, w | u in ws && w in ws :: Identifies(u, w))
  }

  ghost predicate Identifies(u: Write, w: Write) {
    && (At(u.lattice.clock, w.author) >= At(w.lattice.clock, w.author) ==> Leq(w.lattice.clock, u.lattice.clock))
    && (u.lattice.clock == w.lattice.clock ==> u == w)
  }

  ghost predicate Maximal(w: Write, ws: set<Write>) {
    w in ws && forall u | u in ws :: Leq(w.lattice.clock, u.lattice.clock) ==> u == w
  }

  /** The clock of a merge tree is above the clocks of its writes. */
  lemma {:induction false} TreeBound(t: Tree, w: Write)
    requires w in Writes(t)
    ensures Leq(w.lattice.clock, Eval(t).clock)
  {
    match t
    case Leaf(_) =>
    case Node(l, r) =>
      var side := if w in Writes(l) then l else r;
      TreeBound(side, w);
      MergedClock(Eval(l), Eval(r));
      LeqTransitive(w.lattice.clock, Eval(side).clock, Eval(t).clock);
  }

  /** Every component of the clock of a merge tree is that of some write. */
  lemma {:induction false} Attaining(t: Tree, n: string) returns (w: Write)
    requires n in Eval(t).clock
    ensures w in Writes(t) && At(w.lattice.clock, n) == At(Eval(t).clock, n)
  {
    match t
    case Leaf(v) =>
      w := v;
    case Node(l, r) =>
      MergedClock(Eval(l), Eval(r));
      var side := if At(Eval(l).clock, n) < At(Eval(r).clock, n) then r else l;
      w := Attaining(side, n);
  }

  lemma {:induction false} MergedClock(a: CrossCausal, b: CrossCausal)
    ensures Leq(a.clock, MergeInto(a, b).clock) && Leq(b.clock, MergeInto(a, b).clock)
    ensures forall n :: At(MergeInto(a, b).clock, n) == Max(At(a.clock, n), At(b.clock, n))
  {
    MergeIntoCases(a, b);
    JoinIsLeastUpperBound(a.clock, b.clock, a.clock);
  }

  /** The clock of a merge tree is the pointwise maximum of the clocks of its writes. */
  lemma {:induction false} TreeClock(t: Tree)
    ensures forall w | w in Writes(t) :: Leq(w.lattice.clock, Eval(t).clock)
    ensures forall n | n in Eval(t).clock ::
              exists w :: w in Writes(t) && At(w.lattice.clock, n) == At(Eval(t).clock, n)
  {
    forall w | w in Writes(t) ensures Leq(w.lattice.clock, Eval(t).clock) {
      TreeBound(t, w);
    }
    forall n | n in Eval(t).clock ensures exists w :: w in Writes(t) && At(w.lattice.clock, n) == At(Eval(t).clock, n) {
      var w := Attaining(t, n);
    }
  }

  /** A write whose author component the tree has reached is below some write of the tree. */
  lemma {:induction false} SeenInTree(w: Write, t: Tree, ws: set<Write>)
    requires Identified(ws) && w in ws && Writes(t) <= ws
    requires Leq(w.lattice.clock, Eval(t).clock)
    ensures exists u :: u in Writes(t) && Leq(w.lattice.clock, u.lattice.clock)
  {
    var u := Attaining(t, w.author);
    assert Identifies(u, w);
  }

  /** A maximal write below one side of a merge was merged on that side. */
  lemma {:induction false} MaximalIsInDominatingSide(w: Write, t: Tree, ws: set<Write>)
    requires Identified(ws) && Maximal(w, ws) && Writes(t) <= ws
    requires Leq(w.lattice.clock, Eval(t).clock)
    ensures Maximal(w, Writes(t))
  {
    SeenInTree(w, t, ws);
  }

  ghost predicate Kept(w: Write, l: CrossCausal) {
    && w.lattice.value <= l.value
    && forall d, n :: DepTick(w.lattice, d, n) <= DepTick(l, d, n)
  }

  /** Both predicates pass to the writes of a subtree. */
  lemma PartOfIdentified(part: set<Write>, ws: set<Write>)
    requires part <= ws && Identified(ws)
    ensures Identified(part)
    ensures forall w | w in part && Maximal(w, ws) :: Maximal(w, part)
  {
  }

  /** No merge order loses the values or the dependencies of a causally maximal write. */
  lemma {:induction false} MaximalWritesSurvive(t: Tree, w: Write)
    requires Identified(Writes(t)) && Maximal(w, Writes(t))
    ensures Kept(w, Eval(t))
  {
    match t
    case Leaf(_) =>
    case Node(l, r) =>
      var a, b := Eval(l), Eval(r);
      PartOfIdentified(Writes(l), Writes(t));
      PartOfIdentified(Writes(r), Writes(t));
      if w in Writes(l) {
        TreeBound(l, w);
        if Leq(a.clock, b.clock) {
          LeqTransitive(w.lattice.clock, a.clock, b.clock);
          MaximalIsInDominatingSide(w, r, Writes(t));
          MaximalWritesSurvive(r, w);
          MergeIntoCases(a, b);
        } else {
          MaximalWritesSurvive(l, w);
          KeptByMerge(w, a, b, false);
        }
      } else {
        TreeBound(r, w);
        if Leq(b.clock, a.clock) && a.clock != b.clock {
          LeqTransitive(w.lattice.clock, b.clock, a.clock);
          MaximalIsInDominatingSide(w, l, Writes(t));
        } else {
          MaximalWritesSurvive(r, w);
          KeptByMerge(w, a, b, true);
        }
      }
  }

  lemma KeptByMerge(w: Write, a: CrossCausal, b: CrossCausal, incoming: bool)
    requires if incoming then Kept(w, b) && !(Leq(b.clock, a.clock) && a.clock != b.clock)
             else Kept(w, a) && !Leq(a.clock, b.clock)
    ensures Kept(w, MergeInto(a, b))
  {
  }

  /** Nothing unwritten appears: every value and every dependency tick comes from some write. */
  lemma {:induction false} NothingUnwritten(t: Tree)
    ensures forall v | v in Eval(t).value :: exists w :: w in Writes(t) && v in w.lattice.value
    ensures forall d, n :: DepTick(Eval(t), d, n) >= 0 ==>
              exists w :: w in Writes(t) && DepTick(w.lattice, d, n) == DepTick(Eval(t), d, n)
  {
    match t
    case Leaf(w) =>
      assert w in Writes(t);
    case Node(l, r) =>
      NothingUnwritten(l);
      NothingUnwritten(r);
      var a, b := Eval(l), Eval(r);
      MergeIntoCases(a, b);
      forall v | v in Eval(t).value ensures exists w :: w in Writes(t) && v in w.lattice.value {
        var side := if v in a.value then l else r;
        if v in Eval(side).value {
          var w :| w in Writes(side) && v in w.lattice.value;
          assert w in Writes(t);
        }
      }
      forall d, n | DepTick(Eval(t), d, n) >= 0
        ensures exists w :: w in Writes(t) && DepTick(w.lattice, d, n) == DepTick(Eval(t), d, n)
      {
        if !Leq(a.clock, b.clock) && !Leq(b.clock, a.clock) {
          JoinDepsTicks(a, b, Eval(t));
        }
        var side := if DepTick(Eval(t), d, n) == DepTick(a, d, n) then l else r;
        var w :| w in Writes(side) && DepTick(w.lattice, d, n) == DepTick(Eval(side), d, n);
        assert w in Writes(t);
      }
  }

  /** Two merge trees over the same writes always agree on the clock. */
  lemma {:induction false} SameWritesSameClock(s: Tree, t: Tree)
    requires Writes(s) == Writes(t)
    ensures Eval(s).clock == Eval(t).clock
  {
    forall n ensures At(Eval(s).clock, n) == At(Eval(t).clock, n) {
      ClockBelow(s, t, n);
      ClockBelow(t, s, n);
    }
    Antisymmetry(Eval(s).clock, Eval(t).clock);
  }

  lemma {:induction false} ClockBelow(s: Tree, t: Tree, n: string)
    requires Writes(s) == Writes(t)
    ensures At(Eval(s).clock, n) <= At(Eval(t).clock, n)
  {
    if n in Eval(s).clock {
      var w := Attaining(s, n);
      TreeBound(t, w);
      LeqIsPointwise(w.lattice.clock, Eval(t).clock);
    }
  }

  /** When no write dominates another, the order of merging cannot be observed at all. */
  lemma {:induction false} ConcurrentWritesCommute(s: Tree, t: Tree)
    requires Writes(s) == Writes(t) && Identified(Writes(s))
    requires forall w | w in Writes(s) :: Maximal(w, Writes(s))
    ensures Eval(s).clock == Eval(t).clock && Eval(s).value == Eval(t).value
    ensures forall d, n :: DepTick(Eval(s), d, n) == DepTick(Eval(t), d, n)
  {
    SameWritesSameClock(s, t);
    AntichainBelow(s, t);
    AntichainBelow(t, s);
  }

  lemma {:induction false} AntichainBelow(s: Tree, t: Tree)
    requires Writes(s) == Writes(t) && Identified(Writes(s))
    requires forall w | w in Writes(s) :: Maximal(w, Writes(s))
    ensures Eval(s).value <= Eval(t).value
    ensures forall d, n :: DepTick(Eval(s), d, n) <= DepTick(Eval(t), d, n)
  {
    NothingUnwritten(s);
    forall v | v in Eval(s).value ensures v in Eval(t).value {
      var w :| w in Writes(s) && v in w.lattice.value;
      MaximalWritesSurvive(t, w);
    }
    forall d, n ensures DepTick(Eval(s), d, n) <= DepTick(Eval(t), d, n) {
      if DepTick(Eval(s), d, n) >= 0 {
        var w :| w in Writes(s) && DepTick(w.lattice, d, n) == DepTick(Eval(s), d, n);
        MaximalWritesSurvive(t, w);
      }
    }
  }
}
