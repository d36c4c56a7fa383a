/**
  When merging three causal versions depends on how they are grouped.  The clocks alone
  tell which versions a grouping keeps; the groupings agree exactly on some clocks.
 */
module CausalGrouping {
  import opened Clocks
  import opened CausalLattices

  predicate Apart(a: Clock, b: Clock) { !Leq(a, b) && !Leq(b, a) }

  /** The condition on the clocks under which both groupings keep the same versions. */
  predicate Associates(a: Clock, b: Clock, c: Clock) {
    if Leq(a, b) then true
    else if Leq(b, a) then !Apart(b, c) || (Leq(c, a) && Join(b, c) != a)
    else
      || Leq(Join(a, b), c)
      || (Leq(c, b) && c != b)
      || (Apart(b, c) && !Leq(c, Join(a, b)) && !Leq(a, Join(b, c)))
  }

  /** Which of three versions a grouping keeps. */
  datatype Keeps = Keeps(a: bool, b: bool, c: bool)

  function KeepsLeft(a: Clock, b: Clock, c: Clock): Keeps {
    var ab := Join(a, b);
    var keepsA, keepsB := !Leq(a, b), Leq(a, b) || !Leq(b, a);
    Keeps(keepsA && !Leq(ab, c), keepsB && !Leq(ab, c), Leq(ab, c) || !Leq(c, ab))
  }

  function KeepsRight(a: Clock, b: Clock, c: Clock): Keeps {
    var bc := Join(b, c);
    var keepsB, keepsC := !Leq(b, c), Leq(b, c) || !Leq(c, b);
    var rest := Leq(a, bc) || !Leq(bc, a);
    Keeps(!Leq(a, bc), keepsB && rest, keepsC && rest)
  }

  /** The case analysis, in terms of which clocks are below which. */
  lemma GroupingTable(ab: bool, ba: bool, bc: bool, cb: bool, ac: bool, ca: bool, cjab: bool, ajbc: bool, sameBC: bool,
                      topIsA: bool)
    requires (ab && bc ==> ac) && (ba && ac ==> bc) && (ac && cb ==> ab)
    requires (ca && ab ==> cb) && (cb && ba ==> ca) && (bc && ca ==> ba)
    requires (ca || cb ==> cjab) && (ab || ac ==> ajbc)
    requires (ab ==> (cjab <==> cb)) && (ba ==> (cjab <==> ca)) && (bc ==> (ajbc <==> ac)) && (cb ==> (ajbc <==> ab))
    requires sameBC <==> bc && cb
    requires topIsA <==> ajbc && ba && ca
    ensures var jabc, jbca := ac && bc, ba && ca;
            var l := Keeps(!ab && !jabc, (ab || !ba) && !jabc, jabc || !cjab);
            var r := Keeps(!ajbc, !bc && (ajbc || !jbca), (bc || !cb) && (ajbc || !jbca));
            l == r <==>
            if ab then true
            else if ba then bc || cb || (ca && !topIsA)
            else jabc || (cb && !sameBC) || (!bc && !cb && !cjab && !ajbc)
  {
  }

  lemma OrderFacts(a: Clock, b: Clock, c: Clock)
    ensures Leq(a, b) && Leq(b, c) ==> Leq(a, c)
    ensures Leq(a, b) && Leq(b, a) ==> a == b
    ensures Leq(Join(a, b), c) <==> Leq(a, c) && Leq(b, c)
    ensures Leq(c, a) || Leq(c, b) ==> Leq(c, Join(a, b))
    ensures Leq(a, b) ==> Join(a, b) == b
    ensures Leq(b, a) ==> Join(a, b) == a
  {
  }

  lemma GroupingsAgreeIff(a: Clock, b: Clock, c: Clock)
    ensures KeepsLeft(a, b, c) == KeepsRight(a, b, c) <==> Associates(a, b, c)
  {
    OrderFacts(a, b, c);
    OrderFacts(b, a, c);
    OrderFacts(a, c, b);
    OrderFacts(c, a, b);
    OrderFacts(b, c, a);
    OrderFacts(c, b, a);
    OrderFacts(a, Join(b, c), a);
    GroupingTable(Leq(a, b), Leq(b, a), Leq(b, c), Leq(c, b), Leq(a, c), Leq(c, a), Leq(c, Join(a, b)), Leq(a, Join(b, c)),
      b == c, Join(b, c) == a);
  }

  function Select(k: Keeps, a: set<string>, b: set<string>, c: set<string>): set<string> {
    (if k.a then a else {}) + (if k.b then b else {}) + (if k.c then c else {})
  }

  lemma SelectIsInjective(k: Keeps, k': Keeps, a: set<string>, b: set<string>, c: set<string>)
    requires a != {} && b != {} && c != {} && a !! b && a !! c && b !! c
    ensures Select(k, a, b, c) == Select(k', a, b, c) <==> k == k'
  {
  }

  /** What a grouping makes of the kept versions: their values and dependencies together, under the joined clock. */
  function Together(k: Keeps, a: CrossCausal, b: CrossCausal, c: CrossCausal): CrossCausal {
    CrossCausal(Join(Join(a.clock, b.clock), c.clock), SelectDeps(k, a.deps, b.deps, c.deps),
                Select(k, a.value, b.value, c.value))
  }

  function Part(kept: bool, deps: map<Key, Clock>): map<Key, Clock> { if kept then deps else map[] }

  function SelectDeps(k: Keeps, a: map<Key, Clock>, b: map<Key, Clock>, c: map<Key, Clock>): map<Key, Clock> {
    JoinDeps(JoinDeps(Part(k.a, a), Part(k.b, b)), Part(k.c, c))
  }

  lemma JoinsAssociate(a: Clock, b: Clock, c: Clock)
    ensures Join(Join(a, b), c) == Join(a, Join(b, c))
  {
    Antisymmetry(Join(Join(a, b), c), Join(a, Join(b, c)));
  }

  lemma JoinDepsAssociate(a: map<Key, Clock>, b: map<Key, Clock>, c: map<Key, Clock>)
    ensures JoinDeps(JoinDeps(a, b), c) == JoinDeps(a, JoinDeps(b, c))
  {
    var l, r := JoinDeps(JoinDeps(a, b), c), JoinDeps(a, JoinDeps(b, c));
    assert l.Keys == r.Keys;
    forall d | d in l ensures l[d] == r[d] {
      if d in a && d in b && d in c {
        JoinsAssociate(a[d], b[d], c[d]);
      }
    }
  }

  lemma JoinDepsUnit(a: map<Key, Clock>)
    ensures JoinDeps(a, map[]) == a && JoinDeps(map[], a) == a
  {
  }

  /** The dependencies of a merge, in terms of which side it keeps. */
  lemma MergedDeps(e: CrossCausal, p: CrossCausal)
    ensures MergeInto(e, p).deps == JoinDeps(Part(!Leq(e.clock, p.clock), e.deps),
                                             Part(Leq(e.clock, p.clock) || !Leq(p.clock, e.clock), p.deps))
  {
    MergeIntoCases(e, p);
    JoinDepsUnit(e.deps);
    JoinDepsUnit(p.deps);
  }

  /** Dropping a joined part drops both of its parts. */
  lemma PartOfJoin(kept: bool, keptA: bool, keptB: bool, a: map<Key, Clock>, b: map<Key, Clock>)
    ensures Part(kept, JoinDeps(Part(keptA, a), Part(keptB, b))) ==
            JoinDeps(Part(keptA && kept, a), Part(keptB && kept, b))
  {
    JoinDepsUnit(map[]);
  }

  lemma LeftDeps(a: CrossCausal, b: CrossCausal, c: CrossCausal)
    ensures MergeInto(MergeInto(a, b), c).deps == SelectDeps(KeepsLeft(a.clock, b.clock, c.clock), a.deps, b.deps, c.deps)
  {
    var ab := MergeInto(a, b);
    MergeIntoCases(a, b);
    MergedDeps(a, b);
    MergedDeps(ab, c);
    PartOfJoin(!Leq(ab.clock, c.clock), !Leq(a.clock, b.clock), Leq(a.clock, b.clock) || !Leq(b.clock, a.clock), a.deps, b.deps);
  }

  lemma RightDeps(a: CrossCausal, b: CrossCausal, c: CrossCausal)
    ensures MergeInto(a, MergeInto(b, c)).deps == SelectDeps(KeepsRight(a.clock, b.clock, c.clock), a.deps, b.deps, c.deps)
  {
    var bc := MergeInto(b, c);
    var k := KeepsRight(a.clock, b.clock, c.clock);
    MergeIntoCases(b, c);
    MergedDeps(b, c);
    MergedDeps(a, bc);
    PartOfJoin(Leq(a.clock, bc.clock) || !Leq(bc.clock, a.clock), !Leq(b.clock, c.clock),
               Leq(b.clock, c.clock) || !Leq(c.clock, b.clock), b.deps, c.deps);
    JoinDepsAssociate(Part(k.a, a.deps), Part(k.b, b.deps), Part(k.c, c.deps));
  }

  lemma LeftGrouping(a: CrossCausal, b: CrossCausal, c: CrossCausal)
    ensures MergeInto(MergeInto(a, b), c) == Together(KeepsLeft(a.clock, b.clock, c.clock), a, b, c)
  {
    LeftDeps(a, b, c);
    MergeIntoCases(a, b);
    MergeIntoCases(MergeInto(a, b), c);
  }

  lemma RightGrouping(a: CrossCausal, b: CrossCausal, c: CrossCausal)
    ensures MergeInto(a, MergeInto(b, c)) == Together(KeepsRight(a.clock, b.clock, c.clock), a, b, c)
  {
    RightDeps(a, b, c);
    MergeIntoCases(b, c);
    MergeIntoCases(a, MergeInto(b, c));
    JoinsAssociate(a.clock, b.clock, c.clock);
  }

  /** On these clocks regrouping a merge makes no difference, whatever the values and dependencies. */
  lemma AssociativeIf(a: CrossCausal, b: CrossCausal, c: CrossCausal)
    requires Associates(a.clock, b.clock, c.clock)
    ensures MergeInto(MergeInto(a, b), c) == MergeInto(a, MergeInto(b, c))
  {
    LeftGrouping(a, b, c);
    RightGrouping(a, b, c);
    GroupingsAgreeIff(a.clock, b.clock, c.clock);
  }

  /** Versions with different values can be regrouped without a difference exactly on these clocks. */
  lemma AssociativeIff(a: CrossCausal, b: CrossCausal, c: CrossCausal)
    requires a.value != {} && b.value != {} && c.value != {}
    requires a.value !! b.value && a.value !! c.value && b.value !! c.value
    ensures MergeInto(MergeInto(a, b), c) == MergeInto(a, MergeInto(b, c)) <==> Associates(a.clock, b.clock, c.clock)
  {
    if Associates(a.clock, b.clock, c.clock) {
      AssociativeIf(a, b, c);
    } else {
      var l, r := KeepsLeft(a.clock, b.clock, c.clock), KeepsRight(a.clock, b.clock, c.clock);
      LeftGrouping(a, b, c);
      RightGrouping(a, b, c);
      SelectIsInjective(l, r, a.value, b.value, c.value);
      GroupingsAgreeIff(a.clock, b.clock, c.clock);
    }
  }

  /**
    Version `c` dominates `a`, and `b` is concurrent to both.  When `a` meets `b` first it lingers;
    when `c` meets `b` first it vanishes.
   */
  lemma DominatedLingers(a: CrossCausal, b: CrossCausal, c: CrossCausal)
    requires Leq(a.clock, c.clock) && Apart(a.clock, b.clock) && Apart(b.clock, c.clock)
    requires !Leq(c.clock, Join(a.clock, b.clock))
    ensures MergeInto(MergeInto(a, b), c).value == a.value + b.value + c.value
    ensures MergeInto(a, MergeInto(b, c)).value == b.value + c.value
  {
    OrderFacts(a.clock, b.clock, c.clock);
    OrderFacts(b.clock, c.clock, a.clock);
    LeftGrouping(a, b, c);
    RightGrouping(a, b, c);
  }

  /** Merging is not associative on values: two clients write concurrently, and one of them writes again. */
  lemma ValuesAreNotAssociative(a: CrossCausal, b: CrossCausal, c: CrossCausal)
    requires a.clock == map["x" := 1] && b.clock == map["y" := 1] && c.clock == map["x" := 2]
    ensures MergeInto(MergeInto(a, b), c).value == a.value + b.value + c.value
    ensures MergeInto(a, MergeInto(b, c)).value == b.value + c.value
  {
    assert "x" in a.clock && "x" !in b.clock && "y" in b.clock && "y" !in a.clock && "y" !in c.clock;
    assert At(a.clock, "x") == 1 && At(c.clock, "x") == 2 && At(Join(a.clock, b.clock), "x") == 1;
    LeqIsPointwise(c.clock, Join(a.clock, b.clock));
    DominatedLingers(a, b, c);
  }
}
