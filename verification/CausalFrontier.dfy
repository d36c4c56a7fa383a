/**
  What a client reports to have seen, condensed: the causal frontier of the
  reported clocks, the version remembered per cache and key, and when comparing
  with what is remembered keeps a read from going back in time.
 */
module CausalFrontiers {
  import opened Clocks
  import opened CausalLattices
  import opened CacheModel

  /** A version that the client knows to be held by the cache at `at`. */
  datatype Located = Located(at: Address, key: Key, clock: Clock)

  type Prior = map<Address, map<Key, Clock>>

  ghost predicate Below(a: Clock, b: Clock) { Leq(a, b) && a != b }

  /** The clocks of `seen` that no other clock of `seen` dominates. */
  ghost function MaximalClocks(seen: set<Clock>): set<Clock> {
    set v | v in seen && forall u | u in seen :: Leq(v, u) ==> u == v
  }

  /** Every clock is below a maximal one. */
  lemma BelowMaximal(seen: set<Clock>, v: Clock) returns (m: Clock)
    requires v in seen
    ensures m in MaximalClocks(seen) && Leq(v, m)
    decreases seen
  {
    if u :| u in seen && Leq(v, u) && u != v {
      var rest := seen - {v};
      m := BelowMaximal(rest, u);
      LeqTransitive(v, u, m);
      if Leq(m, v) {
        LeqIsPointwise(m, v);
        LeqIsPointwise(v, m);
        Antisymmetry(m, v);
      }
      assert m in rest;
      assert forall x | x in seen && Leq(m, x) :: x == m;
    } else {
      m := v;
    }
  }

  /** Adding one clock to a frontier, by what it is compared with. */
  lemma FrontierStep(seen: set<Clock>, v: Clock)
    ensures (exists f :: f in MaximalClocks(seen) && Leq(v, f)) ==>
              MaximalClocks(seen + {v}) == MaximalClocks(seen)
    ensures (exists f :: f in MaximalClocks(seen) && Leq(v, f)) ==>
              forall f | f in MaximalClocks(seen) && Leq(f, v) :: f == v
    ensures !(exists f :: f in MaximalClocks(seen) && Leq(v, f)) ==>
              MaximalClocks(seen + {v}) == (set f | f in MaximalClocks(seen) && !Leq(f, v)) + {v}
  {
    var front := MaximalClocks(seen);
    if f :| f in front && Leq(v, f) {
      forall g | g in front && Leq(g, v) ensures g == v {
        LeqTransitive(g, v, f);
        LeqIsPointwise(f, v);
        LeqIsPointwise(v, f);
        Antisymmetry(f, v);
      }
      assert MaximalClocks(seen + {v}) == front by { FrontierKept(seen, v, f); }
    } else {
      forall u | u in seen ensures !Leq(v, u) {
        if Leq(v, u) {
          var m := BelowMaximal(seen, u);
          LeqTransitive(v, u, m);
        }
      }
      assert MaximalClocks(seen + {v}) == (set f | f in front && !Leq(f, v)) + {v};
    }
  }

  lemma FrontierKept(seen: set<Clock>, v: Clock, f: Clock)
    requires f in MaximalClocks(seen) && Leq(v, f)
    ensures MaximalClocks(seen + {v}) == MaximalClocks(seen)
  {
  }

  /**
    Folds one versioned key into the frontier.  The loop sees the clocks in
    any order and stops early when one dominates `v`.
   */
  method PopulateFrontier(frontier: set<Clock>, v: Clock, ghost seen: set<Clock>) returns (r: set<Clock>)
    requires frontier == MaximalClocks(seen)
    ensures r == MaximalClocks(seen + {v})
  {
    FrontierStep(seen, v);
    var toRemove := {};
    var todo := frontier;
    while todo != {}
      invariant todo <= frontier
      invariant toRemove == set f | f in frontier - todo && Leq(f, v) && f != v
      invariant forall f | f in frontier - todo :: !Leq(v, f)
      decreases todo
    {
      var f :| f in todo;
      match Comparison(f, v) {
        case Less => toRemove := toRemove + {f};
        case GreaterOrEqual => return frontier;
        case Concurrent =>
      }
      todo := todo - {f};
    }
    r := frontier - toRemove + {v};
    assert toRemove == set f | f in frontier && Leq(f, v);
  }

  function ClocksOf(seen: seq<Located>, k: Key): set<Clock> {
    set i | 0 <= i < |seen| && seen[i].key == k :: seen[i].clock
  }

  lemma ClocksOfOneMore(seen: seq<Located>, i: nat, k: Key)
    requires i < |seen|
    ensures ClocksOf(seen[..i + 1], k) == ClocksOf(seen[..i], k) + if seen[i].key == k then {seen[i].clock} else {}
  {
  }

  lemma FrontierOneMore(seen: seq<Located>, i: nat, frontier: map<Key, set<Clock>>, front: set<Clock>)
    requires i < |seen| && IsFrontier(seen[..i], frontier)
    requires front == MaximalClocks(ClocksOf(seen[..i], seen[i].key) + {seen[i].clock})
    ensures IsFrontier(seen[..i + 1], frontier[seen[i].key := front])
  {
    var frontier' := frontier[seen[i].key := front];
    forall k ensures k in frontier' <==> ClocksOf(seen[..i + 1], k) != {} {
      ClocksOfOneMore(seen, i, k);
    }
    forall k | k in frontier' ensures frontier'[k] == MaximalClocks(ClocksOf(seen[..i + 1], k)) {
      ClocksOfOneMore(seen, i, k);
      if k != seen[i].key { assert ClocksOf(seen[..i], k) + {} == ClocksOf(seen[..i], k); }
    }
  }

  /** The frontier of everything the client has seen: per key exactly the maximal clocks, whatever their order. */
  method BuildFrontier(seen: seq<Located>) returns (frontier: map<Key, set<Clock>>)
    ensures IsFrontier(seen, frontier)
  {
    frontier := map[];
    for i := 0 to |seen|
      invariant IsFrontier(seen[..i], frontier)
    {
      var key := seen[i].key;
      var front := if key in frontier then frontier[key] else {};
      assert key !in frontier ==> ClocksOf(seen[..i], key) == {};
      front := PopulateFrontier(front, seen[i].clock, ClocksOf(seen[..i], key));
      FrontierOneMore(seen, i, frontier, front);
      frontier := frontier[key := front];
    }
    assert seen[..|seen|] == seen;
  }

  ghost predicate IsFrontier(seen: seq<Located>, frontier: map<Key, set<Clock>>) {
    && (forall k :: k in frontier <==> ClocksOf(seen, k) != {})
    && (forall k | k in frontier :: frontier[k] == MaximalClocks(ClocksOf(seen, k)))
  }

  // ------------------------------------------------------- remembered versions

  function Known(prior: Prior, a: Address): map<Key, Clock> {
    if a in prior then prior[a] else map[]
  }

  predicate OnFrontier(l: Located, frontier: map<Key, set<Clock>>) {
    l.key in frontier && l.clock in frontier[l.key]
  }

  function Remember(prior: Prior, l: Located): Prior {
    prior[l.at := Known(prior, l.at)[l.key := l.clock]]
  }

  /** What is remembered after the reports in `seen`, in their order. */
  function PriorOf(seen: seq<Located>, frontier: map<Key, set<Clock>>, before: Prior): Prior {
    if seen == [] then before
    else
      var prior := PriorOf(seen[..|seen| - 1], frontier, before);
      if OnFrontier(seen[|seen| - 1], frontier) then Remember(prior, seen[|seen| - 1]) else prior
  }

  /** Remembers, per cache, the versions of the frontier that it holds. */
  method BuildPrior(seen: seq<Located>, frontier: map<Key, set<Clock>>, before: Prior) returns (prior: Prior)
    ensures prior == PriorOf(seen, frontier, before)
  {
    prior := before;
    for i := 0 to |seen|
      invariant prior == PriorOf(seen[..i], frontier, before)
    {
      assert seen[..i + 1][..i] == seen[..i];
      var Located(at, key, clock) := seen[i];
      if key in frontier && clock in frontier[key] {
        prior := prior[at := Known(prior, at)[key := clock]];
      }
    }
    assert seen[..|seen|] == seen;
  }

  /** Report `i` puts a version of `k` at cache `a` on the frontier. */
  predicate Reports(seen: seq<Located>, frontier: map<Key, set<Clock>>, a: Address, k: Key, i: int) {
    0 <= i < |seen| && seen[i].at == a && seen[i].key == k && OnFrontier(seen[i], frontier)
  }

  /** `j` is the last report of a frontier version of this key at this cache. */
  ghost predicate IsLast(seen: seq<Located>, frontier: map<Key, set<Clock>>, a: Address, k: Key, j: int) {
    Reports(seen, frontier, a, k, j) && forall i | i > j :: !Reports(seen, frontier, a, k, i)
  }

  /** The last report on the frontier is what is remembered. */
  lemma {:induction false} PriorIsLast(seen: seq<Located>, frontier: map<Key, set<Clock>>, before: Prior, a: Address, k: Key,
                                       j: int)
    requires IsLast(seen, frontier, a, k, j)
    ensures k in Known(PriorOf(seen, frontier, before), a) && Known(PriorOf(seen, frontier, before), a)[k] == seen[j].clock
  {
    var n := |seen| - 1;
    if j < n {
      assert !Reports(seen, frontier, a, k, n);
      forall i | i > j ensures !Reports(seen[..n], frontier, a, k, i) {
        assert !Reports(seen, frontier, a, k, i);
      }
      PriorIsLast(seen[..n], frontier, before, a, k, j);
    }
  }

  /** Without a report on the frontier, what was known before stays. */
  lemma {:induction false} PriorElsewhere(seen: seq<Located>, frontier: map<Key, set<Clock>>, before: Prior, a: Address, k: Key)
    requires forall i :: !Reports(seen, frontier, a, k, i)
    ensures k in Known(PriorOf(seen, frontier, before), a) <==> k in Known(before, a)
    ensures k in Known(before, a) ==> Known(PriorOf(seen, frontier, before), a)[k] == Known(before, a)[k]
  {
    if seen != [] {
      var n := |seen| - 1;
      assert !Reports(seen, frontier, a, k, n);
      forall i ensures !Reports(seen[..n], frontier, a, k, i) {
        assert !Reports(seen, frontier, a, k, i);
      }
      PriorElsewhere(seen[..n], frontier, before, a, k);
    }
  }

  lemma {:induction false} FindLast(seen: seq<Located>, frontier: map<Key, set<Clock>>, a: Address, k: Key, i: int)
    returns (j: int)
    requires Reports(seen, frontier, a, k, i)
    ensures i <= j && IsLast(seen, frontier, a, k, j)
    decreases |seen| - i
  {
    if later :| later > i && Reports(seen, frontier, a, k, later) {
      j := FindLast(seen, frontier, a, k, later);
    } else {
      j := i;
    }
  }

  // --------------------------------------------------- never reading back in time

  /** A cache the client read from before holds a newer version than `v`. */
  predicate SeenNewer(prior: Prior, key: Key, v: Clock) {
    exists a | a in prior :: key in prior[a] && Leq(v, prior[a][key]) && v != prior[a][key]
  }

  ghost predicate NotOlderThan(seen: seq<Located>, k: Key, v: Clock) {
    forall i | 0 <= i < |seen| && seen[i].key == k :: Leq(v, seen[i].clock) ==> v == seen[i].clock
  }

  /** No version in `found` is older than one the client has seen. */
  ghost predicate NotOlder(found: Store, seen: seq<Located>) {
    forall k | k in found :: NotOlderThan(seen, k, found[k].clock)
  }

  /** Comparing with `prior` is enough: what passes is not older than anything the client has seen. */
  ghost predicate Guards(prior: Prior, seen: seq<Located>) {
    forall k, v :: !SeenNewer(prior, k, v) ==> NotOlderThan(seen, k, v)
  }

  /** The clock with one component lowered as little as possible. */
  function Lower(c: Clock, n: string): Clock
    requires n in c
  {
    if c[n] == 0 then c - {n} else c[n := c[n] - 1]
  }

  /** Every clock strictly below `c` is below one of the lowered clocks. */
  lemma BelowIsBelowLower(c: Clock, v: Clock)
    ensures forall n | n in c :: Below(Lower(c, n), c)
    ensures Below(v, c) ==> exists n :: n in c && Leq(v, Lower(c, n))
  {
    if Below(v, c) {
      if forall n :: At(v, n) == At(c, n) {
        Antisymmetry(v, c);
      }
      var n :| At(v, n) != At(c, n);
      LeqIsPointwise(v, c);
      assert At(v, n) < At(c, n);
      assert Leq(v, Lower(c, n));
    }
  }

  lemma BelowTransitive(a: Clock, b: Clock, c: Clock)
    requires Leq(a, b) && Below(b, c)
    ensures Below(a, c)
  {
    LeqTransitive(a, b, c);
    if a == c {
      LeqIsPointwise(b, c);
      LeqIsPointwise(c, b);
      Antisymmetry(b, c);
    }
  }

  /** What is remembered guards the client exactly if it lies above every clock just below a reported one. */
  lemma GuardsIff(prior: Prior, seen: seq<Located>)
    ensures Guards(prior, seen) <==>
            forall i, n | 0 <= i < |seen| && n in seen[i].clock :: SeenNewer(prior, seen[i].key, Lower(seen[i].clock, n))
  {
    if Guards(prior, seen) {
      forall i, n | 0 <= i < |seen| && n in seen[i].clock ensures SeenNewer(prior, seen[i].key, Lower(seen[i].clock, n)) {
        BelowIsBelowLower(seen[i].clock, map[]);
        assert Below(Lower(seen[i].clock, n), seen[i].clock);
        assert !NotOlderThan(seen, seen[i].key, Lower(seen[i].clock, n));
      }
    }
    if forall i, n | 0 <= i < |seen| && n in seen[i].clock :: SeenNewer(prior, seen[i].key, Lower(seen[i].clock, n)) {
      forall k, v | !SeenNewer(prior, k, v) ensures NotOlderThan(seen, k, v) {
        forall i | 0 <= i < |seen| && seen[i].key == k && Leq(v, seen[i].clock) ensures v == seen[i].clock {
          if v != seen[i].clock {
            BelowIsBelowLower(seen[i].clock, v);
            var n :| n in seen[i].clock && Leq(v, Lower(seen[i].clock, n));
            NewerThanLower(prior, k, v, Lower(seen[i].clock, n));
          }
        }
      }
    }
  }

  lemma NewerThanLower(prior: Prior, k: Key, v: Clock, u: Clock)
    requires Leq(v, u) && SeenNewer(prior, k, u)
    ensures SeenNewer(prior, k, v)
  {
    var a :| a in prior && k in prior[a] && Below(u, prior[a][k]);
    BelowTransitive(v, u, prior[a][k]);
  }

  ghost predicate Maximal(seen: seq<Located>, i: int) {
    0 <= i < |seen| && seen[i].clock in MaximalClocks(ClocksOf(seen, seen[i].key))
  }

  /** `j` is the last report of a maximal clock of its key at its cache. */
  ghost predicate LastMaximal(seen: seq<Located>, j: int) {
    Maximal(seen, j) && forall i | j < i && Maximal(seen, i) :: seen[i].at != seen[j].at || seen[i].key != seen[j].key
  }

  /** Some maximal clock that is the last of its cache lies above `v`. */
  ghost predicate Surpassed(seen: seq<Located>, k: Key, v: Clock) {
    exists j :: LastMaximal(seen, j) && seen[j].key == k && Below(v, seen[j].clock)
  }

  /** Whatever lies just below a reported clock lies below a maximal clock that is the last of its cache. */
  ghost predicate Reliable(seen: seq<Located>) {
    forall i, n | 0 <= i < |seen| && n in seen[i].clock :: Surpassed(seen, seen[i].key, Lower(seen[i].clock, n))
  }

  lemma {:induction false} FrontierIsMaximal(seen: seq<Located>, frontier: map<Key, set<Clock>>, i: int)
    requires IsFrontier(seen, frontier) && 0 <= i < |seen|
    ensures OnFrontier(seen[i], frontier) <==> Maximal(seen, i)
  {
    assert seen[i].clock in ClocksOf(seen, seen[i].key);
  }

  lemma {:induction false} LastIsLastMaximal(seen: seq<Located>, frontier: map<Key, set<Clock>>, j: int)
    requires IsFrontier(seen, frontier) && 0 <= j < |seen|
    ensures IsLast(seen, frontier, seen[j].at, seen[j].key, j) <==> LastMaximal(seen, j)
  {
    forall i | 0 <= i < |seen| ensures OnFrontier(seen[i], frontier) <==> Maximal(seen, i) {
      FrontierIsMaximal(seen, frontier, i);
    }
    if LastMaximal(seen, j) {
      forall i | i > j ensures !Reports(seen, frontier, seen[j].at, seen[j].key, i) {}
    }
    if IsLast(seen, frontier, seen[j].at, seen[j].key, j) {
      forall i | j < i && Maximal(seen, i) ensures seen[i].at != seen[j].at || seen[i].key != seen[j].key {
        assert !Reports(seen, frontier, seen[j].at, seen[j].key, i);
      }
    }
  }

  /** What lies below a last maximal clock is recognised as older. */
  lemma {:induction false} SurpassedIsNewer(seen: seq<Located>, frontier: map<Key, set<Clock>>, before: Prior, k: Key, v: Clock)
    requires IsFrontier(seen, frontier) && Surpassed(seen, k, v)
    ensures SeenNewer(PriorOf(seen, frontier, before), k, v)
  {
    var j :| LastMaximal(seen, j) && seen[j].key == k && Below(v, seen[j].clock);
    LastIsLastMaximal(seen, frontier, j);
    PriorIsLast(seen, frontier, before, seen[j].at, k, j);
  }

  /** Nothing else is recognised, unless it was before. */
  lemma {:induction false} NewerIsSurpassed(seen: seq<Located>, frontier: map<Key, set<Clock>>, before: Prior, k: Key, v: Clock)
    requires IsFrontier(seen, frontier) && SeenNewer(PriorOf(seen, frontier, before), k, v)
    ensures Surpassed(seen, k, v) || SeenNewer(before, k, v)
  {
    var prior := PriorOf(seen, frontier, before);
    var a :| a in prior && k in prior[a] && Leq(v, prior[a][k]) && v != prior[a][k];
    if i :| Reports(seen, frontier, a, k, i) {
      var j := FindLast(seen, frontier, a, k, i);
      PriorIsLast(seen, frontier, before, a, k, j);
      LastIsLastMaximal(seen, frontier, j);
      assert Below(v, seen[j].clock);
    } else {
      PriorElsewhere(seen, frontier, before, a, k);
    }
  }

  /** Reads never go back behind anything a reliable report has seen, whatever was remembered before. */
  lemma {:induction false} ReadsNeverGoBack(seen: seq<Located>, frontier: map<Key, set<Clock>>, before: Prior)
    requires IsFrontier(seen, frontier) && Reliable(seen)
    ensures Guards(PriorOf(seen, frontier, before), seen)
  {
    GuardsIff(PriorOf(seen, frontier, before), seen);
    forall i, n | 0 <= i < |seen| && n in seen[i].clock
      ensures SeenNewer(PriorOf(seen, frontier, before), seen[i].key, Lower(seen[i].clock, n))
    {
      SurpassedIsNewer(seen, frontier, before, seen[i].key, Lower(seen[i].clock, n));
    }
  }

  /** When nothing was remembered before, exactly the reliable reports are guarded. */
  lemma {:induction false} GuardedIffReliable(seen: seq<Located>, frontier: map<Key, set<Clock>>)
    requires IsFrontier(seen, frontier)
    ensures Guards(PriorOf(seen, frontier, map[]), seen) <==> Reliable(seen)
  {
    var prior := PriorOf(seen, frontier, map[]);
    GuardsIff(prior, seen);
    forall i, n | 0 <= i < |seen| && n in seen[i].clock
      ensures SeenNewer(prior, seen[i].key, Lower(seen[i].clock, n)) <==>
              Surpassed(seen, seen[i].key, Lower(seen[i].clock, n))
    {
      var k, v := seen[i].key, Lower(seen[i].clock, n);
      if Surpassed(seen, k, v) { SurpassedIsNewer(seen, frontier, map[], k, v); }
      if SeenNewer(prior, k, v) { NewerIsSurpassed(seen, frontier, map[], k, v); }
    }
  }

  /** Per cache and key, at most one of the clocks that the client has seen is maximal. */
  ghost predicate OnePerCache(seen: seq<Located>) {
    forall i, j | Maximal(seen, i) && Maximal(seen, j) && seen[i].at == seen[j].at && seen[i].key == seen[j].key ::
      seen[i].clock == seen[j].clock
  }

  /** The last report of a maximal clock at the cache and for the key of report `i`. */
  lemma {:induction false} FindLastMaximal(seen: seq<Located>, i: int) returns (j: int)
    requires Maximal(seen, i)
    ensures LastMaximal(seen, j) && seen[j].at == seen[i].at && seen[j].key == seen[i].key
    decreases |seen| - i
  {
    if later :| i < later && Maximal(seen, later) && seen[later].at == seen[i].at && seen[later].key == seen[i].key {
      j := FindLastMaximal(seen, later);
    } else {
      j := i;
    }
  }

  /** Reports with one maximal clock per cache and key are reliable. */
  lemma OnePerCacheIsReliable(seen: seq<Located>)
    requires OnePerCache(seen)
    ensures Reliable(seen)
  {
    forall i, n | 0 <= i < |seen| && n in seen[i].clock ensures Surpassed(seen, seen[i].key, Lower(seen[i].clock, n)) {
      var k, c := seen[i].key, seen[i].clock;
      assert c in ClocksOf(seen, k);
      var m := BelowMaximal(ClocksOf(seen, k), c);
      var j :| 0 <= j < |seen| && seen[j].key == k && seen[j].clock == m;
      var last := FindLastMaximal(seen, j);
      BelowIsBelowLower(c, c);
      StrictlyBelow(Lower(c, n), c, m);
      assert seen[last].clock == m;
    }
  }

  lemma StrictlyBelow(a: Clock, b: Clock, c: Clock)
    requires Below(a, b) && Leq(b, c)
    ensures Below(a, c)
  {
    LeqTransitive(a, b, c);
    if a == c {
      LeqIsPointwise(a, b);
      LeqIsPointwise(b, c);
      Antisymmetry(a, b);
    }
  }

  /** Two concurrent clocks at one cache: the later one hides the earlier, and a read may go back behind that. */
  lemma {:induction false} ConcurrentAtOneCache(a: Address, k: Key, x: string, y: string, frontier: map<Key, set<Clock>>)
    requires x != y && IsFrontier(TwoAtOne(a, k, x, y), frontier)
    ensures var seen := TwoAtOne(a, k, x, y);
            var prior := PriorOf(seen, frontier, map[]);
            !SeenNewer(prior, k, map[x := 0]) && !NotOlderThan(seen, k, map[x := 0]) && !Guards(prior, seen)
  {
    var seen, v := TwoAtOne(a, k, x, y), map[x := 0];
    assert v[x] == 0 && seen[0].clock[x] == 1;
    assert Maximal(seen, 1) by {
      assert ClocksOf(seen, k) == {seen[0].clock, seen[1].clock};
      assert y in seen[1].clock && y !in seen[0].clock;
    }
    forall j | LastMaximal(seen, j) ensures !Below(v, seen[j].clock) {
      assert j == 1 && x in v && x !in seen[1].clock;
    }
    if SeenNewer(PriorOf(seen, frontier, map[]), k, v) {
      NewerIsSurpassed(seen, frontier, map[], k, v);
      assert false;
    }
  }

  function TwoAtOne(a: Address, k: Key, x: string, y: string): seq<Located> {
    [Located(a, k, map[x := 1]), Located(a, k, map[y := 1])]
  }

  /** The keys that a report names without a version: all its clocks for them are empty. */
  function Nameless(seen: seq<Located>): set<Key> {
    set i | 0 <= i < |seen| && ClocksOf(seen, seen[i].key) == {map[]} :: seen[i].key
  }

  /** A key that is reported with a version is remembered with one, at some cache. */
  lemma {:induction false} NamedIsRemembered(seen: seq<Located>, frontier: map<Key, set<Clock>>, before: Prior, i: int)
    requires IsFrontier(seen, frontier) && 0 <= i < |seen| && seen[i].key !in Nameless(seen)
    ensures SeenNewer(PriorOf(seen, frontier, before), seen[i].key, map[])
  {
    var k := seen[i].key;
    var clocks := ClocksOf(seen, k);
    assert seen[i].clock in clocks;
    var c: Clock :| c in clocks && c != map[];
    var m := BelowMaximal(clocks, c);
    NotEmptyAbove(c, m);
    var j :| 0 <= j < |seen| && seen[j].key == k && seen[j].clock == m;
    var last := FindLastMaximal(seen, j);
    assert Below(map[], seen[last].clock);
    SurpassedIsNewer(seen, frontier, before, k, map[]);
  }

  /** When nothing was remembered before, exactly the keys reported with a version are. */
  lemma {:induction false} RememberedIffNamed(seen: seq<Located>, frontier: map<Key, set<Clock>>, k: Key)
    requires IsFrontier(seen, frontier)
    ensures SeenNewer(PriorOf(seen, frontier, map[]), k, map[]) <==>
            k !in Nameless(seen) && exists i :: 0 <= i < |seen| && seen[i].key == k
  {
    if SeenNewer(PriorOf(seen, frontier, map[]), k, map[]) {
      NewerIsSurpassed(seen, frontier, map[], k, map[]);
      var j :| LastMaximal(seen, j) && seen[j].key == k && Below(map[], seen[j].clock);
      assert seen[j].clock in ClocksOf(seen, k);
    }
    if i :| 0 <= i < |seen| && seen[i].key == k && k !in Nameless(seen) {
      NamedIsRemembered(seen, frontier, map[], i);
    }
  }

  /** Condenses what the client has seen into the keys of the frontier and the versions to compare with. */
  method Condense(seen: seq<Located>, before: Prior) returns (keys: set<Key>, prior: Prior)
    ensures keys == set i | 0 <= i < |seen| :: seen[i].key
    ensures Reliable(seen) ==> Guards(prior, seen)
    ensures before == map[] && Guards(prior, seen) ==> Reliable(seen)
    ensures forall k | k in keys && k !in Nameless(seen) :: SeenNewer(prior, k, map[])
    ensures forall k, v :: Surpassed(seen, k, v) ==> SeenNewer(prior, k, v)
    ensures forall k, v :: SeenNewer(prior, k, v) ==> Surpassed(seen, k, v) || SeenNewer(before, k, v)
  {
    var frontier := BuildFrontier(seen);
    keys := frontier.Keys;
    forall i | 0 <= i < |seen| ensures seen[i].key in keys {
      assert seen[i].clock in ClocksOf(seen, seen[i].key);
    }
    prior := BuildPrior(seen, frontier, before);
    if Reliable(seen) {
      ReadsNeverGoBack(seen, frontier, before);
    }
    GuardedIffReliable(seen, frontier);
    forall i | 0 <= i < |seen| && seen[i].key !in Nameless(seen) ensures SeenNewer(prior, seen[i].key, map[]) {
      NamedIsRemembered(seen, frontier, before, i);
    }
    forall k, v | Surpassed(seen, k, v) ensures SeenNewer(prior, k, v) {
      SurpassedIsNewer(seen, frontier, before, k, v);
    }
    forall k, v | SeenNewer(prior, k, v) ensures Surpassed(seen, k, v) || SeenNewer(before, k, v) {
      NewerIsSurpassed(seen, frontier, before, k, v);
    }
  }
}
