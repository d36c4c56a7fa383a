/**
  The value-level model of the causal cache: its stores, what it means for a
  chain under preparation to be supported, and how one dependency check may
  change the chains.  Every bound on a clock is stated component by component.
 */
module CacheModel {
  import opened Clocks
  import opened CausalLattices

  type Address = string
  type Store = map<Key, CrossCausal>
  type FetchMap = map<Key, set<Key>>
  type CoverMap = map<Key, map<Clock, set<Key>>>

  /** A chain: the clients waiting for its head key, and the versions gathered so far. */
  datatype Chain = Chain(waiting: set<Address>, entries: Store)

  /** The part of the cache that a dependency check works on. */
  datatype Work = Work(chains: map<Key, Chain>, fetch: FetchMap, cover: CoverMap)
  {
    function Entries(h: Key): Store { if h in chains then chains[h].entries else map[] }
    function Fetching(h: Key): set<Key> { if h in fetch then fetch[h] else {} }
  }

  /** One component of the clock stored for `k`; -1 when there is none. */
  function Tick(m: Store, k: Key, n: string): int {
    if k in m then At(m[k].clock, n) else -1
  }

  /** Head `h` waits for a version of `d` that reaches `v`. */
  predicate Awaits(cover: CoverMap, d: Key, v: Clock, h: Key) {
    d in cover && v in cover[d] && h in cover[d][v]
  }

  predicate PositiveDeps(l: CrossCausal) { forall d | d in l.deps :: l.deps[d] != map[] }

  predicate AllPositive(m: Store) { forall k | k in m :: PositiveDeps(m[k]) }

  ghost predicate Dominates(upper: Store, lower: Store) {
    forall k, n :: Tick(lower, k, n) <= Tick(upper, k, n)
  }

  // ---------------------------------------------------------------- merging

  /** Keeps the dominating version; merges concurrent ones into a fresh lattice. */
  function CausalMerge(lhs: CrossCausal, rhs: CrossCausal): CrossCausal {
    match Comparison(lhs.clock, rhs.clock)
    case GreaterOrEqual => lhs
    case Less => rhs
    case Concurrent => MergeInto(MergeInto(BOTTOM, lhs), rhs)
  }

  lemma CausalMergeIsJoin(lhs: CrossCausal, rhs: CrossCausal)
    ensures CausalMerge(lhs, rhs).clock == Join(lhs.clock, rhs.clock)
    ensures forall d, n :: DepTick(CausalMerge(lhs, rhs), d, n) <= Max(DepTick(lhs, d, n), DepTick(rhs, d, n))
    ensures PositiveDeps(lhs) && PositiveDeps(rhs) ==> PositiveDeps(CausalMerge(lhs, rhs))
    ensures CausalMerge(lhs, rhs).value <= lhs.value + rhs.value
    ensures Comparison(lhs.clock, rhs.clock) == Concurrent ==> CausalMerge(lhs, rhs).value == lhs.value + rhs.value
    ensures lhs.clock != rhs.clock ==> CausalMerge(lhs, rhs) == MergeInto(lhs, rhs)
    ensures lhs.clock == rhs.clock ==> CausalMerge(lhs, rhs) == lhs
  {
    JoinIsLeastUpperBound(lhs.clock, rhs.clock, lhs.clock);
    if Comparison(lhs.clock, rhs.clock) == Concurrent {
      MergeIntoCases(BOTTOM, lhs);
      assert MergeInto(BOTTOM, lhs) == lhs;
      MergeIntoCases(lhs, rhs);
      JoinDepsTicks(lhs, rhs, MergeInto(lhs, rhs));
    }
  }

  // ------------------------------------------------------------- support

  /** The bound `i` on component `n` of key `d` is reached by the cut, by chain `h`, or by a fetch of `h`. */
  ghost predicate Met(cut: Store, w: Work, h: Key, d: Key, n: string, i: int) {
    || i <= Tick(cut, d, n)
    || i <= Tick(w.Entries(h), d, n)
    || exists v :: Awaits(w.cover, d, v, h) && i <= At(v, n)
  }

  ghost predicate Supported(cut: Store, w: Work, h: Key, l: CrossCausal) {
    forall d, n :: Met(cut, w, h, d, n, DepTick(l, d, n))
  }

  /** Every dependency of every version in chain `h` is met; `except` is a key whose version is still to be checked. */
  ghost predicate ChainSupported(cut: Store, w: Work, h: Key, except: set<Key>) {
    forall k | k in w.Entries(h) && k !in except :: Supported(cut, w, h, w.Entries(h)[k])
  }

  /** Nothing about chain `h` changed. */
  ghost predicate SameFor(h: Key, w: Work, w': Work) {
    && (h in w.chains <==> h in w'.chains) && (h in w.chains ==> w'.chains[h] == w.chains[h])
    && (h in w.fetch <==> h in w'.fetch) && (h in w.fetch ==> w'.fetch[h] == w.fetch[h])
    && (forall d, v :: Awaits(w'.cover, d, v, h) <==> Awaits(w.cover, d, v, h))
  }

  ghost predicate OthersSame(head: Key, w: Work, w': Work) {
    forall h | h != head :: SameFor(h, w, w')
  }

  ghost predicate HeadGrows(unmerged: Store, head: Key, w: Work, w': Work) {
    && (head in w.chains ==> head in w'.chains && w'.chains[head].waiting == w.chains[head].waiting)
    && (head in w'.chains && head !in w.chains ==> w'.chains[head].waiting == {})
    && (head in w.fetch ==> head in w'.fetch)
    && w.Entries(head).Keys <= w'.Entries(head).Keys
    && Dominates(w'.Entries(head), w.Entries(head))
    && w.Fetching(head) <= w'.Fetching(head)
    && (forall d, v | Awaits(w.cover, d, v, head) :: Awaits(w'.cover, d, v, head))
    && (forall d, v | Awaits(w'.cover, d, v, head) && !Awaits(w.cover, d, v, head) ::
          NewFetch(unmerged, head, d, v, w'))
    && (forall d | d in w'.Fetching(head) && d !in w.Fetching(head) ::
          exists v :: Awaits(w'.cover, d, v, head) && NewFetch(unmerged, head, d, v, w'))
  }

  /** A version is only fetched when the store of unmerged versions cannot supply it. */
  ghost predicate NewFetch(unmerged: Store, head: Key, d: Key, v: Clock, w: Work) {
    d in w.Fetching(head) && v != map[] && !Supplies(unmerged, d, v)
  }

  predicate Supplies(m: Store, d: Key, v: Clock) {
    d in m && Leq(v, m[d].clock)
  }

  ghost predicate Grows(unmerged: Store, head: Key, w: Work, w': Work) {
    OthersSame(head, w, w') && HeadGrows(unmerged, head, w, w')
  }

  /** Dependencies in the chain are old ones, or are met. */
  ghost predicate DepsMet(cut: Store, head: Key, w: Work, w': Work) {
    forall k, d, n | k in w'.Entries(head) :: DepMet(cut, head, w, w', k, d, n)
  }

  ghost predicate DepMet(cut: Store, head: Key, w: Work, w': Work, k: Key, d: Key, n: string)
    requires k in w'.Entries(head)
  {
    var i := DepTick(w'.Entries(head)[k], d, n);
    (k in w.Entries(head) && i <= DepTick(w.Entries(head)[k], d, n)) || Met(cut, w', head, d, n, i)
  }

  /** Only the head of a chain may turn out not to exist. */
  predicate OthersExist(entries: Store, head: Key) {
    forall k | k in entries && k != head :: entries[k].clock != map[]
  }

  /** Chains hold nothing newer than the unmerged store, and nothing but the head that does not exist. */
  ghost predicate ChainsBelow(unmerged: Store, w: Work) {
    forall h | h in w.chains ::
      Dominates(unmerged, w.Entries(h)) && AllPositive(w.Entries(h)) && OthersExist(w.Entries(h), h)
  }

  /** What one dependency check for `head` may do to the chains. */
  ghost predicate Checked(cut: Store, unmerged: Store, head: Key, w: Work, w': Work) {
    Grows(unmerged, head, w, w') && DepsMet(cut, head, w, w') && ChainsBelow(unmerged, w')
  }

  /** The dependencies of `l` outside `todo` are met. */
  ghost predicate SupportedExcept(cut: Store, w: Work, h: Key, l: CrossCausal, todo: set<Key>) {
    forall d, n | d !in todo :: Met(cut, w, h, d, n, DepTick(l, d, n))
  }

  lemma MetGrows(cut: Store, unmerged: Store, head: Key, w: Work, w': Work, d: Key, n: string, i: int)
    requires HeadGrows(unmerged, head, w, w') && Met(cut, w, head, d, n, i)
    ensures Met(cut, w', head, d, n, i)
  {
  }

  lemma GrowsTransitive(unmerged: Store, head: Key, a: Work, b: Work, c: Work)
    requires Grows(unmerged, head, a, b) && Grows(unmerged, head, b, c)
    ensures Grows(unmerged, head, a, c)
  {
    OthersSameTransitive(head, a, b, c);
    HeadGrowsTransitive(unmerged, head, a, b, c);
  }

  lemma OthersSameTransitive(head: Key, a: Work, b: Work, c: Work)
    requires OthersSame(head, a, b) && OthersSame(head, b, c)
    ensures OthersSame(head, a, c)
  {
    forall h | h != head ensures SameFor(h, a, c) {
      assert SameFor(h, a, b) && SameFor(h, b, c);
    }
  }

  lemma HeadGrowsTransitive(unmerged: Store, head: Key, a: Work, b: Work, c: Work)
    requires HeadGrows(unmerged, head, a, b) && HeadGrows(unmerged, head, b, c)
    ensures HeadGrows(unmerged, head, a, c)
  {
    forall k, n ensures Tick(a.Entries(head), k, n) <= Tick(c.Entries(head), k, n) {
      assert Tick(a.Entries(head), k, n) <= Tick(b.Entries(head), k, n) <= Tick(c.Entries(head), k, n);
    }
    forall d | d in c.Fetching(head) && d !in a.Fetching(head)
      ensures exists v :: Awaits(c.cover, d, v, head) && NewFetch(unmerged, head, d, v, c)
    {
      if d in b.Fetching(head) {
        var v :| Awaits(b.cover, d, v, head) && NewFetch(unmerged, head, d, v, b);
        assert Awaits(c.cover, d, v, head) && NewFetch(unmerged, head, d, v, c);
      }
    }
    forall d, v | Awaits(c.cover, d, v, head) && !Awaits(a.cover, d, v, head)
      ensures NewFetch(unmerged, head, d, v, c)
    {
      if Awaits(b.cover, d, v, head) {
        assert NewFetch(unmerged, head, d, v, b);
      }
    }
  }

  lemma DepsMetTransitive(cut: Store, unmerged: Store, head: Key, a: Work, b: Work, c: Work)
    requires HeadGrows(unmerged, head, b, c)
    requires DepsMet(cut, head, a, b) && DepsMet(cut, head, b, c)
    ensures DepsMet(cut, head, a, c)
  {
    forall k, d, n | k in c.Entries(head) ensures DepMet(cut, head, a, c, k, d, n) {
      assert DepMet(cut, head, b, c, k, d, n);
      var i := DepTick(c.Entries(head)[k], d, n);
      if k in b.Entries(head) && i <= DepTick(b.Entries(head)[k], d, n) {
        assert DepMet(cut, head, a, b, k, d, n);
        if Met(cut, b, head, d, n, DepTick(b.Entries(head)[k], d, n)) {
          MetGrows(cut, unmerged, head, b, c, d, n, DepTick(b.Entries(head)[k], d, n));
        }
      }
    }
  }

  lemma CheckedReflexive(cut: Store, unmerged: Store, head: Key, w: Work)
    requires ChainsBelow(unmerged, w)
    ensures Checked(cut, unmerged, head, w, w)
  {
  }

  lemma CheckedTransitive(cut: Store, unmerged: Store, head: Key, a: Work, b: Work, c: Work)
    requires Checked(cut, unmerged, head, a, b) && Checked(cut, unmerged, head, b, c)
    ensures Checked(cut, unmerged, head, a, c)
  {
    GrowsTransitive(unmerged, head, a, b, c);
    DepsMetTransitive(cut, unmerged, head, a, b, c);
  }

  /** Checking one more dependency of `l`. */
  lemma OneMoreSupported(cut: Store, unmerged: Store, head: Key, w0: Work, w: Work, w': Work, l: CrossCausal,
                         todo: set<Key>, dep: Key)
    requires Checked(cut, unmerged, head, w0, w) && Checked(cut, unmerged, head, w, w')
    requires SupportedExcept(cut, w, head, l, todo)
    requires dep in l.deps && forall n :: Met(cut, w', head, dep, n, At(l.deps[dep], n))
    ensures Checked(cut, unmerged, head, w0, w')
    ensures SupportedExcept(cut, w', head, l, todo - {dep})
  {
    CheckedTransitive(cut, unmerged, head, w0, w, w');
    forall d, n | d !in todo - {dep} ensures Met(cut, w', head, d, n, DepTick(l, d, n)) {
      if d != dep {
        MetGrows(cut, unmerged, head, w, w', d, n, DepTick(l, d, n));
      }
    }
  }

  // ------------------------------------------------------------ populating

  /** Raises the version of `dep` in a chain to include `l`. */
  function Populated(entries: Store, dep: Key, l: CrossCausal): Store {
    if dep in entries then entries[dep := CausalMerge(entries[dep], l)] else entries[dep := l]
  }

  /** The store after a sequence of versions. */
  function PopulatedAll(entries: Store, tuples: seq<(Key, CrossCausal)>): Store {
    if tuples == [] then entries
    else
      var (key, l) := tuples[|tuples| - 1];
      Populated(PopulatedAll(entries, tuples[..|tuples| - 1]), key, l)
  }

  /** What is sent on for a sequence of versions: the merged version at that time. */
  function SentOn(entries: Store, tuples: seq<(Key, CrossCausal)>): seq<(Key, CrossCausal)> {
    if tuples == [] then []
    else
      var key := tuples[|tuples| - 1].0;
      SentOn(entries, tuples[..|tuples| - 1]) + [(key, PopulatedAll(entries, tuples)[key])]
  }

  function WithEntries(w: Work, head: Key, entries: Store): Work {
    w.(chains := w.chains[head := Chain(if head in w.chains then w.chains[head].waiting else {}, entries)])
  }

  lemma PopulatedTicks(entries: Store, dep: Key, l: CrossCausal)
    ensures forall k, n :: Tick(Populated(entries, dep, l), k, n) ==
                           if k == dep then Max(Tick(entries, k, n), At(l.clock, n)) else Tick(entries, k, n)
    ensures AllPositive(entries) && PositiveDeps(l) ==> AllPositive(Populated(entries, dep, l))
  {
    if dep in entries { CausalMergeIsJoin(entries[dep], l); }
  }

  lemma PopulateGrows(unmerged: Store, w: Work, head: Key, dep: Key, l: CrossCausal)
    requires Dominates(unmerged, w.Entries(head)) && (forall n :: At(l.clock, n) <= Tick(unmerged, dep, n))
    ensures Grows(unmerged, head, w, WithEntries(w, head, Populated(w.Entries(head), dep, l)))
    ensures Dominates(unmerged, Populated(w.Entries(head), dep, l))
  {
    PopulatedTicks(w.Entries(head), dep, l);
  }

  /** A version that exists leaves nothing in the chain that does not. */
  lemma PopulatedExist(entries: Store, head: Key, dep: Key, l: CrossCausal)
    requires OthersExist(entries, head) && l.clock != map[]
    ensures OthersExist(Populated(entries, dep, l), head)
  {
    if dep in entries {
      CausalMergeIsJoin(entries[dep], l);
      var n :| n in l.clock;
      assert n in Populated(entries, dep, l)[dep].clock;
    }
  }

  lemma PopulateStaysBelow(unmerged: Store, w: Work, head: Key, dep: Key, l: CrossCausal)
    requires ChainsBelow(unmerged, w) && PositiveDeps(l) && l.clock != map[]
    requires forall n :: At(l.clock, n) <= Tick(unmerged, dep, n)
    ensures Dominates(unmerged, w.Entries(head))
    ensures ChainsBelow(unmerged, WithEntries(w, head, Populated(w.Entries(head), dep, l)))
  {
    PopulatedTicks(w.Entries(head), dep, l);
    PopulateGrows(unmerged, w, head, dep, l);
    PopulatedExist(w.Entries(head), head, dep, l);
  }

  /** Populating a version and then checking it meets every dependency that the chain gained. */
  lemma PopulateThenCheck(cut: Store, unmerged: Store, w: Work, w2: Work, head: Key, dep: Key, l: CrossCausal)
    requires Dominates(unmerged, w.Entries(head)) && (forall n :: At(l.clock, n) <= Tick(unmerged, dep, n))
    requires Checked(cut, unmerged, head, WithEntries(w, head, Populated(w.Entries(head), dep, l)), w2)
    requires Supported(cut, w2, head, l)
    ensures Checked(cut, unmerged, head, w, w2)
    ensures forall n :: Met(cut, w2, head, dep, n, At(l.clock, n))
  {
    var e := w.Entries(head);
    var w1 := WithEntries(w, head, Populated(e, dep, l));
    PopulateGrows(unmerged, w, head, dep, l);
    GrowsTransitive(unmerged, head, w, w1, w2);
    PopulatedTicks(e, dep, l);
    forall n ensures Met(cut, w2, head, dep, n, At(l.clock, n)) {
      MetGrows(cut, unmerged, head, w1, w2, dep, n, At(l.clock, n));
    }
    forall k, d, n | k in w2.Entries(head) ensures DepMet(cut, head, w, w2, k, d, n) {
      assert DepMet(cut, head, w1, w2, k, d, n);
      PopulatedDeps(e, dep, l, k, d, n);
      assert Met(cut, w2, head, d, n, DepTick(l, d, n));
    }
  }

  lemma PopulatedDeps(entries: Store, dep: Key, l: CrossCausal, k: Key, d: Key, n: string)
    ensures k in Populated(entries, dep, l) && k != dep ==> k in entries && Populated(entries, dep, l)[k] == entries[k]
    ensures k == dep ==> DepTick(Populated(entries, dep, l)[k], d, n) <=
                         Max(if k in entries then DepTick(entries[k], d, n) else -1, DepTick(l, d, n))
  {
    if dep in entries { CausalMergeIsJoin(entries[dep], l); }
  }

  // --------------------------------------------------------------- fetching

  function WithFetch(w: Work, head: Key, dep: Key, v: Clock): Work {
    var byClock := if dep in w.cover then w.cover[dep] else map[];
    var heads := if v in byClock then byClock[v] else {};
    w.(fetch := w.fetch[head := w.Fetching(head) + {dep}], cover := w.cover[dep := byClock[v := heads + {head}]])
  }

  lemma FetchGrows(cut: Store, unmerged: Store, w: Work, head: Key, dep: Key, v: Clock)
    requires v != map[] && !Supplies(unmerged, dep, v) && ChainsBelow(unmerged, w)
    ensures Checked(cut, unmerged, head, w, WithFetch(w, head, dep, v))
    ensures forall n :: Met(cut, WithFetch(w, head, dep, v), head, dep, n, At(v, n))
  {
    var w' := WithFetch(w, head, dep, v);
    FetchAwaits(w, head, dep, v);
    assert Awaits(w'.cover, dep, v, head) && NewFetch(unmerged, head, dep, v, w');
  }

  lemma FetchAwaits(w: Work, head: Key, dep: Key, v: Clock)
    ensures forall d, u, h :: Awaits(WithFetch(w, head, dep, v).cover, d, u, h) <==>
                              Awaits(w.cover, d, u, h) || (d == dep && u == v && h == head)
  {
  }

  // ------------------------------------------------------------ termination

  /** The clock components that the chain could still gain; every recursive check starts with fewer. */
  ghost function Missing(unmerged: Store, entries: Store): set<(Key, string, int)> {
    set k, n, i | k in unmerged && n in unmerged[k].clock && 0 <= i <= unmerged[k].clock[n] && Tick(entries, k, n) < i
      :: (k, n, i)
  }

  lemma MissingShrinks(unmerged: Store, e: Store, e': Store)
    requires Dominates(e', e)
    ensures Missing(unmerged, e') <= Missing(unmerged, e)
  {
  }

  lemma MissingShrinksStrictly(unmerged: Store, e: Store, e': Store, k: Key, n: string)
    requires Dominates(e', e) && Dominates(unmerged, e')
    requires Tick(e, k, n) < Tick(e', k, n)
    ensures Missing(unmerged, e') < Missing(unmerged, e)
  {
    MissingShrinks(unmerged, e, e');
    var i := Tick(e', k, n);
    assert i <= Tick(unmerged, k, n);
    assert (k, n, i) in Missing(unmerged, e) && (k, n, i) !in Missing(unmerged, e');
  }

  lemma PopulateMakesProgress(unmerged: Store, entries: Store, dep: Key, l: CrossCausal, v: Clock)
    requires Dominates(unmerged, entries) && (forall n :: At(l.clock, n) <= Tick(unmerged, dep, n))
    requires v != map[] && Leq(v, l.clock)
    requires dep !in entries || !Leq(l.clock, entries[dep].clock)
    ensures Missing(unmerged, Populated(entries, dep, l)) < Missing(unmerged, entries)
  {
    PopulatedTicks(entries, dep, l);
    var n :| n in l.clock && Tick(entries, dep, n) < At(l.clock, n) by {
      if dep in entries {
        LeqIsPointwise(l.clock, entries[dep].clock);
        var m :| At(l.clock, m) > At(entries[dep].clock, m);
      } else {
        var m :| m in v;
        assert m in l.clock;
      }
    }
    MissingShrinksStrictly(unmerged, entries, Populated(entries, dep, l), dep, n);
  }

  // ------------------------------------------------------------ requests in flight

  /** The heads whose first version has not arrived. */
  function Unstarted(chains: map<Key, Chain>): set<Key> {
    set h | h in chains && chains[h].entries == map[]
  }

  /** What is newly waited for has been asked of the key-value store. */
  ghost predicate Asks(w: Work, asked: set<Key>, w': Work, asked': set<Key>) {
    asked <= asked' && w'.cover.Keys <= w.cover.Keys + asked' && Unstarted(w'.chains) <= Unstarted(w.chains) + asked'
  }

  lemma AsksTransitive(w: Work, asked: set<Key>, w1: Work, asked1: set<Key>, w2: Work, asked2: set<Key>)
    requires Asks(w, asked, w1, asked1) && Asks(w1, asked1, w2, asked2)
    ensures Asks(w, asked, w2, asked2)
  {
  }

  /** The same, while nothing that is waited for is given up. */
  ghost predicate AsksMore(w: Work, asked: set<Key>, w': Work, asked': set<Key>) {
    Asks(w, asked, w', asked') && w.cover.Keys <= w'.cover.Keys
  }

  lemma AsksMoreTransitive(w: Work, asked: set<Key>, w1: Work, asked1: set<Key>, w2: Work, asked2: set<Key>)
    requires AsksMore(w, asked, w1, asked1) && AsksMore(w1, asked1, w2, asked2)
    ensures AsksMore(w, asked, w2, asked2)
  {
  }

  lemma PopulateAsks(w: Work, head: Key, entries: Store, asked: set<Key>)
    requires entries != map[]
    ensures AsksMore(w, asked, WithEntries(w, head, entries), asked)
  {
  }

  /** Populating a version at hand leaves less to gain, and asks for nothing. */
  lemma PopulateReady(unmerged: Store, w: Work, head: Key, dep: Key, l: CrossCausal, v: Clock, asked: set<Key>)
    requires v != map[] && Leq(v, l.clock) && PositiveDeps(l) && ChainsBelow(unmerged, w)
    requires forall n :: At(l.clock, n) <= Tick(unmerged, dep, n)
    requires !(dep in w.Entries(head) && Leq(l.clock, w.Entries(head)[dep].clock))
    ensures var w' := WithEntries(w, head, Populated(w.Entries(head), dep, l));
            && ChainsBelow(unmerged, w') && AsksMore(w, asked, w', asked)
            && Missing(unmerged, w'.Entries(head)) < Missing(unmerged, w.Entries(head))
    ensures Dominates(unmerged, w.Entries(head))
  {
    NotEmptyAbove(v, l.clock);
    PopulateStaysBelow(unmerged, w, head, dep, l);
    PopulateMakesProgress(unmerged, w.Entries(head), dep, l, v);
    PopulateAsks(w, head, Populated(w.Entries(head), dep, l), asked);
  }

  // ------------------------------------------------------- nothing left to fetch

  /** The cut reaches `v`, or `d` is one of `ks` and the unmerged store does. */
  ghost predicate AtHand(cut: Store, unmerged: Store, ks: set<Key>, d: Key, v: Clock) {
    Supplies(cut, d, v) || (d in ks && Supplies(unmerged, d, v))
  }

  ghost predicate DepsAtHand(cut: Store, unmerged: Store, ks: set<Key>, l: CrossCausal) {
    forall d | d in l.deps :: AtHand(cut, unmerged, ks, d, l.deps[d])
  }

  /** All versions of the keys in `ks`, in the unmerged store and in chains, depend on what is at hand. */
  ghost predicate AllAtHand(cut: Store, unmerged: Store, chains: map<Key, Chain>, ks: set<Key>) {
    && (forall k | k in ks && k in unmerged :: DepsAtHand(cut, unmerged, ks, unmerged[k]))
    && (forall h, k | h in chains && k in ks && k in chains[h].entries :: DepsAtHand(cut, unmerged, ks, chains[h].entries[k]))
  }

  /** All that versions of `key` depend on, and that those depend on, is at hand. */
  ghost predicate Obtainable(cut: Store, unmerged: Store, chains: map<Key, Chain>, key: Key) {
    exists ks :: key in ks && AllAtHand(cut, unmerged, chains, ks)
  }

  /** When `ready`, nothing is fetched, and everything stays at hand. */
  ghost predicate Undisturbed(cut: Store, unmerged: Store, ks: set<Key>, ready: bool, w: Work, asked: set<Key>,
                              w': Work, asked': set<Key>) {
    Dominates(unmerged, cut) && AllAtHand(cut, unmerged, w.chains, ks) && ready ==>
      w'.fetch == w.fetch && w'.cover == w.cover && asked' == asked && AllAtHand(cut, unmerged, w'.chains, ks)
  }

  lemma UndisturbedTwice(cut: Store, unmerged: Store, ks: set<Key>, ready: bool, a: Work, asked: set<Key>, b: Work,
                         asked1: set<Key>, c: Work, asked2: set<Key>)
    requires Undisturbed(cut, unmerged, ks, ready, a, asked, b, asked1)
    requires Undisturbed(cut, unmerged, ks, ready, b, asked1, c, asked2)
    ensures Undisturbed(cut, unmerged, ks, ready, a, asked, c, asked2)
  {
  }

  lemma JoinAtHand(cut: Store, unmerged: Store, ks: set<Key>, d: Key, u: Clock, v: Clock)
    requires Dominates(unmerged, cut) && AtHand(cut, unmerged, ks, d, u) && AtHand(cut, unmerged, ks, d, v)
    ensures AtHand(cut, unmerged, ks, d, Join(u, v))
  {
    if d in ks && d in unmerged {
      forall n ensures At(u, n) <= At(unmerged[d].clock, n) && At(v, n) <= At(unmerged[d].clock, n) {
        assert Tick(cut, d, n) <= Tick(unmerged, d, n);
      }
      LeqIsPointwise(Join(u, v), unmerged[d].clock);
    } else {
      JoinIsLeastUpperBound(u, v, cut[d].clock);
    }
  }

  lemma MergeAtHand(cut: Store, unmerged: Store, ks: set<Key>, a: CrossCausal, b: CrossCausal)
    requires Dominates(unmerged, cut) && DepsAtHand(cut, unmerged, ks, a) && DepsAtHand(cut, unmerged, ks, b)
    ensures DepsAtHand(cut, unmerged, ks, CausalMerge(a, b))
  {
    if Comparison(a.clock, b.clock) == Concurrent {
      MergeIntoCases(BOTTOM, a);
      MergeIntoCases(a, b);
      forall d | d in JoinDeps(a.deps, b.deps) ensures AtHand(cut, unmerged, ks, d, JoinDeps(a.deps, b.deps)[d]) {
        if d in a.deps && d in b.deps {
          JoinAtHand(cut, unmerged, ks, d, a.deps[d], b.deps[d]);
        }
      }
    }
  }

  lemma PopulatedAtHand(cut: Store, unmerged: Store, ks: set<Key>, w: Work, head: Key, dep: Key, l: CrossCausal)
    requires Dominates(unmerged, cut) && AllAtHand(cut, unmerged, w.chains, ks) && DepsAtHand(cut, unmerged, ks, l)
    ensures AllAtHand(cut, unmerged, WithEntries(w, head, Populated(w.Entries(head), dep, l)).chains, ks)
  {
    var e := w.Entries(head);
    if dep in ks && dep in e {
      MergeAtHand(cut, unmerged, ks, e[dep], l);
    }
  }

  /** Populating a version that depends on what is at hand fetches nothing. */
  lemma PopulateUndisturbed(cut: Store, unmerged: Store, ks: set<Key>, w: Work, head: Key, dep: Key, l: CrossCausal,
                            asked: set<Key>, w': Work, asked': set<Key>)
    requires Undisturbed(cut, unmerged, ks, DepsAtHand(cut, unmerged, ks, l),
                         WithEntries(w, head, Populated(w.Entries(head), dep, l)), asked, w', asked')
    ensures Undisturbed(cut, unmerged, ks, DepsAtHand(cut, unmerged, ks, l), w, asked, w', asked')
  {
    if Dominates(unmerged, cut) && AllAtHand(cut, unmerged, w.chains, ks) && DepsAtHand(cut, unmerged, ks, l) {
      PopulatedAtHand(cut, unmerged, ks, w, head, dep, l);
    }
  }

  /** A version `l` that reaches `v` has been populated into the chain of `head` and then checked. */
  lemma PopulatedAndChecked(cut: Store, unmerged: Store, w: Work, w': Work, head: Key, dep: Key, v: Clock, l: CrossCausal,
                            asked: set<Key>, asked': set<Key>, ks: set<Key>)
    requires Leq(v, l.clock)
    requires Dominates(unmerged, w.Entries(head)) && (forall n :: At(l.clock, n) <= Tick(unmerged, dep, n))
    requires var w1 := WithEntries(w, head, Populated(w.Entries(head), dep, l));
             && AsksMore(w, asked, w1, asked) && AsksMore(w1, asked, w', asked') && Checked(cut, unmerged, head, w1, w')
             && Undisturbed(cut, unmerged, ks, DepsAtHand(cut, unmerged, ks, l), w1, asked, w', asked')
    requires Supported(cut, w', head, l)
    ensures Checked(cut, unmerged, head, w, w') && AsksMore(w, asked, w', asked')
    ensures forall n :: Met(cut, w', head, dep, n, At(v, n))
    ensures Undisturbed(cut, unmerged, ks, DepsAtHand(cut, unmerged, ks, l), w, asked, w', asked')
  {
    var w1 := WithEntries(w, head, Populated(w.Entries(head), dep, l));
    PopulateUndisturbed(cut, unmerged, ks, w, head, dep, l, asked, w', asked');
    AsksMoreTransitive(w, asked, w1, asked, w', asked');
    PopulateThenCheck(cut, unmerged, w, w', head, dep, l);
    LeqIsPointwise(v, l.clock);
    forall n ensures Met(cut, w', head, dep, n, At(v, n)) {
      assert Met(cut, w', head, dep, n, At(l.clock, n));
    }
  }

  /** Nothing is fetched for `head`, and everything that version `l` depends on is at hand. */
  ghost predicate Attainable(cut: Store, unmerged: Store, w: Work, ks: set<Key>, head: Key, l: CrossCausal) {
    w.Fetching(head) == {} && AllAtHand(cut, unmerged, w.chains, ks) && DepsAtHand(cut, unmerged, ks, l)
  }

  lemma FirstIsAttainable(cut: Store, unmerged: Store, w: Work, ks: set<Key>, key: Key, l: CrossCausal)
    requires Dominates(unmerged, cut) && w.Entries(key) == map[]
    ensures Attainable(cut, unmerged, w, ks, key, l) ==>
              Attainable(cut, unmerged, WithEntries(w, key, map[key := l]), ks, key, l)
  {
    if Attainable(cut, unmerged, w, ks, key, l) {
      PopulatedAtHand(cut, unmerged, ks, w, key, key, l);
    }
  }

  /** A version that is neither in the cut nor at hand is fetched. */
  lemma FetchIsChecked(cut: Store, unmerged: Store, w: Work, head: Key, dep: Key, v: Clock, asked: set<Key>, ks: set<Key>)
    requires v != map[] && !Supplies(cut, dep, v) && !Supplies(unmerged, dep, v) && ChainsBelow(unmerged, w)
    ensures var w' := WithFetch(w, head, dep, v);
            && Checked(cut, unmerged, head, w, w') && AsksMore(w, asked, w', asked + {dep})
            && (forall n :: Met(cut, w', head, dep, n, At(v, n)))
            && Undisturbed(cut, unmerged, ks, AtHand(cut, unmerged, ks, dep, v), w, asked, w', asked + {dep})
  {
    FetchGrows(cut, unmerged, w, head, dep, v);
  }
}
