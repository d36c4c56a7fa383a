/**
  What holds of the cache between messages, and why each handler keeps it:
  the cut is causally closed, every chain is supported, and the fetch map
  and the cover map describe the same outstanding fetches.
 */
module CacheInvariants {
  import opened Clocks
  import opened CausalLattices
  import opened CacheModel

  // ------------------------------------------------------------ the causal cut

  /** Every dependency of every version in the cut is in the cut, at least as new. */
  ghost predicate Closed(cut: Store) {
    forall k, d | k in cut && d in cut[k].deps :: Supplies(cut, d, cut[k].deps[d])
  }

  /** All dependencies of `l` are in the cut. */
  ghost predicate SatisfiedBy(cut: Store, l: CrossCausal) {
    forall d | d in l.deps :: Supplies(cut, d, l.deps[d])
  }

  ghost predicate DepsBelow(l: CrossCausal, m: Store) {
    forall d, n :: DepTick(l, d, n) <= Tick(m, d, n)
  }

  /** The dependencies of `l` that name no version name keys in the cut. */
  ghost predicate EmptyDepsPresent(l: CrossCausal, cut: Store) {
    forall d | d in l.deps && l.deps[d] == map[] :: d in cut
  }

  /** Clock components say all about a dependency, except that one without a version needs its key. */
  lemma SatisfiedIff(cut: Store, l: CrossCausal)
    ensures SatisfiedBy(cut, l) <==> DepsBelow(l, cut) && EmptyDepsPresent(l, cut)
  {
    if DepsBelow(l, cut) && EmptyDepsPresent(l, cut) {
      forall d | d in l.deps ensures Supplies(cut, d, l.deps[d]) {
        forall n ensures At(l.deps[d], n) <= Tick(cut, d, n) {
          assert DepTick(l, d, n) <= Tick(cut, d, n);
        }
        if l.deps[d] != map[] {
          var n :| n in l.deps[d];
          assert At(l.deps[d], n) <= Tick(cut, d, n);
        }
        LeqIsPointwise(l.deps[d], cut[d].clock);
      }
    }
    if SatisfiedBy(cut, l) {
      forall d, n ensures DepTick(l, d, n) <= Tick(cut, d, n) {
        if d in l.deps {
          assert Supplies(cut, d, l.deps[d]);
          LeqIsPointwise(l.deps[d], cut[d].clock);
        }
      }
      forall d | d in l.deps && l.deps[d] == map[] ensures d in cut {
        assert Supplies(cut, d, l.deps[d]);
      }
    }
  }

  lemma SatisfiedIsPointwise(cut: Store, l: CrossCausal)
    requires PositiveDeps(l)
    ensures SatisfiedBy(cut, l) <==> DepsBelow(l, cut)
  {
    SatisfiedIff(cut, l);
  }

  lemma ClosedIff(cut: Store)
    ensures Closed(cut) <==> forall k | k in cut :: DepsBelow(cut[k], cut) && EmptyDepsPresent(cut[k], cut)
  {
    forall k | k in cut ensures SatisfiedBy(cut, cut[k]) <==> DepsBelow(cut[k], cut) && EmptyDepsPresent(cut[k], cut) {
      SatisfiedIff(cut, cut[k]);
    }
    assert Closed(cut) <==> forall k | k in cut :: SatisfiedBy(cut, cut[k]);
  }

  /** The check of `l` for `head` has come from `w` to `w'`, with the dependencies in `todo` left. */
  ghost predicate Probing(cut: Store, unmerged: Store, head: Key, w: Work, asked: set<Key>, w': Work, asked': set<Key>,
                          l: CrossCausal, todo: set<Key>)
  {
    && Checked(cut, unmerged, head, w, w') && SupportedExcept(cut, w', head, l, todo)
    && AsksMore(w, asked, w', asked')
    && (SatisfiedBy(cut, l) ==> w' == w && asked' == asked)
  }

  lemma StartProbing(cut: Store, unmerged: Store, head: Key, w: Work, asked: set<Key>, l: CrossCausal)
    requires ChainsBelow(unmerged, w)
    ensures Probing(cut, unmerged, head, w, asked, w, asked, l, l.deps.Keys)
  {
  }

  lemma ProbeNext(cut: Store, unmerged: Store, head: Key, w0: Work, asked0: set<Key>, w: Work, asked: set<Key>,
                  w': Work, asked': set<Key>, l: CrossCausal, todo: set<Key>, dep: Key)
    requires Probing(cut, unmerged, head, w0, asked0, w, asked, l, todo) && dep in todo && dep in l.deps
    requires Checked(cut, unmerged, head, w, w') && AsksMore(w, asked, w', asked')
    requires forall n :: Met(cut, w', head, dep, n, At(l.deps[dep], n))
    requires Supplies(cut, dep, l.deps[dep]) ==> w' == w && asked' == asked
    ensures Probing(cut, unmerged, head, w0, asked0, w', asked', l, todo - {dep})
  {
    OneMoreSupported(cut, unmerged, head, w0, w, w', l, todo, dep);
    AsksMoreTransitive(w0, asked0, w, asked, w', asked');
  }

  /** Merging a chain: versions with an empty clock stand for missing keys and are skipped. */
  function MergedCut(cut: Store, entries: Store): Store {
    map k | k in cut.Keys + Live(entries) ::
      if k !in Live(entries) then cut[k] else if k !in cut then entries[k] else CausalMerge(cut[k], entries[k])
  }

  function Live(entries: Store): set<Key> { set k | k in entries && entries[k].clock != map[] }

  /** Merging one version. */
  function Absorb(cut: Store, k: Key, l: CrossCausal): Store {
    if l.clock == map[] then cut else if k in cut then cut[k := CausalMerge(cut[k], l)] else cut[k := l]
  }

  /** The cut after the versions of the keys in `done` have been merged. */
  function MergedSome(cut: Store, entries: Store, done: set<Key>): Store {
    map k | k in cut.Keys + Live(entries) * done ::
      if k !in Live(entries) * done then cut[k] else if k !in cut then entries[k] else CausalMerge(cut[k], entries[k])
  }

  lemma MergedOneMore(cut: Store, entries: Store, done: set<Key>, k: Key)
    requires k in entries && k !in done
    ensures Absorb(MergedSome(cut, entries, done), k, entries[k]) == MergedSome(cut, entries, done + {k})
  {
  }

  lemma MergedAll(cut: Store, entries: Store)
    ensures MergedSome(cut, entries, {}) == cut
    ensures MergedSome(cut, entries, entries.Keys) == MergedCut(cut, entries)
  {
  }

  lemma MergeNothing(cut: Store)
    ensures MergedCut(cut, map[]) == cut
  {
  }

  lemma MergedCutTicks(cut: Store, entries: Store)
    ensures forall k, n :: Tick(MergedCut(cut, entries), k, n) == Max(Tick(cut, k, n), Tick(entries, k, n))
    ensures AllPositive(cut) && AllPositive(entries) ==> AllPositive(MergedCut(cut, entries))
  {
    var r := MergedCut(cut, entries);
    forall k, n ensures Tick(r, k, n) == Max(Tick(cut, k, n), Tick(entries, k, n)) {
      if k in cut && k in entries { CausalMergeIsJoin(cut[k], entries[k]); }
    }
    forall k | k in r && AllPositive(cut) && AllPositive(entries) ensures PositiveDeps(r[k]) {
      if k in cut && k in entries { CausalMergeIsJoin(cut[k], entries[k]); }
    }
  }

  /** A complete chain leaves no dependency of the new cut below its clock. */
  lemma MergeKeepsDepsBelow(cut: Store, w: Work, h: Key, k: Key)
    requires Closed(cut) && ChainSupported(cut, w, h, {}) && k in MergedCut(cut, w.Entries(h))
    requires forall d, v :: !Awaits(w.cover, d, v, h)
    ensures DepsBelow(MergedCut(cut, w.Entries(h))[k], MergedCut(cut, w.Entries(h)))
  {
    var e := w.Entries(h);
    var r := MergedCut(cut, e);
    MergedCutTicks(cut, e);
    ClosedIff(cut);
    forall d, n ensures DepTick(r[k], d, n) <= Tick(r, d, n) {
      if k in cut { assert DepsBelow(cut[k], cut); assert DepTick(cut[k], d, n) <= Tick(cut, d, n); }
      if k in e { assert Supported(cut, w, h, e[k]); assert Met(cut, w, h, d, n, DepTick(e[k], d, n)); }
      if k in cut && k in e { CausalMergeIsJoin(cut[k], e[k]); }
    }
  }

  /** A complete chain leaves the cut closed exactly if the new cut's dependencies without a version name keys in it. */
  lemma MergeClosedIfPresent(cut: Store, w: Work, h: Key)
    requires Closed(cut) && ChainSupported(cut, w, h, {})
    requires forall d, v :: !Awaits(w.cover, d, v, h)
    ensures var r := MergedCut(cut, w.Entries(h));
            Closed(r) <==> forall k | k in r :: EmptyDepsPresent(r[k], r)
  {
    var r := MergedCut(cut, w.Entries(h));
    forall k | k in r ensures DepsBelow(r[k], r) {
      MergeKeepsDepsBelow(cut, w, h, k);
    }
    ClosedIff(r);
  }

  /** The version of `k` in the chain will enter the cut. */
  predicate Enters(cut: Store, entries: Store, k: Key) {
    k in Live(entries) && !(k in cut && Leq(entries[k].clock, cut[k].clock))
  }

  /** A version that enters the cut names, without a version, only keys that are in the cut or will be. */
  ghost predicate NamesPresent(cut: Store, entries: Store, k: Key)
    requires k in entries
  {
    forall d | d in entries[k].deps && entries[k].deps[d] == map[] :: d in cut || d in Live(entries)
  }

  /** What a merged version depends on without a version, by where the merged version comes from. */
  lemma MergedEmptyDeps(cut: Store, entries: Store, k: Key)
    requires Closed(cut) && k in MergedCut(cut, entries)
    ensures EmptyDepsPresent(MergedCut(cut, entries)[k], MergedCut(cut, entries)) <==>
            (Enters(cut, entries, k) ==> NamesPresent(cut, entries, k))
  {
    var r := MergedCut(cut, entries);
    if k in cut {
      forall d | d in cut[k].deps ensures d in cut {
        assert Supplies(cut, d, cut[k].deps[d]);
      }
    }
    if k in cut && k in entries && Comparison(cut[k].clock, entries[k].clock) == Concurrent {
      MergeIntoCases(BOTTOM, cut[k]);
      MergeIntoCases(cut[k], entries[k]);
      assert r[k].deps == JoinDeps(cut[k].deps, entries[k].deps);
    }
  }

  /**
    A complete chain merges into the cut without breaking closure if and only if every version
    that enters the cut names, without a version, only keys that are in the cut or will be.
   */
  lemma MergeClosedIff(cut: Store, w: Work, h: Key)
    requires Closed(cut) && ChainSupported(cut, w, h, {})
    requires forall d, v :: !Awaits(w.cover, d, v, h)
    ensures Closed(MergedCut(cut, w.Entries(h))) <==>
            forall k | k in w.Entries(h) && Enters(cut, w.Entries(h), k) :: NamesPresent(cut, w.Entries(h), k)
  {
    var r := MergedCut(cut, w.Entries(h));
    MergeClosedIfPresent(cut, w, h);
    forall k | k in r
      ensures EmptyDepsPresent(r[k], r) <==> (Enters(cut, w.Entries(h), k) ==> NamesPresent(cut, w.Entries(h), k))
    {
      MergedEmptyDeps(cut, w.Entries(h), k);
    }
    assert forall k | k in w.Entries(h) && Enters(cut, w.Entries(h), k) :: k in r;
  }

  /** The chain of a version that depends on `d` without naming a version, when `d` turned out not to exist. */
  function UnversionedChain(k: Key, d: Key, clock: Clock, value: set<string>): Work {
    Work(map[k := Chain({}, map[k := CrossCausal(clock, map[d := map[]], value), d := BOTTOM])], map[k := {}], map[])
  }

  /** That chain is complete, and merging it leaves a dependency outside of the cut. */
  lemma EmptyDependencyBreaksClosure(cut: Store, k: Key, d: Key, clock: Clock, value: set<string>)
    requires Closed(cut) && k != d && d !in cut && clock != map[] && !(k in cut && Leq(clock, cut[k].clock))
    ensures var w := UnversionedChain(k, d, clock, value);
            && ChainSupported(cut, w, k, {}) && (forall d, v :: !Awaits(w.cover, d, v, k))
            && !Closed(MergedCut(cut, w.Entries(k)))
  {
    var w := UnversionedChain(k, d, clock, value);
    var e := w.Entries(k);
    assert e.Keys == {k, d} && e[k].deps == map[d := map[]] && e[d] == BOTTOM;
    forall x | x in e && x !in {} ensures Supported(cut, w, k, e[x]) {
      forall y, n ensures Met(cut, w, k, y, n, DepTick(e[x], y, n)) {
        assert DepTick(e[x], y, n) == -1;
      }
    }
    MergeClosedIff(cut, w, k);
    assert Enters(cut, e, k) && !NamesPresent(cut, e, k);
  }

  /** A complete chain of versions whose dependencies all name versions merges into the cut without breaking closure. */
  lemma MergeKeepsClosed(cut: Store, w: Work, h: Key)
    requires Closed(cut) && AllPositive(cut) && AllPositive(w.Entries(h))
    requires ChainSupported(cut, w, h, {})
    requires forall d, v :: !Awaits(w.cover, d, v, h)
    ensures Closed(MergedCut(cut, w.Entries(h)))
    ensures AllPositive(MergedCut(cut, w.Entries(h)))
    ensures Dominates(MergedCut(cut, w.Entries(h)), cut)
  {
    MergedCutTicks(cut, w.Entries(h));
    MergeClosedIff(cut, w, h);
    forall k | k in w.Entries(h) ensures NamesPresent(cut, w.Entries(h), k) {
      assert PositiveDeps(w.Entries(h)[k]);
    }
  }

  /** What a merged chain supported is satisfied by the new cut. */
  lemma MergeSatisfies(cut: Store, w: Work, h: Key, l: CrossCausal)
    requires Supported(cut, w, h, l) && PositiveDeps(l)
    requires forall d, v :: !Awaits(w.cover, d, v, h)
    ensures SatisfiedBy(MergedCut(cut, w.Entries(h)), l)
  {
    var r := MergedCut(cut, w.Entries(h));
    MergedCutTicks(cut, w.Entries(h));
    forall d, n ensures DepTick(l, d, n) <= Tick(r, d, n) {
      assert Met(cut, w, h, d, n, DepTick(l, d, n));
    }
    SatisfiedIsPointwise(r, l);
  }

  lemma SatisfiedGrows(cut: Store, cut': Store, l: CrossCausal)
    requires SatisfiedBy(cut, l) && PositiveDeps(l) && Dominates(cut', cut)
    ensures SatisfiedBy(cut', l)
  {
    SatisfiedIsPointwise(cut, l);
    SatisfiedIsPointwise(cut', l);
    forall d, n ensures DepTick(l, d, n) <= Tick(cut', d, n) {
      assert DepTick(l, d, n) <= Tick(cut, d, n) <= Tick(cut', d, n);
    }
  }

  // ------------------------------------------------------------- chains at rest

  /** `d` is in the fetch set of `h` exactly when some clock awaited of `d` lists `h`. */
  ghost predicate Coupled(w: Work, h: Key) {
    forall d :: d in w.Fetching(h) <==> exists v :: Awaits(w.cover, d, v, h)
  }

  ghost predicate Shaped(w: Work, h: Key) {
    && (h in w.chains <==> h in w.fetch)
    && (w.Entries(h) == map[] ==> w.Fetching(h) == {})
    && (w.Entries(h) != map[] ==> h in w.Entries(h))
    && (forall d, v | Awaits(w.cover, d, v, h) :: v != map[])
  }

  /** Head `h` between messages: a chain that has started still lacks something. */
  ghost predicate Resting(cut: Store, w: Work, h: Key) {
    && Shaped(w, h)
    && Coupled(w, h)
    && ChainSupported(cut, w, h, {})
    && (w.Entries(h) != map[] ==> w.Fetching(h) != {})
  }

  /** Head `h` has just been given the version `l` of `key`, whose dependencies are still to be checked. */
  ghost predicate Given(cut: Store, w: Work, h: Key, key: Key, l: CrossCausal) {
    && Shaped(w, h)
    && Coupled(w, h)
    && ChainSupported(cut, w, h, {key})
    && key in w.Entries(h) && (w.Entries(h)[key] == l || Supported(cut, w, h, w.Entries(h)[key]))
    && (forall n :: At(l.clock, n) <= Tick(w.Entries(h), key, n))
  }

  lemma RestingSame(cut: Store, w: Work, w': Work, h: Key)
    requires SameFor(h, w, w') && Resting(cut, w, h)
    ensures Resting(cut, w', h)
  {
  }

  lemma GivenSame(cut: Store, w: Work, w': Work, h: Key, key: Key, l: CrossCausal)
    requires SameFor(h, w, w') && Given(cut, w, h, key, l)
    ensures Given(cut, w', h, key, l)
  {
    assert w'.Entries(h) == w.Entries(h) && w'.Fetching(h) == w.Fetching(h);
    SupportSame(cut, w, w', h, {key});
    if w.Entries(h)[key] != l { SupportSame(cut, w, w', h, {}); }
    CoupledSame(w, w', h);
  }

  lemma CoupledSame(w: Work, w': Work, h: Key)
    requires SameFor(h, w, w') && Coupled(w, h)
    ensures Coupled(w', h)
  {
    forall d ensures d in w'.Fetching(h) <==> exists v :: Awaits(w'.cover, d, v, h) {
      if d in w.Fetching(h) {
        var v :| Awaits(w.cover, d, v, h);
        assert Awaits(w'.cover, d, v, h);
      }
      if v :| Awaits(w'.cover, d, v, h) {
        assert Awaits(w.cover, d, v, h);
      }
    }
  }

  lemma SupportSame(cut: Store, w: Work, w': Work, h: Key, except: set<Key>)
    requires SameFor(h, w, w') && ChainSupported(cut, w, h, except)
    ensures ChainSupported(cut, w', h, except)
  {
  }

  lemma SupportWithLargerCut(cut: Store, cut': Store, w: Work, h: Key, except: set<Key>)
    requires ChainSupported(cut, w, h, except) && Dominates(cut', cut)
    ensures ChainSupported(cut', w, h, except)
  {
  }

  lemma CoupledGrows(unmerged: Store, w: Work, w': Work, head: Key)
    requires Grows(unmerged, head, w, w') && Coupled(w, head)
    ensures Coupled(w', head)
  {
  }

  /** After a check, the chain that was given a version is supported again. */
  lemma CheckedChain(cut: Store, unmerged: Store, w: Work, w': Work, h: Key, key: Key, l: CrossCausal)
    requires Given(cut, w, h, key, l)
    requires Checked(cut, unmerged, h, w, w') && Supported(cut, w', h, l)
    ensures Shaped(w', h) && Coupled(w', h) && ChainSupported(cut, w', h, {})
    ensures forall n :: At(l.clock, n) <= Tick(w'.Entries(h), key, n)
  {
    CoupledGrows(unmerged, w, w', h);
    forall n ensures At(l.clock, n) <= Tick(w'.Entries(h), key, n) {
      assert Tick(w.Entries(h), key, n) <= Tick(w'.Entries(h), key, n);
    }
    forall k | k in w'.Entries(h) ensures Supported(cut, w', h, w'.Entries(h)[k]) {
      var e := w'.Entries(h)[k];
      forall d, n ensures Met(cut, w', h, d, n, DepTick(e, d, n)) {
        assert DepMet(cut, h, w, w', k, d, n);
        if k == key && w.Entries(h)[key] == l {
          assert Met(cut, w', h, d, n, DepTick(l, d, n));
        } else if k in w.Entries(h) {
          assert Supported(cut, w, h, w.Entries(h)[k]);
          MetGrows(cut, unmerged, h, w, w', d, n, DepTick(w.Entries(h)[k], d, n));
        }
      }
    }
  }

  // -------------------------------------------------- answering awaited versions

  /** The cover map without the clocks of `key` that have been answered but not yet erased. */
  function Without(cover: CoverMap, key: Key, stale: set<Clock>): CoverMap {
    if stale == {} || key !in cover then cover else cover[key := cover[key] - stale]
  }

  function View(w: Work, key: Key, stale: set<Clock>): Work {
    w.(cover := Without(w.cover, key, stale))
  }

  lemma WithoutAwaits(cover: CoverMap, key: Key, stale: set<Clock>)
    ensures forall d, v, h :: Awaits(Without(cover, key, stale), d, v, h) <==>
                              Awaits(cover, d, v, h) && !(d == key && v in stale)
  {
  }

  lemma ViewMet(cut: Store, w: Work, h: Key, key: Key, stale: set<Clock>, d: Key, n: string, i: int)
    requires Met(cut, w, h, d, n, i)
    requires forall v | v in stale :: At(v, n) <= Tick(w.Entries(h), key, n)
    ensures Met(cut, View(w, key, stale), h, d, n, i)
  {
  }

  /** A check looks the same when answered clocks are left out of the cover map. */
  lemma ViewChecked(cut: Store, unmerged: Store, w: Work, w': Work, h: Key, key: Key, stale: set<Clock>, l: CrossCausal)
    requires Checked(cut, unmerged, h, w, w') && Supported(cut, w', h, l)
    requires forall v | v in stale :: Supplies(unmerged, key, v)
    requires forall v, n | v in stale :: At(v, n) <= Tick(w.Entries(h), key, n)
    ensures Checked(cut, unmerged, h, View(w, key, stale), View(w', key, stale))
    ensures Supported(cut, View(w', key, stale), h, l)
  {
    var u, u' := View(w, key, stale), View(w', key, stale);
    ViewGrows(unmerged, w, w', h, key, stale);
    forall v, n | v in stale ensures At(v, n) <= Tick(w'.Entries(h), key, n) {
      assert Tick(w.Entries(h), key, n) <= Tick(w'.Entries(h), key, n);
    }
    forall d, n ensures Met(cut, u', h, d, n, DepTick(l, d, n)) {
      ViewMet(cut, w', h, key, stale, d, n, DepTick(l, d, n));
    }
    forall k, d, n | k in u'.Entries(h) ensures DepMet(cut, h, u, u', k, d, n) {
      assert DepMet(cut, h, w, w', k, d, n);
      var i := DepTick(w'.Entries(h)[k], d, n);
      if Met(cut, w', h, d, n, i) { ViewMet(cut, w', h, key, stale, d, n, i); }
    }
    assert ChainsBelow(unmerged, u') by {
      forall g | g in u'.chains ensures u'.Entries(g) == w'.Entries(g) {}
    }
  }

  lemma ViewGrows(unmerged: Store, w: Work, w': Work, h: Key, key: Key, stale: set<Clock>)
    requires Grows(unmerged, h, w, w')
    requires forall v | v in stale :: Supplies(unmerged, key, v)
    ensures Grows(unmerged, h, View(w, key, stale), View(w', key, stale))
  {
    WithoutAwaits(w.cover, key, stale);
    WithoutAwaits(w'.cover, key, stale);
    var u, u' := View(w, key, stale), View(w', key, stale);
    forall g | g != h ensures SameFor(g, u, u') {
      assert SameFor(g, w, w');
    }
    forall d | d in u'.Fetching(h) && d !in u.Fetching(h)
      ensures exists v :: Awaits(u'.cover, d, v, h) && NewFetch(unmerged, h, d, v, u')
    {
      var v :| Awaits(w'.cover, d, v, h) && NewFetch(unmerged, h, d, v, w');
      assert Awaits(u'.cover, d, v, h) && NewFetch(unmerged, h, d, v, u');
    }
    forall d, v | Awaits(u'.cover, d, v, h) && !Awaits(u.cover, d, v, h) ensures NewFetch(unmerged, h, d, v, u') {
      assert NewFetch(unmerged, h, d, v, w');
    }
  }

  /** The clocks awaited of `key` that version `l` reaches, and the heads awaiting them. */
  function Answered(cover: CoverMap, key: Key, l: CrossCausal): set<Clock> {
    if key in cover then set v | v in cover[key] && Leq(v, l.clock) else {}
  }

  function HeadsAwaiting(cover: CoverMap, key: Key, clocks: set<Clock>): set<Key> {
    set v, h | v in clocks && key in cover && v in cover[key] && h in cover[key][v] :: h
  }

  function Unanswered(cover: CoverMap, key: Key, l: CrossCausal): set<Clock> {
    if key in cover then cover[key].Keys - Answered(cover, key, l) else {}
  }

  function GiveAll(chains: map<Key, Chain>, heads: set<Key>, key: Key, l: CrossCausal): map<Key, Chain> {
    map h | h in chains :: if h in heads then chains[h].(entries := chains[h].entries[key := l]) else chains[h]
  }

  function Unfetch(fetch: FetchMap, heads: set<Key>, key: Key): FetchMap {
    map h | h in fetch :: if h in heads then fetch[h] - {key} else fetch[h]
  }

  /** The chains after every head that `l` answers has been given it. */
  function GivenToHeads(w: Work, key: Key, l: CrossCausal): Work {
    var heads := HeadsAwaiting(w.cover, key, Answered(w.cover, key, l));
    var blocked := HeadsAwaiting(w.cover, key, Unanswered(w.cover, key, l));
    Work(GiveAll(w.chains, heads, key, l), Unfetch(w.fetch, heads - blocked, key), w.cover)
  }

  lemma HeadsAwaitingIs(cover: CoverMap, key: Key, clocks: set<Clock>, h: Key)
    ensures h in HeadsAwaiting(cover, key, clocks) <==> exists v :: v in clocks && Awaits(cover, key, v, h)
  {
  }

  lemma HeadsAwaitingPlus(cover: CoverMap, key: Key, clocks: set<Clock>, v: Clock)
    requires key in cover && v in cover[key]
    ensures HeadsAwaiting(cover, key, clocks + {v}) == HeadsAwaiting(cover, key, clocks) + cover[key][v]
  {
  }

  lemma NotAnsweredStaysResting(cut: Store, w: Work, key: Key, l: CrossCausal, h: Key)
    requires Resting(cut, w, h)
    requires h !in HeadsAwaiting(w.cover, key, Answered(w.cover, key, l))
    ensures Resting(cut, View(GivenToHeads(w, key, l), key, Answered(w.cover, key, l)), h)
  {
    var stale := Answered(w.cover, key, l);
    var w' := View(GivenToHeads(w, key, l), key, stale);
    WithoutAwaits(w.cover, key, stale);
    HeadsAwaitingIs(w.cover, key, stale, h);
    assert SameFor(h, w, w');
    RestingSame(cut, w, w', h);
  }

  lemma AnsweredIsGiven(cut: Store, unmerged: Store, w: Work, key: Key, l: CrossCausal, h: Key)
    requires Resting(cut, w, h) && ChainsBelow(unmerged, w)
    requires key in unmerged && unmerged[key] == l
    requires h in HeadsAwaiting(w.cover, key, Answered(w.cover, key, l))
    ensures Given(cut, View(GivenToHeads(w, key, l), key, Answered(w.cover, key, l)), h, key, l)
  {
    var stale := Answered(w.cover, key, l);
    var w' := View(GivenToHeads(w, key, l), key, stale);
    HeadsAwaitingIs(w.cover, key, stale, h);
    assert key in w.Fetching(h);
    assert w'.Entries(h) == w.Entries(h)[key := l];
    AnsweredCoupled(w, key, l, h);
    AnsweredSupport(cut, unmerged, w, key, l, h);
    WithoutAwaits(w.cover, key, stale);
    assert forall d, v | Awaits(w'.cover, d, v, h) :: Awaits(w.cover, d, v, h);
  }

  lemma AnsweredCoupled(w: Work, key: Key, l: CrossCausal, h: Key)
    requires Coupled(w, h) && h in w.fetch
    requires h in HeadsAwaiting(w.cover, key, Answered(w.cover, key, l))
    ensures Coupled(View(GivenToHeads(w, key, l), key, Answered(w.cover, key, l)), h)
  {
    var stale := Answered(w.cover, key, l);
    var w' := View(GivenToHeads(w, key, l), key, stale);
    WithoutAwaits(w.cover, key, stale);
    HeadsAwaitingIs(w.cover, key, Unanswered(w.cover, key, l), h);
    assert w'.Fetching(h) == if h in HeadsAwaiting(w.cover, key, Unanswered(w.cover, key, l)) then w.Fetching(h)
                             else w.Fetching(h) - {key};
    forall d ensures d in w'.Fetching(h) <==> exists v :: Awaits(w'.cover, d, v, h) {
      if d in w'.Fetching(h) && d != key {
        assert d in w.Fetching(h);
        var v :| Awaits(w.cover, d, v, h);
        assert Awaits(w'.cover, d, v, h);
      }
      if d == key && d in w'.Fetching(h) {
        var v :| v in Unanswered(w.cover, key, l) && Awaits(w.cover, key, v, h);
        assert Awaits(w'.cover, d, v, h);
      }
      if v :| Awaits(w'.cover, d, v, h) {
        assert Awaits(w.cover, d, v, h);
      }
    }
  }

  lemma AnsweredSupport(cut: Store, unmerged: Store, w: Work, key: Key, l: CrossCausal, h: Key)
    requires ChainSupported(cut, w, h, {}) && ChainsBelow(unmerged, w) && h in w.chains
    requires key in unmerged && unmerged[key] == l
    requires h in HeadsAwaiting(w.cover, key, Answered(w.cover, key, l))
    ensures ChainSupported(cut, View(GivenToHeads(w, key, l), key, Answered(w.cover, key, l)), h, {key})
  {
    var stale := Answered(w.cover, key, l);
    var w' := View(GivenToHeads(w, key, l), key, stale);
    WithoutAwaits(w.cover, key, stale);
    assert w'.Entries(h) == w.Entries(h)[key := l];
    forall k | k in w'.Entries(h) && k !in {key} ensures Supported(cut, w', h, w'.Entries(h)[k]) {
      var e := w.Entries(h)[k];
      assert Supported(cut, w, h, e);
      forall d, n ensures Met(cut, w', h, d, n, DepTick(e, d, n)) {
        assert Met(cut, w, h, d, n, DepTick(e, d, n));
        assert Tick(w.Entries(h), key, n) <= Tick(unmerged, key, n);
        if v :| Awaits(w.cover, d, v, h) && DepTick(e, d, n) <= At(v, n) {
          if d == key && v in stale { LeqIsPointwise(v, l.clock); } else { assert Awaits(w'.cover, d, v, h); }
        }
      }
    }
  }

  /** What answers an awaited clock exists. */
  lemma AnswerExists(cut: Store, w: Work, key: Key, l: CrossCausal, h: Key)
    requires Resting(cut, w, h) && h in HeadsAwaiting(w.cover, key, Answered(w.cover, key, l))
    ensures l.clock != map[]
  {
    HeadsAwaitingIs(w.cover, key, Answered(w.cover, key, l), h);
    var v :| v in Answered(w.cover, key, l) && Awaits(w.cover, key, v, h);
    assert v != map[] && Leq(v, l.clock);
  }

  lemma GivenStaysBelow(unmerged: Store, w: Work, key: Key, l: CrossCausal)
    requires ChainsBelow(unmerged, w) && key in unmerged && unmerged[key] == l && PositiveDeps(l)
    requires HeadsAwaiting(w.cover, key, Answered(w.cover, key, l)) != {} ==> l.clock != map[]
    ensures ChainsBelow(unmerged, GivenToHeads(w, key, l))
  {
  }

  // ------------------------------------------------------------ completing a chain

  /** What holds of the stores at every moment. */
  ghost predicate Core(unmerged: Store, cut: Store, w: Work) {
    && Closed(cut) && AllPositive(cut) && AllPositive(unmerged)
    && Dominates(unmerged, cut) && ChainsBelow(unmerged, w)
  }

  /** Only chain `head` changed; it awaits nothing new that could be supplied locally. */
  ghost predicate Moved(unmerged: Store, head: Key, w: Work, w': Work) {
    && OthersSame(head, w, w')
    && (forall d, v | Awaits(w'.cover, d, v, head) && !Awaits(w.cover, d, v, head) :: !Supplies(unmerged, d, v))
  }

  /** Only chain `head` changed, and the cut only grew. */
  ghost predicate Stepped(unmerged: Store, head: Key, cut: Store, w: Work, cut': Store, w': Work) {
    Moved(unmerged, head, w, w') && Dominates(cut', cut) && cut.Keys <= cut'.Keys
  }

  lemma SteppedAfter(unmerged: Store, head: Key, cut: Store, a: Work, b: Work, cut': Store, c: Work)
    requires Moved(unmerged, head, a, b) && Stepped(unmerged, head, cut, b, cut', c)
    ensures Stepped(unmerged, head, cut, a, cut', c)
  {
    OthersSameTransitive(head, a, b, c);
  }

  lemma RestingCarries(cut: Store, cut': Store, w: Work, w': Work, h: Key)
    requires SameFor(h, w, w') && Dominates(cut', cut) && Resting(cut, w, h)
    ensures Resting(cut', w', h)
  {
  }

  lemma GivenCarries(cut: Store, cut': Store, w: Work, w': Work, h: Key, key: Key, l: CrossCausal)
    requires SameFor(h, w, w') && Dominates(cut', cut) && Given(cut, w, h, key, l)
    ensures Given(cut', w', h, key, l)
  {
    GivenSame(cut, w, w', h, key, l);
    SupportWithLargerCut(cut, cut', w', h, {key});
    if w.Entries(h)[key] != l { SupportWithLargerCut(cut, cut', w', h, {}); }
  }

  /** Chain `head` has been checked for version `l` of `key`. */
  ghost predicate Verified(unmerged: Store, cut: Store, w: Work, head: Key, key: Key, l: CrossCausal) {
    && Core(unmerged, cut, w)
    && Shaped(w, head) && Coupled(w, head) && ChainSupported(cut, w, head, {})
    && PositiveDeps(l) && Supported(cut, w, head, l)
    && key in w.Entries(head) && (forall n :: At(l.clock, n) <= Tick(w.Entries(head), key, n))
  }

  /** A check of a given version leaves a verified chain. */
  lemma CheckVerifies(unmerged: Store, cut: Store, w: Work, w': Work, h: Key, key: Key, l: CrossCausal, stale: set<Clock>)
    requires Core(unmerged, cut, w) && PositiveDeps(l) && Given(cut, View(w, key, stale), h, key, l)
    requires forall v | v in stale :: Supplies(unmerged, key, v) && Leq(v, l.clock)
    requires Checked(cut, unmerged, h, w, w') && Supported(cut, w', h, l)
    ensures Verified(unmerged, cut, View(w', key, stale), h, key, l)
    ensures Moved(unmerged, h, View(w, key, stale), View(w', key, stale))
  {
    forall v, n | v in stale ensures At(v, n) <= Tick(w.Entries(h), key, n) {
      LeqIsPointwise(v, l.clock);
      assert At(l.clock, n) <= Tick(View(w, key, stale).Entries(h), key, n);
    }
    ViewChecked(cut, unmerged, w, w', h, key, stale, l);
    CheckedChain(cut, unmerged, View(w, key, stale), View(w', key, stale), h, key, l);
  }

  /** Merging and dropping a verified chain that has nothing left to fetch. */
  lemma CompleteChain(unmerged: Store, cut: Store, w: Work, h: Key, key: Key, l: CrossCausal)
    requires Verified(unmerged, cut, w, h, key, l) && w.Fetching(h) == {}
    ensures Core(unmerged, MergedCut(cut, w.Entries(h)), Dropped(w, h))
    ensures Stepped(unmerged, h, cut, w, MergedCut(cut, w.Entries(h)), Dropped(w, h))
    ensures Resting(MergedCut(cut, w.Entries(h)), Dropped(w, h), h)
    ensures SatisfiedBy(MergedCut(cut, w.Entries(h)), l)
    ensures forall n :: At(l.clock, n) <= Tick(MergedCut(cut, w.Entries(h)), key, n)
  {
    MergedCore(unmerged, cut, w, h);
    DroppedRests(MergedCut(cut, w.Entries(h)), w, h);
    MergeSatisfies(cut, w, h, l);
    MergedCutTicks(cut, w.Entries(h));
  }

  /** After the check, `l` is in the chain of `head`; or the chain is complete and the cut has `l` and all it depends on. */
  ghost predicate Settled(cut: Store, w: Work, head: Key, key: Key, l: CrossCausal) {
    if head in w.chains then
      key in w.Entries(head) && forall n :: At(l.clock, n) <= Tick(w.Entries(head), key, n)
    else
      SatisfiedBy(cut, l) && forall n :: At(l.clock, n) <= Tick(cut, key, n)
  }

  /** The work without the chain of `h`. */
  function Dropped(w: Work, h: Key): Work {
    w.(chains := w.chains - {h}, fetch := w.fetch - {h})
  }

  /** Dropping a chain whose fetches are all answered. */
  lemma DroppedRests(cut: Store, w: Work, h: Key)
    requires Coupled(w, h) && w.Fetching(h) == {}
    ensures OthersSame(h, w, Dropped(w, h)) && Resting(cut, Dropped(w, h), h)
    ensures forall d, v :: !Awaits(w.cover, d, v, h)
  {
    forall g | g != h ensures SameFor(g, w, Dropped(w, h)) {}
    forall d, v ensures !Awaits(w.cover, d, v, h) {
      assert d !in w.Fetching(h);
    }
  }

  /** The stores after a complete chain has been merged and dropped. */
  lemma MergedCore(unmerged: Store, cut: Store, w: Work, h: Key)
    requires Core(unmerged, cut, w) && ChainSupported(cut, w, h, {})
    requires Coupled(w, h) && w.Fetching(h) == {}
    ensures Core(unmerged, MergedCut(cut, w.Entries(h)), Dropped(w, h))
    ensures Dominates(MergedCut(cut, w.Entries(h)), cut)
  {
    var cut' := MergedCut(cut, w.Entries(h));
    DroppedRests(cut, w, h);
    MergeKeepsClosed(cut, w, h);
    MergedCutTicks(cut, w.Entries(h));
    forall k, n ensures Tick(cut', k, n) <= Tick(unmerged, k, n) {
      assert Tick(cut, k, n) <= Tick(unmerged, k, n);
      assert h in w.chains ==> Tick(w.Entries(h), k, n) <= Tick(unmerged, k, n);
    }
    forall g | g in Dropped(w, h).chains ensures Dropped(w, h).Entries(g) == w.Entries(g) {}
  }

  lemma CoreView(unmerged: Store, cut: Store, w: Work, key: Key, stale: set<Clock>)
    ensures Core(unmerged, cut, w) <==> Core(unmerged, cut, View(w, key, stale))
  {
  }

  // ------------------------------------------------- serving every answered head

  /** All heads are at rest except those in `todo`, which have been given `l`; heads served earlier are settled. */
  ghost predicate Answering(unmerged: Store, cut: Store, w: Work, key: Key, l: CrossCausal,
                            heads: set<Key>, todo: set<Key>) {
    && Core(unmerged, cut, w) && todo <= heads
    && (forall h | h in todo :: Given(cut, w, h, key, l))
    && (forall h | h !in todo :: Resting(cut, w, h))
    && (forall h | h in heads && h !in todo :: Settled(cut, w, h, key, l))
  }

  /** Nothing awaited of `key` could be supplied locally, and a client query for `key` has been acted on. */
  ghost predicate Caught(unmerged: Store, w: Work, key: Key) {
    && (forall v, h | Awaits(w.cover, key, v, h) :: !Supplies(unmerged, key, v))
    && (key in w.chains ==> w.Entries(key) != map[])
  }

  lemma SettledCarries(cut: Store, cut': Store, w: Work, w': Work, h: Key, key: Key, l: CrossCausal)
    requires SameFor(h, w, w') && Dominates(cut', cut) && Settled(cut, w, h, key, l) && PositiveDeps(l)
    ensures Settled(cut', w', h, key, l)
  {
    if h !in w.chains {
      SatisfiedGrows(cut, cut', l);
      forall n ensures At(l.clock, n) <= Tick(cut', key, n) {
        assert Tick(cut, key, n) <= Tick(cut', key, n);
      }
    }
  }

  /** Serving one head leaves the others as they were. */
  lemma ServeOne(unmerged: Store, cut: Store, w: Work, cut': Store, w': Work, key: Key, l: CrossCausal,
                 heads: set<Key>, todo: set<Key>, h: Key)
    requires Answering(unmerged, cut, w, key, l, heads, todo) && h in heads && PositiveDeps(l)
    requires Stepped(unmerged, h, cut, w, cut', w') && Core(unmerged, cut', w')
    requires Resting(cut', w', h) && Settled(cut', w', h, key, l)
    ensures Answering(unmerged, cut', w', key, l, heads, todo - {h})
  {
    forall g | g in todo - {h} ensures Given(cut', w', g, key, l) {
      assert SameFor(g, w, w');
      GivenCarries(cut, cut', w, w', g, key, l);
    }
    forall g | g !in todo - {h} ensures Resting(cut', w', g) {
      if g != h {
        assert SameFor(g, w, w');
        RestingCarries(cut, cut', w, w', g);
      }
    }
    forall g | g in heads && g !in todo - {h} ensures Settled(cut', w', g, key, l) {
      if g != h {
        assert SameFor(g, w, w');
        SettledCarries(cut, cut', w, w', g, key, l);
      }
    }
  }

  lemma CaughtStays(unmerged: Store, cut: Store, w: Work, cut': Store, w': Work, key: Key, l: CrossCausal, h: Key)
    requires Caught(unmerged, w, key) && Stepped(unmerged, h, cut, w, cut', w') && Settled(cut', w', h, key, l)
    ensures Caught(unmerged, w', key)
  {
    forall v, g | Awaits(w'.cover, key, v, g) ensures !Supplies(unmerged, key, v) {
      if g != h { assert SameFor(g, w, w'); }
      if Awaits(w.cover, key, v, g) { assert !Supplies(unmerged, key, v); }
    }
    if key != h { assert SameFor(key, w, w'); }
  }

  /** A head that was served earlier and is still in preparation can be given the same version again. */
  lemma ServedIsGiven(cut: Store, w: Work, h: Key, key: Key, l: CrossCausal)
    requires Resting(cut, w, h) && Settled(cut, w, h, key, l) && h in w.chains
    ensures Given(cut, w, h, key, l)
  {
  }

  /** A head without a chain was completed by another clock: the cut has what it was given. */
  lemma ServedIsDone(unmerged: Store, cut: Store, w: Work, h: Key, key: Key, l: CrossCausal, heads: set<Key>, todo: set<Key>)
    requires Answering(unmerged, cut, w, key, l, heads, todo) && h in heads && h !in w.chains
    ensures h !in todo && h !in w.fetch && SatisfiedBy(cut, l)
  {
    assert h !in todo ==> Resting(cut, w, h);
  }

  /** Heads that await something have a chain. */
  lemma AwaitingHeadsExist(cut: Store, w: Work, key: Key, clocks: set<Clock>)
    requires forall h :: Resting(cut, w, h)
    ensures HeadsAwaiting(w.cover, key, clocks) <= w.chains.Keys && HeadsAwaiting(w.cover, key, clocks) <= w.fetch.Keys
  {
    forall h | h in HeadsAwaiting(w.cover, key, clocks) ensures h in w.chains && h in w.fetch {
      HeadsAwaitingIs(w.cover, key, clocks, h);
      assert Resting(cut, w, h);
      assert key in w.Fetching(h);
    }
  }

  /** The state from which answered heads are served. */
  lemma StartAnswering(unmerged: Store, cut: Store, w: Work, key: Key, l: CrossCausal)
    requires Core(unmerged, cut, w) && (forall h :: Resting(cut, w, h))
    requires key in unmerged && unmerged[key] == l
    requires key in w.chains ==> w.Entries(key) != map[]
    ensures var stale := Answered(w.cover, key, l);
            var heads := HeadsAwaiting(w.cover, key, stale);
            var u := View(GivenToHeads(w, key, l), key, stale);
            Answering(unmerged, cut, u, key, l, heads, heads) && Caught(unmerged, u, key)
  {
    var stale := Answered(w.cover, key, l);
    var heads := HeadsAwaiting(w.cover, key, stale);
    var u := View(GivenToHeads(w, key, l), key, stale);
    forall h | h in heads ensures l.clock != map[] {
      assert Resting(cut, w, h);
      AnswerExists(cut, w, key, l, h);
    }
    GivenStaysBelow(unmerged, w, key, l);
    CoreView(unmerged, cut, GivenToHeads(w, key, l), key, stale);
    forall h ensures h in heads ==> Given(cut, u, h, key, l)
             ensures h !in heads ==> Resting(cut, u, h)
    {
      assert Resting(cut, w, h);
      if h in heads { AnsweredIsGiven(cut, unmerged, w, key, l, h); }
      else { NotAnsweredStaysResting(cut, w, key, l, h); }
    }
    WithoutAwaits(w.cover, key, stale);
    if key in u.chains { assert u.Entries(key).Keys >= w.Entries(key).Keys; }
  }

  // --------------------------------------------------------------- starting a chain

  /** A chain that holds nothing is given its first version. */
  lemma StartedChain(unmerged: Store, cut: Store, w: Work, w': Work, key: Key, l: CrossCausal)
    requires Core(unmerged, cut, w) && PositiveDeps(l) && (forall n :: At(l.clock, n) <= Tick(unmerged, key, n))
    requires key in w.fetch && w.fetch[key] == {} && w.Entries(key) == map[] && Coupled(w, key)
    requires w' == WithEntries(w, key, map[key := l])
    ensures Core(unmerged, cut, w') && Given(cut, w', key, key, l) && Moved(unmerged, key, w, w')
  {
    assert w'.Entries(key) == map[key := l];
    forall h | h in w'.chains ensures Dominates(unmerged, w'.Entries(h)) && AllPositive(w'.Entries(h)) {
      if h != key { assert w'.Entries(h) == w.Entries(h); }
    }
    forall h | h != key ensures SameFor(h, w, w') {}
    forall d, v ensures !Awaits(w'.cover, d, v, key) {
      assert d !in w.Fetching(key) && (Awaits(w.cover, d, v, key) ==> d in w.Fetching(key));
    }
  }

  /** After a step for `head` that leaves it at rest, everybody is at rest who was. */
  lemma AllRestAfter(unmerged: Store, head: Key, cut: Store, w: Work, cut': Store, w': Work)
    requires Stepped(unmerged, head, cut, w, cut', w') && Resting(cut', w', head)
    requires forall h | h != head :: Resting(cut, w, h)
    ensures forall h :: Resting(cut', w', h)
  {
    forall h ensures Resting(cut', w', h) {
      if h != head {
        assert SameFor(h, w, w');
        RestingCarries(cut, cut', w, w', h);
      }
    }
  }

  /** Each of these heads is listed with one of the remaining clocks. */
  ghost predicate Listed(heads: set<Key>, byClock: map<Clock, set<Key>>, rest: set<Clock>) {
    forall h | h in heads :: exists v :: v in rest && v in byClock && h in byClock[v]
  }

  lemma ListedNext(heads: set<Key>, byClock: map<Clock, set<Key>>, rest: set<Clock>, v: Clock)
    requires Listed(heads, byClock, rest) && v in byClock
    ensures Listed(heads - byClock[v], byClock, rest - {v})
  {
  }

  lemma UnmergedGrows(unmerged: Store, cut: Store, w: Work, key: Key, l: CrossCausal)
    requires Core(unmerged, cut, w) && PositiveDeps(l)
    ensures Core(Populated(unmerged, key, l), cut, w) && Dominates(Populated(unmerged, key, l), unmerged)
    ensures Supplies(Populated(unmerged, key, l), key, l.clock)
    ensures forall k, v | Supplies(unmerged, k, v) :: Supplies(Populated(unmerged, key, l), k, v)
  {
    var u' := Populated(unmerged, key, l);
    PopulatedTicks(unmerged, key, l);
    CausalMergeIsJoin(if key in unmerged then unmerged[key] else l, l);
    JoinIsLeastUpperBound(if key in unmerged then unmerged[key].clock else l.clock, l.clock, l.clock);
    forall k, n ensures Tick(cut, k, n) <= Tick(u', k, n) {
      assert Tick(cut, k, n) <= Tick(unmerged, k, n) <= Tick(u', k, n);
    }
    forall h | h in w.chains ensures Dominates(u', w.Entries(h)) {
      forall k, n ensures Tick(w.Entries(h), k, n) <= Tick(u', k, n) {
        assert Tick(w.Entries(h), k, n) <= Tick(unmerged, k, n) <= Tick(u', k, n);
      }
    }
    forall k, v | Supplies(unmerged, k, v) ensures Supplies(u', k, v) {
      if k == key { LeqTransitive(v, unmerged[k].clock, u'[k].clock); }
    }
  }

  /** Version `v` of `k` is in the cut, or on its way in some chain. */
  ghost predicate Migrated(cut: Store, w: Work, k: Key, v: Clock) {
    (forall n :: At(v, n) <= Tick(cut, k, n)) || exists h :: h in w.chains && k in w.Entries(h)
  }

  /** A key that no chain holds has no started chain of its own. */
  lemma NoVersionInChains(cut: Store, w: Work, key: Key)
    requires Resting(cut, w, key)
    requires forall h | h in w.chains :: !Supplies(w.chains[h].entries, key, map[])
    ensures w.Entries(key) == map[] && w.Fetching(key) == {}
    ensures forall h | h in w.chains :: key !in w.Entries(h)
  {
  }

  lemma ResetFetch(cut: Store, w: Work, w': Work, key: Key)
    requires (forall h :: Resting(cut, w, h)) && w.Fetching(key) == {}
    requires w' == w.(fetch := w.fetch[key := {}])
    ensures forall h | h != key :: Resting(cut, w', h)
    ensures w'.Entries(key) == w.Entries(key) && Coupled(w', key)
    ensures OthersSame(key, w, w')
  {
    assert Resting(cut, w, key);
    forall h | h != key ensures SameFor(h, w, w') && Resting(cut, w', h) {
      assert Resting(cut, w, h);
      assert SameFor(h, w, w');
      RestingSame(cut, w, w', h);
    }
    forall d ensures d in w'.Fetching(key) <==> exists v :: Awaits(w'.cover, d, v, key) {
      assert d in w.Fetching(key) <==> exists v :: Awaits(w.cover, d, v, key);
    }
  }

  /** Starting the chain of `key` migrates it and undoes no earlier migration. */
  lemma MigrationStarted(unmerged: Store, cut: Store, w: Work, cut': Store, w': Work, key: Key)
    requires key in unmerged && OthersSame(key, w, w') && Dominates(cut', cut)
    requires Settled(cut', w', key, key, unmerged[key]) && w.Entries(key) == map[]
    ensures Migrated(cut', w', key, unmerged[key].clock)
    ensures forall k, v :: Migrated(cut, w, k, v) ==> Migrated(cut', w', k, v)
  {
    forall k, v | Migrated(cut, w, k, v) ensures Migrated(cut', w', k, v) {
      if h :| h in w.chains && k in w.Entries(h) {
        assert SameFor(h, w, w');
        assert h in w'.chains && k in w'.Entries(h);
      } else {
        forall n ensures At(v, n) <= Tick(cut', k, n) {
          assert At(v, n) <= Tick(cut, k, n) <= Tick(cut', k, n);
        }
      }
    }
  }

  /** Erasing an answered clock from the cover map does not change the view without answered clocks. */
  lemma EraseStale(w: Work, key: Key, stale: set<Clock>, v: Clock)
    requires key in w.cover && v in stale
    ensures View(w.(cover := w.cover[key := w.cover[key] - {v}]), key, stale - {v}) == View(w, key, stale)
  {
    var cover' := w.cover[key := w.cover[key] - {v}];
    var rest := w.cover[key] - stale;
    assert cover'[key] - (stale - {v}) == rest;
    assert w.cover[key := w.cover[key] - {v}][key := rest] == w.cover[key := rest];
    if stale == {v} { assert cover' == w.cover[key := rest]; }
  }

  /** When every answered head is served and every answered clock erased, all heads rest. */
  lemma DoneAnswering(unmerged: Store, cut: Store, w: Work, key: Key, l: CrossCausal, heads: set<Key>)
    requires Answering(unmerged, cut, View(w, key, {}), key, l, heads, {})
    ensures Core(unmerged, cut, w) && forall h :: Resting(cut, w, h)
  {
  }

  /** Dropping an empty entry of the cover map changes nothing. */
  lemma DropEmptyCover(cut: Store, w: Work, key: Key)
    requires key in w.cover && w.cover[key] == map[] && forall h :: Resting(cut, w, h)
    ensures forall h :: Resting(cut, w.(cover := w.cover - {key}), h)
    ensures forall d, v, h :: Awaits(w.cover - {key}, d, v, h) <==> Awaits(w.cover, d, v, h)
  {
    var w' := w.(cover := w.cover - {key});
    forall h ensures Resting(cut, w', h) {
      assert SameFor(h, w, w');
      assert Resting(cut, w, h);
      RestingSame(cut, w, w', h);
    }
  }

  /** The unmerged store after a response; a version with an empty clock is not kept. */
  function Received(unmerged: Store, key: Key, l: CrossCausal): Store {
    var u := Populated(unmerged, key, l);
    if u[key].clock == map[] then u - {key} else u
  }

  /** Removing a version that stands for a missing key changes no clock component. */
  lemma ForgetMissing(unmerged: Store, cut: Store, w: Work, key: Key)
    requires Core(unmerged, cut, w) && key in unmerged && unmerged[key].clock == map[]
    ensures Core(unmerged - {key}, cut, w)
  {
  }

  // ------------------------------------------------------------------- waiting

  function WithChain(w: Work, key: Key, chain: Chain): Work {
    w.(chains := w.chains[key := chain])
  }

  /** Adding a client to a chain changes no version. */
  lemma WaitingIsHarmless(cut: Store, w: Work, key: Key, chain: Chain, h: Key)
    requires Resting(cut, w, h) && key in w.chains && chain.entries == w.chains[key].entries
    ensures Resting(cut, WithChain(w, key, chain), h)
  {
  }

  function WithNewChain(w: Work, key: Key, chain: Chain): Work {
    w.(chains := w.chains[key := chain], fetch := w.fetch[key := {}])
  }

  /** A new chain without versions rests while its first version is fetched. */
  lemma EmptyChainRests(unmerged: Store, cut: Store, w: Work, key: Key, chain: Chain)
    requires Core(unmerged, cut, w) && (forall h :: Resting(cut, w, h)) && key !in w.chains && chain.entries == map[]
    ensures Core(unmerged, cut, WithNewChain(w, key, chain))
    ensures forall h :: Resting(cut, WithNewChain(w, key, chain), h)
  {
    var w' := WithNewChain(w, key, chain);
    forall h | h in w'.chains ensures Dominates(unmerged, w'.Entries(h)) && AllPositive(w'.Entries(h)) {
      if h != key { assert w'.Entries(h) == w.Entries(h); }
    }
    forall h ensures Resting(cut, w', h) {
      assert Resting(cut, w, h);
      if h != key {
        assert SameFor(h, w, w');
        RestingSame(cut, w, w', h);
      } else {
        forall d ensures d in w'.Fetching(h) <==> exists v :: Awaits(w'.cover, d, v, h) {
          assert d in w.Fetching(h) <==> exists v :: Awaits(w.cover, d, v, h);
        }
      }
    }
  }

  lemma BelowWithChain(unmerged: Store, w: Work, key: Key, chain: Chain)
    requires ChainsBelow(unmerged, w)
    requires key in w.chains && chain.entries == w.chains[key].entries
    ensures ChainsBelow(unmerged, WithChain(w, key, chain))
  {
  }
}
