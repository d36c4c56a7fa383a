/**
  What the stores of the causal cache hold, in terms of the writes that went
  into them: no merge of the cache loses a causally maximal write of a key, and
  no version holds a value or a dependency that nobody wrote.
 */
module CacheWrites {
  import opened Clocks
  import opened CausalLattices
  import opened CacheModel
  import opened CacheInvariants

  /** Per key, the writes that were merged. */
  type Log = map<Key, set<Write>>

  function Of(log: Log, k: Key): set<Write> { if k in log then log[k] else {} }

  /** The writes of two logs together. */
  function Both(a: Log, b: Log): (r: Log)
    ensures forall k :: Of(r, k) == Of(a, k) + Of(b, k)
  {
    map k | k in a.Keys + b.Keys :: Of(a, k) + Of(b, k)
  }

  ghost predicate HasTick(ws: set<Write>, n: string, i: int) { exists w :: w in ws && At(w.lattice.clock, n) == i }

  ghost predicate HasValue(ws: set<Write>, v: string) { exists w :: w in ws && v in w.lattice.value }

  ghost predicate HasDep(ws: set<Write>, d: Key, n: string, i: int) { exists w :: w in ws && DepTick(w.lattice, d, n) == i }

  /** The clock is the pointwise maximum of the clocks of the writes. */
  ghost predicate IsCeiling(l: CrossCausal, ws: set<Write>) {
    && (forall w | w in ws :: Leq(w.lattice.clock, l.clock))
    && (forall n {:trigger HasTick(ws, n, At(l.clock, n))} :: n in l.clock ==> HasTick(ws, n, At(l.clock, n)))
  }

  ghost predicate KeepsMaximal(l: CrossCausal, ws: set<Write>) {
    forall w | Maximal(w, ws) :: Kept(w, l)
  }

  ghost predicate AllWritten(l: CrossCausal, ws: set<Write>) {
    && (forall v {:trigger HasValue(ws, v)} :: v in l.value ==> HasValue(ws, v))
    && (forall d, n {:trigger HasDep(ws, d, n, DepTick(l, d, n))} ::
          DepTick(l, d, n) >= 0 ==> HasDep(ws, d, n, DepTick(l, d, n)))
  }

  /** A version that a merge of exactly the writes `ws` may give: every maximal one kept, nothing unwritten. */
  ghost predicate MergeOf(l: CrossCausal, ws: set<Write>) {
    IsCeiling(l, ws) && KeepsMaximal(l, ws) && AllWritten(l, ws)
  }

  lemma MergeOfWrite(w: Write)
    ensures MergeOf(w.lattice, {w})
  {
    assert w in {w};
  }

  /** Only the missing version is a merge of nothing. */
  lemma MergeOfNothing(l: CrossCausal, ws: set<Write>)
    requires MergeOf(l, ws) && Identified(ws)
    ensures ws == {} <==> l.clock == map[]
    ensures ws == {} ==> l.value == {}
  {
    if w :| w in ws {
      assert w.author in l.clock;
    } else {
      forall n ensures n !in l.clock { assert HasTick(ws, n, At(l.clock, n)) || n !in l.clock; }
      forall v ensures v !in l.value { assert HasValue(ws, v) || v !in l.value; }
    }
  }

  /** A maximal write whose clock the version has reached is one of those merged. */
  lemma ReachedIsMerged(w: Write, l: CrossCausal, part: set<Write>, ws: set<Write>)
    requires Identified(ws) && Maximal(w, ws) && part <= ws && MergeOf(l, part) && Leq(w.lattice.clock, l.clock)
    ensures Kept(w, l)
  {
    assert w.author in l.clock;
    assert HasTick(part, w.author, At(l.clock, w.author));
    var u :| u in part && At(u.lattice.clock, w.author) == At(l.clock, w.author);
    assert Identifies(u, w);
    assert Maximal(w, part);
  }

  lemma MaximalIsKept(w: Write, a: CrossCausal, part: set<Write>, b: CrossCausal, other: set<Write>, ws: set<Write>)
    requires Identified(ws) && Maximal(w, ws) && part <= ws && other <= ws && w in part
    requires MergeOf(a, part) && MergeOf(b, other)
    ensures Kept(w, a)
    ensures Leq(a.clock, b.clock) ==> Kept(w, b)
  {
    assert Maximal(w, part);
    if Leq(a.clock, b.clock) {
      LeqTransitive(w.lattice.clock, a.clock, b.clock);
      ReachedIsMerged(w, b, other, ws);
    }
  }

  lemma KeptByCausalMerge(w: Write, a: CrossCausal, b: CrossCausal)
    requires (Kept(w, a) && (Leq(a.clock, b.clock) ==> Kept(w, b))) || (Kept(w, b) && (Leq(b.clock, a.clock) ==> Kept(w, a)))
    ensures Kept(w, CausalMerge(a, b))
  {
    CausalMergeIsJoin(a, b);
    if Comparison(a.clock, b.clock) == Concurrent {
      MergeIntoCases(a, b);
      JoinDepsTicks(a, b, MergeInto(a, b));
    }
  }

  lemma MergeKeeps(a: CrossCausal, wa: set<Write>, b: CrossCausal, wb: set<Write>, w: Write)
    requires Identified(wa + wb) && MergeOf(a, wa) && MergeOf(b, wb) && Maximal(w, wa + wb)
    ensures Kept(w, CausalMerge(a, b))
  {
    if w in wa {
      MaximalIsKept(w, a, wa, b, wb, wa + wb);
    } else {
      MaximalIsKept(w, b, wb, a, wa, wa + wb);
    }
    KeptByCausalMerge(w, a, b);
  }

  lemma MergeTick(a: CrossCausal, wa: set<Write>, b: CrossCausal, wb: set<Write>, n: string)
    requires IsCeiling(a, wa) && IsCeiling(b, wb) && n in CausalMerge(a, b).clock
    ensures HasTick(wa + wb, n, At(CausalMerge(a, b).clock, n))
  {
    CausalMergeIsJoin(a, b);
    var w;
    if At(a.clock, n) < At(b.clock, n) {
      assert HasTick(wb, n, At(b.clock, n));
      w :| w in wb && At(w.lattice.clock, n) == At(b.clock, n);
    } else {
      assert HasTick(wa, n, At(a.clock, n));
      w :| w in wa && At(w.lattice.clock, n) == At(a.clock, n);
    }
    assert w in wa + wb;
  }

  lemma MergeValue(a: CrossCausal, wa: set<Write>, b: CrossCausal, wb: set<Write>, v: string)
    requires AllWritten(a, wa) && AllWritten(b, wb) && v in CausalMerge(a, b).value
    ensures HasValue(wa + wb, v)
  {
    CausalMergeIsJoin(a, b);
    var side := if v in a.value then wa else wb;
    assert HasValue(side, v);
    var w :| w in side && v in w.lattice.value;
    assert w in wa + wb;
  }

  lemma CausalMergeDeps(a: CrossCausal, b: CrossCausal, d: Key, n: string)
    ensures DepTick(CausalMerge(a, b), d, n) in {DepTick(a, d, n), DepTick(b, d, n)}
  {
    CausalMergeIsJoin(a, b);
    if Comparison(a.clock, b.clock) == Concurrent {
      MergeIntoCases(a, b);
      JoinDepsTicks(a, b, MergeInto(a, b));
    }
  }

  lemma MergeDep(a: CrossCausal, wa: set<Write>, b: CrossCausal, wb: set<Write>, d: Key, n: string)
    requires AllWritten(a, wa) && AllWritten(b, wb) && DepTick(CausalMerge(a, b), d, n) >= 0
    ensures HasDep(wa + wb, d, n, DepTick(CausalMerge(a, b), d, n))
  {
    CausalMergeDeps(a, b, d, n);
    var i := DepTick(CausalMerge(a, b), d, n);
    var w;
    if i == DepTick(a, d, n) {
      assert HasDep(wa, d, n, DepTick(a, d, n));
      w :| w in wa && DepTick(w.lattice, d, n) == i;
    } else {
      assert HasDep(wb, d, n, DepTick(b, d, n));
      w :| w in wb && DepTick(w.lattice, d, n) == i;
    }
    assert w in wa + wb;
  }

  lemma MergeBounds(a: CrossCausal, wa: set<Write>, b: CrossCausal, wb: set<Write>, w: Write)
    requires IsCeiling(a, wa) && IsCeiling(b, wb) && w in wa + wb
    ensures Leq(w.lattice.clock, CausalMerge(a, b).clock)
  {
    CausalMergeIsJoin(a, b);
    JoinIsLeastUpperBound(a.clock, b.clock, a.clock);
    LeqTransitive(w.lattice.clock, if w in wa then a.clock else b.clock, CausalMerge(a, b).clock);
  }

  lemma MergeIsCeiling(a: CrossCausal, wa: set<Write>, b: CrossCausal, wb: set<Write>)
    requires IsCeiling(a, wa) && IsCeiling(b, wb)
    ensures IsCeiling(CausalMerge(a, b), wa + wb)
  {
    var l := CausalMerge(a, b);
    forall w | w in wa + wb ensures Leq(w.lattice.clock, l.clock) {
      MergeBounds(a, wa, b, wb, w);
    }
    forall n | n in l.clock ensures HasTick(wa + wb, n, At(l.clock, n)) {
      MergeTick(a, wa, b, wb, n);
    }
  }

  lemma MergeAllWritten(a: CrossCausal, wa: set<Write>, b: CrossCausal, wb: set<Write>)
    requires AllWritten(a, wa) && AllWritten(b, wb)
    ensures AllWritten(CausalMerge(a, b), wa + wb)
  {
    var l := CausalMerge(a, b);
    forall v | v in l.value ensures HasValue(wa + wb, v) {
      MergeValue(a, wa, b, wb, v);
    }
    forall d, n | DepTick(l, d, n) >= 0 ensures HasDep(wa + wb, d, n, DepTick(l, d, n)) {
      MergeDep(a, wa, b, wb, d, n);
    }
  }

  /** The cache's merge of two versions is a merge of all their writes. */
  lemma MergeOfBoth(a: CrossCausal, wa: set<Write>, b: CrossCausal, wb: set<Write>)
    requires Identified(wa + wb) && MergeOf(a, wa) && MergeOf(b, wb)
    ensures MergeOf(CausalMerge(a, b), wa + wb)
  {
    MergeIsCeiling(a, wa, b, wb);
    MergeAllWritten(a, wa, b, wb);
    forall w | Maximal(w, wa + wb) ensures Kept(w, CausalMerge(a, b)) {
      MergeKeeps(a, wa, b, wb, w);
    }
  }

  // ------------------------------------------------------------------- stores

  ghost predicate AllIdentified(log: Log) { forall k :: Identified(Of(log, k)) }

  /** What the store holds for a key is a merge of exactly the writes of the log. */
  ghost predicate HoldsAt(m: Store, log: Log, k: Key) {
    if k in m then MergeOf(m[k], Of(log, k)) else Of(log, k) == {}
  }

  ghost predicate Holds(m: Store, log: Log) { forall k :: HoldsAt(m, log, k) }

  lemma PopulatedHoldsAt(m: Store, log: Log, key: Key, l: CrossCausal, ws: set<Write>)
    requires HoldsAt(m, log, key) && MergeOf(l, ws) && Identified(Of(log, key) + ws)
    ensures MergeOf(Populated(m, key, l)[key], Of(log, key) + ws)
  {
    if key in m {
      MergeOfBoth(m[key], Of(log, key), l, ws);
    } else {
      assert Of(log, key) + ws == ws;
    }
  }

  /** The writes of `ws` are added for one key. */
  function Logged(log: Log, key: Key, ws: set<Write>): (r: Log)
    ensures forall k :: Of(r, k) == if k == key then Of(log, k) + ws else Of(log, k)
  {
    log[key := Of(log, key) + ws]
  }

  lemma PopulatedHolds(m: Store, log: Log, key: Key, l: CrossCausal, ws: set<Write>)
    requires Holds(m, log) && MergeOf(l, ws) && Identified(Of(log, key) + ws)
    ensures Holds(Populated(m, key, l), Logged(log, key, ws))
  {
    assert HoldsAt(m, log, key);
    PopulatedHoldsAt(m, log, key, l, ws);
    forall k ensures HoldsAt(Populated(m, key, l), Logged(log, key, ws), k) {
      assert HoldsAt(m, log, k);
    }
  }

  // ---------------------------------------------------------------- the cache

  /** The log after a sequence of writes. */
  function LoggedAll(log: Log, writes: seq<(Key, Write)>): Log {
    if writes == [] then log
    else
      var (key, w) := writes[|writes| - 1];
      Logged(LoggedAll(log, writes[..|writes| - 1]), key, {w})
  }

  lemma {:induction false} LoggedAllMembers(log: Log, writes: seq<(Key, Write)>, k: Key, w: Write)
    ensures w in Of(LoggedAll(log, writes), k) <==> w in Of(log, k) || (k, w) in writes
  {
    if writes != [] {
      var n := |writes| - 1;
      LoggedAllMembers(log, writes[..n], k, w);
      assert writes == writes[..n] + [writes[n]];
      assert (k, w) in writes <==> (k, w) in writes[..n] || (k, w) == writes[n];
    }
  }

  /** The versions that are written. */
  function Tuples(writes: seq<(Key, Write)>): (tuples: seq<(Key, CrossCausal)>)
    ensures |tuples| == |writes|
    ensures forall i | 0 <= i < |writes| :: tuples[i] == (writes[i].0, writes[i].1.lattice)
  {
    seq(|writes|, i requires 0 <= i < |writes| => (writes[i].0, writes[i].1.lattice))
  }

  lemma PartIdentified(part: set<Write>, ws: set<Write>)
    requires part <= ws && Identified(ws)
    ensures Identified(part)
  {
  }

  lemma {:induction false} LoggedLess(log: Log, writes: seq<(Key, Write)>)
    requires writes != [] && AllIdentified(LoggedAll(log, writes))
    ensures AllIdentified(LoggedAll(log, writes[..|writes| - 1]))
  {
    var less := LoggedAll(log, writes[..|writes| - 1]);
    forall k ensures Identified(Of(less, k)) {
      PartIdentified(Of(less, k), Of(LoggedAll(log, writes), k));
    }
  }

  /** After a put, the store holds the writes it held and those of the put. */
  lemma {:induction false} PutKeepsWrites(m: Store, log: Log, writes: seq<(Key, Write)>)
    requires Holds(m, log) && AllIdentified(LoggedAll(log, writes))
    ensures Holds(PopulatedAll(m, Tuples(writes)), LoggedAll(log, writes))
  {
    if writes != [] {
      var n := |writes| - 1;
      var (key, w) := writes[n];
      LoggedLess(log, writes);
      PutKeepsWrites(m, log, writes[..n]);
      assert Tuples(writes)[..n] == Tuples(writes[..n]);
      MergeOfWrite(w);
      assert Identified(Of(LoggedAll(log, writes), key));
      PopulatedHolds(PopulatedAll(m, Tuples(writes[..n])), LoggedAll(log, writes[..n]), key, w.lattice, {w});
    }
  }

  lemma {:induction false} SentOnAt(m: Store, tuples: seq<(Key, CrossCausal)>, i: nat)
    requires i < |tuples|
    ensures |SentOn(m, tuples)| == |tuples| && tuples[i].0 in PopulatedAll(m, tuples[..i + 1])
    ensures SentOn(m, tuples)[i] == (tuples[i].0, PopulatedAll(m, tuples[..i + 1])[tuples[i].0])
  {
    var n := |tuples| - 1;
    if n > 0 {
      SentOnAt(m, tuples[..n], if i < n then i else 0);
    }
    if i < n {
      assert tuples[..n][..i + 1] == tuples[..i + 1];
    } else {
      assert tuples[..i + 1] == tuples;
    }
  }

  /** What a put sends on for its write `i` holds all writes of the key up to that one. */
  lemma {:induction false} PutSendsWrites(m: Store, log: Log, writes: seq<(Key, Write)>, i: nat)
    requires Holds(m, log) && i < |writes| && AllIdentified(LoggedAll(log, writes[..i + 1]))
    ensures |SentOn(m, Tuples(writes))| == |writes| && SentOn(m, Tuples(writes))[i].0 == writes[i].0
    ensures MergeOf(SentOn(m, Tuples(writes))[i].1, Of(LoggedAll(log, writes[..i + 1]), writes[i].0))
  {
    SentOnAt(m, Tuples(writes), i);
    assert Tuples(writes)[..i + 1] == Tuples(writes[..i + 1]);
    PutKeepsWrites(m, log, writes[..i + 1]);
    assert HoldsAt(PopulatedAll(m, Tuples(writes[..i + 1])), LoggedAll(log, writes[..i + 1]), writes[i].0);
  }

  /** After a response with a version, the store holds the writes it held and those of the version. */
  lemma ReceiveKeepsWrites(m: Store, log: Log, key: Key, l: CrossCausal, ws: set<Write>)
    requires Holds(m, log) && MergeOf(l, ws) && Identified(Of(log, key) + ws)
    ensures Holds(Received(m, key, l), Logged(log, key, ws))
  {
    PopulatedHolds(m, log, key, l, ws);
    var u, log' := Populated(m, key, l), Logged(log, key, ws);
    assert HoldsAt(u, log', key);
    MergeOfNothing(u[key], Of(log', key));
    forall k ensures HoldsAt(Received(m, key, l), log', k) {
      assert HoldsAt(u, log', k);
    }
  }

  lemma MergedCutHoldsAt(cut: Store, log: Log, entries: Store, more: Log, k: Key)
    requires HoldsAt(cut, log, k) && HoldsAt(entries, more, k) && Identified(Of(log, k) + Of(more, k))
    ensures HoldsAt(MergedCut(cut, entries), Both(log, more), k)
  {
    var wc, we := Of(log, k), Of(more, k);
    PartIdentified(we, wc + we);
    if k in entries {
      MergeOfNothing(entries[k], we);
    }
    if k in cut && k in Live(entries) {
      MergeOfBoth(cut[k], wc, entries[k], we);
    } else {
      assert we == {} ==> wc + we == wc;
      assert wc == {} ==> wc + we == we;
    }
  }

  /** After a chain is merged, the cut holds the writes it held and those of the chain. */
  lemma CutKeepsWrites(cut: Store, log: Log, entries: Store, more: Log)
    requires Holds(cut, log) && Holds(entries, more) && AllIdentified(Both(log, more))
    ensures Holds(MergedCut(cut, entries), Both(log, more))
  {
    forall k ensures HoldsAt(MergedCut(cut, entries), Both(log, more), k) {
      assert HoldsAt(cut, log, k) && HoldsAt(entries, more, k);
      assert Identified(Of(Both(log, more), k));
      MergedCutHoldsAt(cut, log, entries, more, k);
    }
  }
}
