/**
  The causal cache: a state machine that reads, writes, responses of the
  key-value store and a periodic migration drive in any order.  Versions are
  collected in chains, one per head key, until all their dependencies are at
  hand; complete chains move to the causal cut, from which clients read.
 */
module CausalCaches {
  import opened Clocks
  import opened CausalLattices
  import opened CacheModel
  import opened CacheInvariants
  import opened CausalFrontiers
  import opened CacheReads
  import opened CacheClients

  datatype Option<T> = None | Some(value: T)

  /** What a step may add to: the cut, the answers, what is asked of other caches, and the work at hand. */
  datatype Snap = Snap(cut: Store, pending: map<Address, Pending>, replies: seq<Reply>, sent: set<Ask>, work: Work,
                       asked: set<Key>)

  /** The cut, the answers and the requests to other caches only grow, and nobody stops waiting without an answer. */
  ghost predicate Extends(s: Snap, s': Snap) {
    && Dominates(s'.cut, s.cut) && s.cut.Keys <= s'.cut.Keys && s.replies <= s'.replies && s.sent <= s'.sent
    && forall a | a in s.pending && a !in s'.pending :: AnsweredSince(s, s', a)
  }

  ghost predicate AnsweredSince(s: Snap, s': Snap, a: Address) {
    exists i :: |s.replies| <= i < |s'.replies| && s'.replies[i].to == a
  }

  /** Moreover, what is newly waited for has been asked for, and nothing that is waited for is given up. */
  ghost predicate Advance(s: Snap, s': Snap) {
    Extends(s, s') && AsksMore(s.work, s.asked, s'.work, s'.asked)
  }

  /** The same, while nobody new waits. */
  ghost predicate Progress(s: Snap, s': Snap) {
    Advance(s, s') && Fewer(s.pending, s.replies, s'.pending, s'.replies)
  }

  /** The same, although something that was waited for may have arrived. */
  ghost predicate Onward(s: Snap, s': Snap) {
    Extends(s, s') && Asks(s.work, s.asked, s'.work, s'.asked) && Fewer(s.pending, s.replies, s'.pending, s'.replies)
  }

  lemma OnwardAfter(a: Snap, b: Snap, c: Snap)
    requires Progress(a, b) && Onward(b, c)
    ensures Onward(a, c)
  {
    ExtendsTransitive(a, b, c);
    AsksTransitive(a.work, a.asked, b.work, b.asked, c.work, c.asked);
    FewerTransitive(a.pending, a.replies, b.pending, b.replies, c.pending, c.replies);
  }

  lemma ExtendsTransitive(a: Snap, b: Snap, c: Snap)
    requires Extends(a, b) && Extends(b, c)
    ensures Extends(a, c)
  {
    forall k, n ensures Tick(a.cut, k, n) <= Tick(c.cut, k, n) {
      assert Tick(a.cut, k, n) <= Tick(b.cut, k, n) <= Tick(c.cut, k, n);
    }
    forall x | x in a.pending && x !in c.pending ensures AnsweredSince(a, c, x) {
      if x in b.pending {
        assert AnsweredSince(b, c, x);
      } else {
        assert AnsweredSince(a, b, x);
        var i :| |a.replies| <= i < |b.replies| && b.replies[i].to == x;
        assert c.replies[i] == b.replies[i];
      }
    }
  }

  lemma AdvanceTransitive(a: Snap, b: Snap, c: Snap)
    requires Advance(a, b) && Advance(b, c)
    ensures Advance(a, c)
  {
    ExtendsTransitive(a, b, c);
    AsksMoreTransitive(a.work, a.asked, b.work, b.asked, c.work, c.asked);
  }

  lemma ProgressTransitive(a: Snap, b: Snap, c: Snap)
    requires Progress(a, b) && Progress(b, c)
    ensures Progress(a, c)
  {
    AdvanceTransitive(a, b, c);
    FewerTransitive(a.pending, a.replies, b.pending, b.replies, c.pending, c.replies);
  }

  /** A step that answers those who stop waiting and starts no chain awaited by anybody new. */
  lemma ProgressIf(s: Snap, s': Snap)
    requires Dominates(s'.cut, s.cut) && s.cut.Keys <= s'.cut.Keys && s.sent <= s'.sent
    requires AsksMore(s.work, s.asked, s'.work, s'.asked) && Fewer(s.pending, s.replies, s'.pending, s'.replies)
    ensures Progress(s, s')
  {
    forall a | a in s.pending && a !in s'.pending ensures AnsweredSince(s, s', a) {
      assert RepliedSince(s.replies, s'.replies, a, s.pending[a].readSet);
    }
  }

  /** Unmerged versions have a clock, except those of blank keys. */
  predicate AllNamed(unmerged: Store, blank: set<Key>) {
    forall k | k in unmerged :: unmerged[k].clock != map[] || k in blank
  }

  /** The keys that are written without a version. */
  function BlankOf(tuples: seq<(Key, CrossCausal)>): set<Key> {
    set i | 0 <= i < |tuples| && tuples[i].1.clock == map[] :: tuples[i].0
  }

  lemma PopulatedNamed(unmerged: Store, blank: set<Key>, key: Key, l: CrossCausal)
    requires AllNamed(unmerged, blank) && (l.clock == map[] ==> key in blank)
    ensures AllNamed(Populated(unmerged, key, l), blank)
  {
    if key in unmerged && unmerged[key].clock != map[] {
      CausalMergeIsJoin(unmerged[key], l);
      var n :| n in unmerged[key].clock;
      assert n in Populated(unmerged, key, l)[key].clock;
    } else if key in unmerged {
      CausalMergeIsJoin(unmerged[key], l);
      if l.clock != map[] {
        var n :| n in l.clock;
        assert n in Populated(unmerged, key, l)[key].clock;
      }
    }
  }

  lemma {:induction false} PutsNamed(unmerged: Store, blank: set<Key>, tuples: seq<(Key, CrossCausal)>)
    ensures AllNamed(unmerged, blank) ==> AllNamed(PopulatedAll(unmerged, tuples), blank + BlankOf(tuples))
  {
    if tuples != [] && AllNamed(unmerged, blank) {
      var n := |tuples| - 1;
      PutsNamed(unmerged, blank, tuples[..n]);
      assert forall i | 0 <= i < n :: tuples[..n][i] == tuples[i];
      assert BlankOf(tuples[..n]) <= BlankOf(tuples);
      PopulatedNamed(PopulatedAll(unmerged, tuples[..n]), blank + BlankOf(tuples), tuples[n].0, tuples[n].1);
    }
  }

  lemma ReceivedNamed(unmerged: Store, blank: set<Key>, key: Key, l: CrossCausal)
    ensures AllNamed(unmerged, blank) ==> AllNamed(Received(unmerged, key, l), blank)
  {
  }

  lemma MergedKeepsKeys(cut: Store, entries: Store)
    ensures cut.Keys <= MergedCut(cut, entries).Keys
  {
  }

  /** The head of a complete chain is in the cut, or missing. */
  lemma HeadSettles(cut: Store, head: Key, entries: Store)
    requires head in entries
    ensures head in MergedCut(cut, entries) || head in Gone(head, entries)
  {
  }

  /** The requests of one firing reach a cache for every key that has an addressee. */
  lemma AsksReachAll(cut: Store, m: Pending, asks: set<Ask>, sent: set<Ask>)
    requires AsksFor(cut, m, m.readSet, asks)
    ensures AskedAll(cut, m, sent + asks) && (RemoteKeys(cut, m) == {} ==> asks == {})
  {
    forall k | k in RemoteKeys(cut, m) && (k in cut || SeenNewer(m.prior, k, map[]))
      ensures exists q :: q in sent + asks && q.id == m.clientId && q.key == k
    {
      AddresseeIff(cut, m, asks, k);
      var q :| q in asks && q.key == k;
      assert q in sent + asks;
    }
    assert forall q | q in asks :: q.key in RemoteKeys(cut, m);
  }

  /** What holds between messages. */
  ghost predicate StateOk(unmerged: Store, cut: Store, w: Work, d: Desk) {
    Core(unmerged, cut, w) && (forall h :: Resting(cut, w, h)) && ClientsOk(d, w.chains)
  }

  /** One answered clock is erased from the cover map. */
  ghost function Erased(w: Work, key: Key, v: Clock): Work
    requires key in w.cover
  {
    w.(cover := w.cover[key := w.cover[key] - {v}])
  }

  lemma ErasedServing(unmerged: Store, cut: Store, w: Work, d: Desk, key: Key, l: CrossCausal,
                      heads: set<Key>, todo: set<Key>, stale: set<Clock>, v: Clock)
    requires ServingState(unmerged, cut, w, d, key, l, heads, todo, stale) && key in w.cover && v in stale
    ensures ServingState(unmerged, cut, Erased(w, key, v), d, key, l, heads, todo, stale - {v})
    ensures forall asked :: AsksMore(w, asked, Erased(w, key, v), asked)
  {
    EraseStale(w, key, stale, v);
  }

  lemma OneLessLeft(todo: set<Key>, batch: set<Key>, rest: set<Key>, head: Key)
    requires head in rest && rest <= batch
    ensures todo - (batch - rest) - {head} == todo - (batch - (rest - {head}))
  {
  }

  /** One more version in the unmerged store. */
  lemma StoredOk(before: Store, unmerged: Store, cut: Store, w: Work, d: Desk, key: Key, l: CrossCausal)
    requires StateOk(unmerged, cut, w, d) && PositiveDeps(l) && Dominates(unmerged, before)
    ensures StateOk(Populated(unmerged, key, l), cut, w, d) && Dominates(Populated(unmerged, key, l), before)
  {
    UnmergedGrows(unmerged, cut, w, key, l);
    forall k, n ensures Tick(before, k, n) <= Tick(Populated(unmerged, key, l), k, n) {
      assert Tick(before, k, n) <= Tick(unmerged, k, n) <= Tick(Populated(unmerged, key, l), k, n);
    }
  }

  lemma OneMoreGone(all: set<Address>, left: set<Address>, a: Address)
    ensures a in left && left <= all ==> all - (left - {a}) == all - left + {a}
  {
  }

  /** A version that exists is in the cut once its chain is complete. */
  lemma SettledIsHere(cut: Store, w: Work, key: Key, l: CrossCausal)
    requires Settled(cut, w, key, key, l) && key !in w.chains
    ensures l.clock != map[] ==> key in cut
  {
    if l.clock != map[] {
      var n :| n in l.clock;
      assert At(l.clock, n) <= Tick(cut, key, n);
    }
  }

  lemma DeskChanged(unmerged: Store, cut: Store, w: Work, d: Desk, d': Desk)
    requires StateOk(unmerged, cut, w, d) && ClientsOk(d', w.chains)
    ensures StateOk(unmerged, cut, w, d')
  {
  }

  /** Whatever a chain waits for has a request in flight. */
  ghost predicate AllRequested(s: Snap) {
    s.work.cover.Keys <= s.asked && Unstarted(s.work.chains) <= s.asked
  }

  lemma AdvanceKeepsRequested(s: Snap, s': Snap)
    requires Advance(s, s') && AllRequested(s)
    ensures AllRequested(s') && Extends(s, s')
  {
  }

  /** After a response for `key`, what still waits for the key has a new request in flight. */
  lemma ResponseKeepsRequested(s: Snap, s': Snap, key: Key)
    requires AllRequested(s) && Onward(s.(asked := s.asked - {key}), s')
    requires key in s'.work.cover || key in Unstarted(s'.work.chains) ==> key in s'.asked
    ensures AllRequested(s') && Extends(s, s')
  {
    forall a | a in s.pending && a !in s'.pending ensures AnsweredSince(s, s', a) {
      assert AnsweredSince(s.(asked := s.asked - {key}), s', a);
    }
  }

  /**
    The fetch map and the cover map describe the same fetches, no complete chain is left over, and
    every chain waits for something that has been asked for.
   */
  ghost predicate NothingStuck(s: Snap) {
    && (forall h, d :: d in s.work.Fetching(h) <==> exists v :: Awaits(s.work.cover, d, v, h))
    && (forall h | h in s.work.chains && s.work.Entries(h) != map[] :: s.work.Fetching(h) != {})
    && (forall h | h in s.work.chains :: exists d :: d in s.asked && (d == h || d in s.work.Fetching(h)))
  }

  lemma ChainsAreServed(s: Snap)
    requires AllRequested(s) && forall h :: Resting(s.cut, s.work, h)
    ensures NothingStuck(s)
  {
    var w := s.work;
    forall h ensures Coupled(w, h) && (w.Entries(h) != map[] ==> w.Fetching(h) != {}) {
      assert Resting(s.cut, w, h);
    }
    forall h | h in w.chains ensures exists d :: d in s.asked && (d == h || d in w.Fetching(h)) {
      if w.Entries(h) == map[] {
        assert h in Unstarted(w.chains);
      } else {
        var d :| d in w.Fetching(h);
        assert exists v :: Awaits(w.cover, d, v, h);
      }
    }
  }

  /** A request that is recorded or answered advances the cache. */
  lemma AdmissionAdvances(s: Snap, pending: map<Address, Pending>, replies: seq<Reply>, sent: set<Ask>, a: Address)
    requires s.replies <= replies && s.sent <= sent && s.pending.Keys <= pending.Keys + {a}
    requires a in s.pending && a !in pending ==> |replies| > |s.replies| && replies[|s.replies|].to == a
    ensures Advance(s, s.(pending := pending, replies := replies, sent := sent))
  {
  }

  /** Whoever a response of another cache completes is answered. */
  lemma DeliveredExtends(s: Snap, s': Snap, d: Desk, d': Desk, done: set<Address>, tuples: seq<(Key, CrossCausal)>)
    requires Delivered(d, d', done, tuples) && d.pending == s.pending && d'.pending == s'.pending
    requires d.replies == s.replies && d'.replies == s'.replies && s'.cut == s.cut && s'.sent == s.sent
    ensures Extends(s, s')
  {
    forall a | a in s.pending && a !in s'.pending ensures AnsweredSince(s, s', a) {
      assert JoinedAt(d, d', a, tuples);
    }
  }

  /** The last clock awaited of a key is gone, or the key is asked for again. */
  lemma OnwardDropping(s: Snap, s': Snap, key: Key)
    requires Progress(s, s')
    ensures Onward(s, s'.(work := s'.work.(cover := s'.work.cover - {key})))
    ensures Onward(s, s'.(asked := s'.asked + {key}))
  {
  }

  lemma DroppedCoverOk(unmerged: Store, cut: Store, w: Work, d: Desk, key: Key)
    requires StateOk(unmerged, cut, w, d) && key in w.cover && w.cover[key] == map[] && Caught(unmerged, w, key)
    ensures StateOk(unmerged, cut, w.(cover := w.cover - {key}), d)
    ensures Caught(unmerged, w.(cover := w.cover - {key}), key)
  {
    DropEmptyCover(cut, w, key);
  }

  /** The chain of `key` lists one more address. */
  ghost function Listing(w: Work, key: Key, a: Address): Work
    requires key in w.chains
  {
    WithChain(w, key, w.chains[key].(waiting := w.chains[key].waiting + {a}))
  }

  lemma ListingOk(unmerged: Store, cut: Store, w: Work, d: Desk, key: Key, a: Address)
    requires StateOk(unmerged, cut, w, d) && key in w.chains && (a in d.repeated || a in d.busy)
    ensures StateOk(unmerged, cut, Listing(w, key, a), d)
  {
    var w' := Listing(w, key, a);
    ListingKeepsClients(d, w.chains, w'.chains, a);
    BelowWithChain(unmerged, w, key, w'.chains[key]);
    forall h ensures Resting(cut, w', h) {
      WaitingIsHarmless(cut, w, key, w'.chains[key], h);
    }
  }

  lemma ListingLists(s: Snap, key: Key, a: Address)
    requires key in s.work.chains
    ensures var w' := Listing(s.work, key, a);
            && ChainsKept(s.work.chains, w'.chains) && ListsNewly(s.work.chains, w'.chains, {key}, a)
            && Advance(s, s.(work := w'))
  {
  }

  /** The chain of `key` is awaited by one address, and has no version yet. */
  ghost function Awaiting(w: Work, key: Key, a: Address): Work {
    WithNewChain(w, key, Chain({a}, map[]))
  }

  lemma AwaitingOk(unmerged: Store, cut: Store, w: Work, d: Desk, key: Key, a: Address)
    requires StateOk(unmerged, cut, w, d) && key !in w.chains && (a in d.repeated || a in d.busy)
    ensures StateOk(unmerged, cut, Awaiting(w, key, a), d)
  {
    ListingKeepsClients(d, w.chains, Awaiting(w, key, a).chains, a);
    EmptyChainRests(unmerged, cut, w, key, Chain({a}, map[]));
  }

  lemma AwaitingLists(s: Snap, key: Key, a: Address)
    requires key !in s.work.chains
    ensures var w' := Awaiting(s.work, key, a);
            && ChainsKept(s.work.chains, w'.chains) && ListsNewly(s.work.chains, w'.chains, {key}, a)
            && Advance(s, s.(work := w', asked := s.asked + {key}))
  {
  }

  /** The first `n` keys are awaited, in the client's frontier, in the cut or blank. */
  ghost predicate Arranged(keys: seq<Key>, n: nat, toCover: set<Key>, frontier: set<Key>, here: set<Key>, blank: set<Key>)
    requires n <= |keys|
  {
    forall j | 0 <= j < n :: keys[j] in toCover || keys[j] in frontier || keys[j] in here || keys[j] in blank
  }

  lemma ArrangedNext(keys: seq<Key>, n: nat, toCover: set<Key>, frontier: set<Key>, here: set<Key>, here': set<Key>,
                     blank: set<Key>, covered: bool)
    requires n < |keys| && Arranged(keys, n, toCover, frontier, here, blank) && here <= here'
    requires covered ==> keys[n] in frontier || keys[n] in here' || keys[n] in blank
    ensures Arranged(keys, n + 1, if covered then toCover else toCover + {keys[n]}, frontier, here', blank)
  {
  }

  /** The first `n` keys are arranged, and the chains of those awaited list the address, and no other chain newly. */
  ghost predicate Covering(before: map<Key, Chain>, chains: map<Key, Chain>, a: Address, toCover: set<Key>, keys: seq<Key>,
                           n: nat, frontier: set<Key>, here: set<Key>, blank: set<Key>)
    requires n <= |keys|
  {
    && ChainsKept(before, chains) && ListsAll(chains, toCover, a) && ListsNewly(before, chains, toCover, a)
    && Arranged(keys, n, toCover, frontier, here, blank)
  }

  lemma CoveringNext(before: map<Key, Chain>, chains: map<Key, Chain>, chains': map<Key, Chain>, a: Address, toCover: set<Key>,
                     keys: seq<Key>, n: nat, frontier: set<Key>, here: set<Key>, here': set<Key>, blank: set<Key>,
                     covered: bool)
    requires n < |keys| && Covering(before, chains, a, toCover, keys, n, frontier, here, blank) && here <= here'
    requires ChainsKept(chains, chains') && ListsNewly(chains, chains', if covered then {} else {keys[n]}, a)
    requires if covered then keys[n] in frontier || keys[n] in here' || keys[n] in blank
             else keys[n] in chains' && a in chains'[keys[n]].waiting
    ensures Covering(before, chains', a, if covered then toCover else toCover + {keys[n]}, keys, n + 1, frontier, here', blank)
  {
    var more := if covered then {} else {keys[n]};
    ListsTransitive(before, chains, chains', toCover, more, a);
    assert toCover + more == if covered then toCover else toCover + {keys[n]};
    ArrangedNext(keys, n, toCover, frontier, here, here', blank, covered);
  }

  /** A request whose keys are arranged is placed, when the keys of the frontier are remembered with a version. */
  lemma ArrangedIsPlaced(d: Desk, m: Pending, keys: seq<Key>, toCover: set<Key>, frontier: set<Key>)
    requires m.readSet == SetOf(keys) && Arranged(keys, |keys|, toCover, frontier, d.here, d.blank)
    requires forall k | k in frontier && k !in d.blank :: SeenNewer(m.prior, k, map[])
    ensures Placed(d, m.(toCover := toCover))
  {
    forall k | k in m.readSet ensures k in toCover || k in frontier || k in d.here || k in d.blank {
      var j :| 0 <= j < |keys| && keys[j] == k;
    }
  }

  /** The state while answered heads are served; `stale` are the answered clocks not yet erased. */
  ghost predicate ServingState(unmerged: Store, cut: Store, w: Work, d: Desk, key: Key, l: CrossCausal,
                               heads: set<Key>, todo: set<Key>, stale: set<Clock>)
  {
    && key in unmerged && unmerged[key] == l
    && (forall v | v in stale :: Leq(v, l.clock))
    && Answering(unmerged, cut, View(w, key, stale), key, l, heads, todo)
    && Caught(unmerged, View(w, key, stale), key)
    && ClientsOk(d, w.chains)
  }

  /**
    What the arrival of version `l` of `key` does.  The version is in the unmerged store unless it
    stands for a missing key, and whoever could be served by it has been.  The chain that a client
    waited for without a version is complete when all that its version depends on is at hand; and when
    the chain is complete, those who waited for it only have been answered or wait for other caches.
   */
  ghost predicate Arrived(unmerged: Store, cut: Store, chains: map<Key, Chain>, d: Desk, unmerged': Store, w': Work, d': Desk,
                          key: Key, l: CrossCausal)
  {
    && unmerged' == Received(unmerged, key, l) && Caught(unmerged', w', key)
    && (key in Unstarted(chains) && Obtainable(cut, Populated(unmerged, key, l), chains, key) ==> key !in w'.chains)
    && (key !in w'.chains ==> AllMovedOn(d, d', key))
  }

  /** A step of one head that has a chain starts no other chain. */
  lemma NoOtherChains(head: Key, w: Work, w': Work)
    requires OthersSame(head, w, w') && head in w.chains
    ensures w'.chains.Keys <= w.chains.Keys
  {
    forall h | h in w'.chains ensures h in w.chains {
      if h != head { assert SameFor(h, w, w'); }
    }
  }

  /** The values of all that the handlers change. */
  datatype State = State(unmerged: Store, snap: Snap, desk: Desk, versions: map<string, Store>, puts: seq<(Key, CrossCausal)>,
                         keySet: set<Key>)

  /** What each event does, apart from the invariants that it keeps. */
  ghost predicate Effect(c: State, e: Event, c': State) {
    match e
    case Get(addr, id, keys, seen, future) =>
      && c'.unmerged == c.unmerged && c'.keySet == c.keySet + SetOf(keys)
      && Outcome(c'.snap, c'.versions, |c.snap.replies|, addr, id, SetOf(keys), seen, FutureOf(c.snap.pending, addr) + future,
                 addr !in c.snap.pending)
      && (addr !in c.snap.pending && AllHere(c.snap.cut, keys, seen) ==> addr !in c'.snap.pending)
    case Put(versions) =>
      && c'.unmerged == PopulatedAll(c.unmerged, versions) && c'.puts == c.puts + SentOn(c.unmerged, versions)
      && c'.snap == c.snap && c'.versions == c.versions
    case Response(key, version) =>
      && ArrivedIn(c, c', key, OrMissing(version))
      && (!AwaitedIn(c, key) ==> c'.snap == c.snap.(asked := c.snap.asked - {key}))
    case Update(key, latest) =>
      if key in c.keySet then ArrivedIn(c, c', key, latest) && (!AwaitedIn(c, key) ==> c'.snap == c.snap) else c' == c
    case Timeout(key) => c' == c.(snap := c.snap.(asked := c.snap.asked + {key}))
    case Migration =>
      c'.unmerged == c.unmerged && forall k | k in c.unmerged :: Migrated(c'.snap.cut, c'.snap.work, k, c.unmerged[k].clock)
    case CollectVersions(id) => c' == c.(versions := c.versions - {id})
    case VersionedRequest(_, _) => c' == c
    case VersionedResponse(id, tuples) =>
      && c'.unmerged == c.unmerged && c'.versions == c.versions
      && Delivered(c.desk, c'.desk, ListedFor(c.desk.clients, id), tuples)
      && c'.desk.clients == Delist(c.desk.clients, id, c.desk.pending.Keys - c'.desk.pending.Keys)
  }

  ghost predicate ArrivedIn(c: State, c': State, key: Key, l: CrossCausal) {
    Arrived(c.unmerged, c.snap.cut, c.snap.work.chains, c.desk, c'.unmerged, c'.snap.work, c'.desk, key, l)
  }

  /** Some chain waits for a version of `key`. */
  ghost predicate AwaitedIn(c: State, key: Key) {
    key in c.snap.work.cover || key in Unstarted(c.snap.work.chains)
  }

  /** The version that a response carries; one without a clock when the key does not exist. */
  function OrMissing(version: Option<CrossCausal>): CrossCausal { if version.Some? then version.value else BOTTOM }

  class CausalCache {
    var unmerged: Store
    var inPreparation: map<Key, Chain>
    var cut: Store
    var toFetch: FetchMap
    var cover: CoverMap
    /** The keys with a request to the key-value store in flight. */
    var asked: set<Key>
    var versions: map<string, Store>
    var pending: map<Address, Pending>
    /** The addresses at which a client waits for other caches. */
    var clients: map<string, set<Address>>
    /** The requests sent to other caches. */
    var sent: set<Ask>
    var replies: seq<Reply>

    var puts: seq<(Key, CrossCausal)>
    var keySet: set<Key>

    /** The address whose request is being admitted, and the addresses that have not waited for their answers. */
    ghost var busy: set<Address>
    ghost var repeated: set<Address>
    /** The keys that clients have written or reported without a version. */
    ghost var blank: set<Key>

    ghost function W(): Work
      reads this
    {
      Work(inPreparation, toFetch, cover)
    }

    ghost function D(): Desk
      reads this`pending, this`clients, this`sent, this`replies, this`cut, this`busy, this`repeated, this`blank
    {
      Desk(pending, clients, sent, replies, cut.Keys, busy, repeated, blank)
    }

    ghost function S(): Snap
      reads this
    {
      Snap(cut, pending, replies, sent, W(), asked)
    }

    /** All that the handlers change. */
    ghost function C(): State
      reads this
    {
      State(unmerged, S(), D(), versions, puts, keySet)
    }

    ghost predicate Valid()
      reads this
    {
      StateOk(unmerged, cut, W(), D())
    }

    /** The cache starts empty. */
    constructor ()
      ensures Valid() && Idle() && cut == map[] && unmerged == map[] && inPreparation == map[] && replies == []
      ensures repeated == {} && blank == {}
    {
      unmerged, inPreparation, cut, toFetch, cover := map[], map[], map[], map[], map[];
      asked, versions, pending, clients, replies, puts, keySet := {}, map[], map[], map[], [], [], {};
      sent, busy, repeated, blank := {}, {}, {}, {};
    }

    /** Any version of `key` in some chain that reaches `v`. */
    method FindInPreparation(key: Key, v: Clock) returns (r: Option<CrossCausal>)
      ensures r.None? ==> forall h | h in inPreparation :: !Supplies(inPreparation[h].entries, key, v)
      ensures r.Some? ==> exists h :: h in inPreparation && Supplies(inPreparation[h].entries, key, v)
                                   && r.value == inPreparation[h].entries[key]
    {
      r := None;
      var todo := inPreparation.Keys;
      while todo != {}
        invariant todo <= inPreparation.Keys
        invariant forall h | h in inPreparation && h !in todo :: !Supplies(inPreparation[h].entries, key, v)
        decreases todo
      {
        var h :| h in todo;
        var entries := inPreparation[h].entries;
        if key in entries && Comparison(entries[key].clock, v) == GreaterOrEqual {
          return Some(entries[key]);
        }
        todo := todo - {h};
      }
    }

    /** Adds `l` to the chain of `head`; tells whether that raised anything. */
    method PopulateInPreparation(head: Key, dep: Key, l: CrossCausal) returns (grew: bool)
      modifies this`inPreparation
      ensures grew ==> W() == WithEntries(old(W()), head, Populated(old(W()).Entries(head), dep, l))
      ensures !grew ==> W() == old(W())
      ensures grew <==> !(dep in old(W()).Entries(head) && Leq(l.clock, old(W()).Entries(head)[dep].clock))
    {
      var chain := if head in inPreparation then inPreparation[head] else Chain({}, map[]);
      if dep !in chain.entries {
        inPreparation := inPreparation[head := chain.(entries := chain.entries[dep := l])];
        return true;
      }
      match Comparison(chain.entries[dep].clock, l.clock) {
        case Less =>
          inPreparation := inPreparation[head := chain.(entries := chain.entries[dep := l])];
          return true;
        case Concurrent =>
          var merged := CausalMerge(chain.entries[dep], l);
          inPreparation := inPreparation[head := chain.(entries := chain.entries[dep := merged])];
          return true;
        case GreaterOrEqual =>
          return false;
      }
    }

    /** The versions of `key` outside the cut. */
    ghost function VersionsOf(key: Key): set<CrossCausal>
      reads this
    {
      (set h | h in inPreparation && key in inPreparation[h].entries :: inPreparation[h].entries[key]) +
      if key in unmerged then {unmerged[key]} else {}
    }

    /** The chain of `h` has a version of `key` that reaches `v`. */
    ghost predicate HoldsIn(h: Key, key: Key, v: Clock)
      reads this`inPreparation
    {
      h in inPreparation && Supplies(inPreparation[h].entries, key, v)
    }

    /** Any local version of `dep` that reaches `v`: from a chain if there is one, else from the unmerged store. */
    method FindLocally(dep: Key, v: Clock) returns (r: Option<CrossCausal>)
      requires ChainsBelow(unmerged, W()) && AllPositive(unmerged)
      ensures r.None? ==> !Supplies(unmerged, dep, v)
      ensures r.None? && v == map[] ==> VersionsOf(dep) == {}
      ensures (exists h :: HoldsIn(h, dep, v)) ==>
                r.Some? && exists h :: HoldsIn(h, dep, v) && r.value == inPreparation[h].entries[dep]
      ensures r.Some? ==> r.value in VersionsOf(dep)
      ensures r.Some? && r.value.clock == map[] && dep !in inPreparation ==> dep in unmerged && r.value == unmerged[dep]
      ensures r.Some? ==> Leq(v, r.value.clock) && PositiveDeps(r.value)
      ensures r.Some? ==> forall n :: At(r.value.clock, n) <= Tick(unmerged, dep, n)
    {
      r := FindInPreparation(dep, v);
      if r.Some? {
        ghost var h :| h in inPreparation && Supplies(inPreparation[h].entries, dep, v)
                                   && r.value == inPreparation[h].entries[dep];
        assert W().Entries(h) == inPreparation[h].entries && HoldsIn(h, dep, v);
        forall n ensures At(r.value.clock, n) <= Tick(unmerged, dep, n) {
          assert Tick(W().Entries(h), dep, n) <= Tick(unmerged, dep, n);
        }
      } else if dep in unmerged && Comparison(unmerged[dep].clock, v) == GreaterOrEqual {
        r := Some(unmerged[dep]);
      }
    }

    /** Asks the key-value store for `dep` on behalf of `head`. */
    method Fetch(head: Key, dep: Key, v: Clock)
      modifies this`toFetch, this`cover, this`asked
      ensures W() == WithFetch(old(W()), head, dep, v)
      ensures asked == old(asked) + {dep}
    {
      var byClock := if dep in cover then cover[dep] else map[];
      var heads := if v in byClock then byClock[v] else {};
      toFetch := toFetch[head := (if head in toFetch then toFetch[head] else {}) + {dep}];
      cover := cover[dep := byClock[v := heads + {head}]];
      asked := asked + {dep};
    }

    method CheckDependency(head: Key, dep: Key, v: Clock, ghost ks: set<Key>)
      requires v != map[] && ChainsBelow(unmerged, W()) && AllPositive(unmerged)
      modifies this`inPreparation, this`toFetch, this`cover, this`asked
      ensures Checked(cut, unmerged, head, old(W()), W())
      ensures forall n :: Met(cut, W(), head, dep, n, At(v, n))
      ensures Supplies(cut, dep, v) ==> W() == old(W()) && asked == old(asked)
      ensures AsksMore(old(W()), old(asked), W(), asked)
      ensures Undisturbed(cut, unmerged, ks, AtHand(cut, unmerged, ks, dep, v), old(W()), old(asked), W(), asked)
      decreases Missing(unmerged, W().Entries(head)), 1
    {
      ghost var w := W();
      if dep in cut && Comparison(cut[dep].clock, v) == GreaterOrEqual {
        CheckedReflexive(cut, unmerged, head, w);
        LeqIsPointwise(v, cut[dep].clock);
        return;
      }
      var found := FindLocally(dep, v);
      if found.Some? {
        CheckVersion(head, dep, v, found.value, ks);
      } else {
        FetchIsChecked(cut, unmerged, w, head, dep, v, asked, ks);
        Fetch(head, dep, v);
      }
    }

    method CheckVersion(head: Key, dep: Key, v: Clock, l: CrossCausal, ghost ks: set<Key>)
      requires v != map[] && ChainsBelow(unmerged, W()) && AllPositive(unmerged)
      requires Leq(v, l.clock) && PositiveDeps(l) && forall n :: At(l.clock, n) <= Tick(unmerged, dep, n)
      modifies this`inPreparation, this`toFetch, this`cover, this`asked
      ensures Checked(cut, unmerged, head, old(W()), W())
      ensures forall n :: Met(cut, W(), head, dep, n, At(v, n))
      ensures AsksMore(old(W()), old(asked), W(), asked)
      ensures Undisturbed(cut, unmerged, ks, DepsAtHand(cut, unmerged, ks, l), old(W()), old(asked), W(), asked)
      decreases Missing(unmerged, W().Entries(head)), 0
    {
      ghost var w := W();
      var grew := PopulateInPreparation(head, dep, l);
      if grew {
        PopulateReady(unmerged, w, head, dep, l, v, asked);
        RecursiveDependencyCheck(head, l, ks);
        PopulatedAndChecked(cut, unmerged, w, W(), head, dep, v, l, old(asked), asked, ks);
      } else {
        LeqTransitive(v, l.clock, w.Entries(head)[dep].clock);
        LeqIsPointwise(v, w.Entries(head)[dep].clock);
      }
    }

    /** One round of the loop below: checks the dependency of `lattice` on `dep`. */
    method CheckNext(head: Key, lattice: CrossCausal, dep: Key, todo: set<Key>, ghost w0: Work, ghost asked0: set<Key>,
                     ghost ks: set<Key>)
      requires PositiveDeps(lattice) && dep in todo && todo <= lattice.deps.Keys && AllPositive(unmerged)
      requires Probing(cut, unmerged, head, w0, asked0, W(), asked, lattice, todo)
      requires Undisturbed(cut, unmerged, ks, DepsAtHand(cut, unmerged, ks, lattice), w0, asked0, W(), asked)
      modifies this`inPreparation, this`toFetch, this`cover, this`asked
      ensures Probing(cut, unmerged, head, w0, asked0, W(), asked, lattice, todo - {dep})
      ensures Undisturbed(cut, unmerged, ks, DepsAtHand(cut, unmerged, ks, lattice), w0, asked0, W(), asked)
      decreases Missing(unmerged, W().Entries(head)), 2
    {
      ghost var w, asked1 := W(), asked;
      CheckDependency(head, dep, lattice.deps[dep], ks);
      ProbeNext(cut, unmerged, head, w0, asked0, w, asked1, W(), asked, lattice, todo, dep);
      UndisturbedTwice(cut, unmerged, ks, DepsAtHand(cut, unmerged, ks, lattice), w0, asked0, w, asked1, W(), asked);
    }

    method RecursiveDependencyCheck(head: Key, lattice: CrossCausal, ghost ks: set<Key>)
      requires PositiveDeps(lattice) && ChainsBelow(unmerged, W()) && AllPositive(unmerged)
      modifies this`inPreparation, this`toFetch, this`cover, this`asked
      ensures Checked(cut, unmerged, head, old(W()), W())
      ensures Supported(cut, W(), head, lattice)
      ensures SatisfiedBy(cut, lattice) ==> W() == old(W()) && asked == old(asked)
      ensures AsksMore(old(W()), old(asked), W(), asked)
      ensures Undisturbed(cut, unmerged, ks, DepsAtHand(cut, unmerged, ks, lattice), old(W()), old(asked), W(), asked)
      decreases Missing(unmerged, W().Entries(head)), 3
    {
      ghost var w, asked0 := W(), asked;
      StartProbing(cut, unmerged, head, w, asked, lattice);
      var todo := lattice.deps.Keys;
      while todo != {}
        invariant todo <= lattice.deps.Keys
        invariant Probing(cut, unmerged, head, w, asked0, W(), asked, lattice, todo)
        invariant Undisturbed(cut, unmerged, ks, DepsAtHand(cut, unmerged, ks, lattice), w, asked0, W(), asked)
        decreases todo
      {
        var dep :| dep in todo;
        MissingShrinks(unmerged, w.Entries(head), W().Entries(head));
        CheckNext(head, lattice, dep, todo, w, asked0, ks);
        todo := todo - {dep};
      }
    }

    // ------------------------------------------------------------------ reading

    /** Depth-first search over the cut from `key`, pinning the versions that the client may read later. */
    method SaveVersions(id: string, key: Key, future: set<Key>, seen: set<Key>) returns (r: set<Key>)
      requires Closed(cut) && key in cut && seen <= cut.Keys
      modifies this`versions
      ensures r <= cut.Keys && Visited(cut, key, seen, r)
      ensures PinnedMore(old(versions), versions, id, cut, (r - seen) * future)
      decreases cut.Keys - seen
    {
      r := seen;
      if key in seen { return; }
      r := r + {key};
      if key in future {
        versions := versions[id := PinnedFor(versions, id)[key := cut[key]]];
      }
      ReachableSelf(cut, key);
      var todo := cut[key].deps.Keys;
      while todo != {}
        invariant todo <= cut[key].deps.Keys
        invariant Visiting(cut, key, seen, r, todo)
        invariant PinnedMore(old(versions), versions, id, cut, (r - seen) * future)
        decreases todo
      {
        var d :| d in todo;
        assert Supplies(cut, d, cut[key].deps[d]);
        ghost var before, vs := r, versions;
        r := SaveVersions(id, d, future, r);
        VisitNext(cut, key, seen, before, todo, d, r);
        PinnedMoreTwice(old(versions), vs, versions, id, cut, (before - seen) * future, (r - before) * future);
        assert (before - seen) * future + (r - before) * future == (r - seen) * future;
        todo := todo - {d};
      }
    }

    /** A cache that holds a newer version of `key` than `v`, if the client has read from one. */
    static method FindAddress(key: Key, v: Clock, prior: Prior) returns (r: Option<Address>)
      ensures r.Some? <==> SeenNewer(prior, key, v)
      ensures r.Some? ==> r.value in prior && key in prior[r.value] && Comparison(v, prior[r.value][key]) == Less
    {
      r := None;
      var todo := prior.Keys;
      while todo != {}
        invariant todo <= prior.Keys
        invariant forall a | a in prior && a !in todo ::
                    !(key in prior[a] && Leq(v, prior[a][key]) && v != prior[a][key])
        decreases todo
      {
        var a :| a in todo;
        if key in prior[a] && Comparison(v, prior[a][key]) == Less {
          return Some(a);
        }
        todo := todo - {a};
      }
    }

    /** Decides which keys must be read from other caches, collects the versions read here, and pins versions for later. */
    method FireRemoteReads(m: Pending) returns (m': Pending, remote: bool, asks: set<Ask>, ghost pins: set<Key>)
      requires Closed(cut)
      modifies this`versions
      ensures remote <==> RemoteKeys(cut, m) != {}
      ensures m' == Fired(cut, m)
      ensures AsksFor(cut, m, m.readSet, asks)
      ensures IsPinSet(cut, m, m.readSet, pins)
      ensures PinnedMore(old(versions), versions, m.clientId, cut, pins)
    {
      remote, m', asks, pins := false, m, {}, {};
      var todo := m.readSet;
      ghost var done := {};
      FiredNothing(cut, m);
      while todo != {}
        invariant todo !! done && todo + done == m.readSet
        invariant Firing(cut, m, done, m', remote, asks)
        invariant IsPinSet(cut, m, done, pins)
        invariant PinnedMore(old(versions), versions, m.clientId, cut, pins)
        decreases todo
      {
        var key :| key in todo;
        m', remote, asks, pins := FireRemoteRead(m, key, done, m', remote, asks, old(versions), pins);
        todo, done := todo - {key}, done + {key};
      }
      assert done == m.readSet && RemoteKeys(cut, m) * done == RemoteKeys(cut, m);
    }

    /** Sorts one key of a request. */
    method FireRemoteRead(m: Pending, key: Key, ghost done: set<Key>, m1: Pending, remote: bool, asks: set<Ask>,
                          ghost before: map<string, Store>, ghost pins: set<Key>)
      returns (m': Pending, remote': bool, asks': set<Ask>, ghost pins': set<Key>)
      requires Closed(cut) && key in m.readSet && key !in done
      requires Firing(cut, m, done, m1, remote, asks)
      requires IsPinSet(cut, m, done, pins) && PinnedMore(before, versions, m.clientId, cut, pins)
      modifies this`versions
      ensures Firing(cut, m, done + {key}, m', remote', asks')
      ensures IsPinSet(cut, m, done + {key}, pins') && PinnedMore(before, versions, m.clientId, cut, pins')
    {
      m', remote', asks', pins' := m1, remote, asks, pins;
      PinSetSame(cut, m, done, pins, key);
      if key in m.missing {
        FiringMissing(cut, m, done, m1, remote, asks, key);
        m' := m1.(local := m1.local - {key}, absent := m1.absent + {key});
        return;
      }
      var address := FindAddress(key, if key in cut then cut[key].clock else map[], m.prior);
      if key !in cut || address.Some? {
        remote' := true;
        if address.Some? {
          asks' := asks + {Ask(address.value, m.clientId, key)};
          assert IsNewerAt(m.prior, address.value, key, ClockHere(cut, key));
        }
        FiringAway(cut, m, done, m1, remote, asks, key, asks');
        m' := m1.(remoteReadSet := m1.remoteReadSet + {key});
      } else {
        FiringHere(cut, m, done, m1, remote, asks, key);
        m' := m1.(local := m1.local[key := cut[key]]);
        pins' := PinFor(m, key, done, before, pins);
      }
    }

    /** Pins the versions that the client may read later along with a key that is read here. */
    method PinFor(m: Pending, key: Key, ghost done: set<Key>, ghost before: map<string, Store>, ghost pins: set<Key>)
      returns (ghost pins': set<Key>)
      requires Closed(cut) && key in cut && key !in m.missing && !NeedsRemote(cut, m.prior, key)
      requires IsPinSet(cut, m, done, pins) && PinnedMore(before, versions, m.clientId, cut, pins)
      modifies this`versions
      ensures IsPinSet(cut, m, done + {key}, pins') && PinnedMore(before, versions, m.clientId, cut, pins')
    {
      ghost var vs := versions;
      var seen := SaveVersions(m.clientId, key, m.futureReadSet, {});
      assert seen - {} == seen;
      SearchIsReachability(cut, key, seen);
      PinSetPlus(cut, m, done, pins, key, seen);
      pins' := pins + seen * m.futureReadSet;
      PinnedMoreTwice(before, vs, versions, m.clientId, cut, pins, seen * m.futureReadSet);
    }

    /** Answers a client whose keys are all in the cut or known not to exist. */
    method RespondToClient(addr: Address)
      requires addr in pending && RemoteKeys(cut, pending[addr]) == {}
      modifies this`pending, this`replies
      ensures pending == old(pending) - {addr}
      ensures |replies| == |old(replies)| + 1 && replies[..|old(replies)|] == old(replies)
      ensures Answers(replies[|old(replies)|], addr, old(pending)[addr], cut)
    {
      var m := pending[addr];
      var found: Store, missing: set<Key> := map[], {};
      var todo := m.readSet;
      while todo != {}
        invariant todo <= m.readSet
        invariant found == Restrict(cut, m.readSet - todo - m.missing)
        invariant missing == (m.readSet - todo) * m.missing
        decreases todo
      {
        var key :| key in todo;
        if key in m.missing {
          missing := missing + {key};
        } else {
          assert key !in RemoteKeys(cut, m);
          found := found[key := cut[key]];
        }
        todo := todo - {key};
      }
      forall k | k in m.readSet && k !in m.missing ensures k in cut && !SeenNewer(m.prior, k, cut[k].clock) {
        assert k !in RemoteKeys(cut, m);
      }
      assert found.Keys == m.readSet - m.missing;
      replies := replies + [Reply(addr, found, missing, map[], m.readSet, {}, m.seen)];
      pending := pending - {addr};
    }

    /** A client with nothing left to cover is answered, unless it must read from other caches. */
    method FinishClient(addr: Address, m: Pending) returns (ghost pins: set<Key>)
      requires Closed(cut)
      modifies this`pending, this`clients, this`sent, this`replies, this`versions
      ensures Finished(old(D()), D(), addr, m, cut)
      ensures IsPinSet(cut, m, m.readSet, pins) && PinnedMore(old(versions), versions, m.clientId, cut, pins)
      ensures PinsFor(versions, m, cut) && PinsGrow(old(versions), versions, cut)
    {
      var m', remote, asks;
      m', remote, asks, pins := FireRemoteReads(m);
      PinSetPinsAll(old(versions), versions, cut, m, pins);
      AsksReachAll(cut, m, asks, sent);
      SettleClient(addr, m, m', remote, asks);
    }

    /** Sends the requests to other caches, and answers the client when there are none. */
    method SettleClient(addr: Address, ghost m: Pending, m': Pending, remote: bool, asks: set<Ask>)
      requires m' == Fired(cut, m) && (remote <==> RemoteKeys(cut, m) != {})
      requires AskedAll(cut, m, sent + asks) && (!remote ==> asks == {})
      modifies this`pending, this`clients, this`sent, this`replies
      ensures Finished(old(D()), D(), addr, m, cut)
    {
      sent := sent + asks;
      pending := pending[addr := m'];
      if remote {
        clients := clients[m'.clientId := (if m'.clientId in clients then clients[m'.clientId] else {}) + {addr}];
      } else {
        FiredNeedsNoMore(cut, m);
        RespondToClient(addr);
      }
    }

    /** Tells one waiting client that chain `key` is in the cut; `absent` when the key turned out not to exist. */
    method NotifyClient(addr: Address, key: Key, absent: bool)
      requires Closed(cut)
      modifies this`pending, this`clients, this`sent, this`replies, this`versions
      ensures Notified(old(D()), D(), {addr}, key, if absent then {key} else {}, cut)
      ensures NotifiedPins(old(pending), old(versions), versions, {addr}, key, if absent then {key} else {}, cut)
    {
      if addr !in pending { return; }
      var m := pending[addr];
      if absent {
        m := m.(missing := m.missing + {key});
      }
      m := m.(toCover := m.toCover - {key});
      assert m == Covered(pending[addr], key, if absent then {key} else {});
      if m.toCover == {} {
        var pins := FinishClient(addr, m);
        FinishedIsNotified(old(D()), D(), addr, key, if absent then {key} else {}, cut);
      } else {
        pending := pending[addr := m];
      }
    }

    /** Merges one version of a chain into the cut. */
    method MergeEntry(k: Key, l: CrossCausal) returns (absent: bool)
      modifies this`cut
      ensures cut == Absorb(old(cut), k, l)
      ensures absent <==> l.clock == map[]
    {
      if Comparison(map[], l.clock) == Less {
        if k !in cut {
          cut := cut[k := l];
        } else {
          var order := Comparison(cut[k].clock, l.clock);
          if order == Less {
            cut := cut[k := l];
          } else if order == Concurrent {
            cut := cut[k := CausalMerge(cut[k], l)];
          }
        }
        return false;
      }
      return true;
    }

    /** Merges a chain into the cut; tells whether one of its versions stands for a missing key. */
    method MergeEntries(entries: Store) returns (absent: bool)
      modifies this`cut
      ensures cut == MergedCut(old(cut), entries)
      ensures absent <==> exists k | k in entries :: entries[k].clock == map[]
    {
      absent := false;
      MergedAll(cut, entries);
      var todo := entries.Keys;
      while todo != {}
        invariant todo <= entries.Keys
        invariant cut == MergedSome(old(cut), entries, entries.Keys - todo)
        invariant absent <==> exists k | k in entries && k !in todo :: entries[k].clock == map[]
        decreases todo
      {
        var k :| k in todo;
        MergedOneMore(old(cut), entries, entries.Keys - todo, k);
        var empty := MergeEntry(k, entries[k]);
        absent := absent || empty;
        assert entries.Keys - (todo - {k}) == entries.Keys - todo + {k};
        todo := todo - {k};
      }
      assert entries.Keys - todo == entries.Keys;
    }

    /** Tells all clients that waited for chain `key`. */
    method NotifyAll(waiting: set<Address>, key: Key, absent: bool)
      requires Closed(cut)
      modifies this`pending, this`clients, this`sent, this`replies, this`versions
      ensures Notified(old(D()), D(), waiting, key, if absent then {key} else {}, cut)
      ensures NotifiedPins(old(pending), old(versions), versions, waiting, key, if absent then {key} else {}, cut)
    {
      ghost var gone := if absent then {key} else {};
      var todo := waiting;
      ghost var told := {};
      while todo != {}
        invariant todo !! told && todo + told == waiting
        invariant Notified(old(D()), D(), told, key, gone, cut)
        invariant NotifiedPins(old(pending), old(versions), versions, told, key, gone, cut)
        decreases todo
      {
        var addr :| addr in todo;
        ghost var d, v := D(), versions;
        NotifyClient(addr, key, absent);
        NotifiedOneMore(old(D()), d, D(), told, addr, key, gone, cut);
        NotifiedPinsOneMore(old(pending), d.pending, old(versions), v, versions, told, addr, key, gone, cut);
        todo, told := todo - {addr}, told + {addr};
      }
      assert told == waiting;
    }

    /** Moves a complete chain into the cut, notifies its clients, and drops it. */
    method MergeIntoCausalCut(key: Key)
      requires Closed(MergedCut(cut, W().Entries(key)))
      modifies this`cut, this`inPreparation, this`pending, this`clients, this`sent, this`replies, this`versions
      ensures cut == MergedCut(old(cut), old(W()).Entries(key))
      ensures inPreparation == old(inPreparation) - {key}
      ensures var told := if key in old(inPreparation) then old(inPreparation)[key].waiting else {};
              var gone := Gone(key, old(W()).Entries(key));
              && Notified(old(D()), D(), told, key, gone, cut)
              && NotifiedPins(old(pending), old(versions), versions, told, key, gone, cut)
    {
      var chain := if key in inPreparation then inPreparation[key] else Chain({}, map[]);
      var absent := MergeEntries(chain.entries);
      MergedKeepsKeys(old(cut), chain.entries);
      ghost var d := D();
      NotifyAll(chain.waiting, key, absent);
      NotifiedSince(old(D()), d, D(), chain.waiting, key, Gone(key, chain.entries), cut);
      inPreparation := inPreparation - {key};
    }

    // ------------------------------------------------------------ preparing chains

    /** Moves a complete chain into the cut and forgets its fetches. */
    method FinishChain(head: Key)
      requires Closed(MergedCut(cut, W().Entries(head))) && head in W().Entries(head)
      modifies this`cut, this`inPreparation, this`toFetch, this`pending, this`clients, this`sent, this`replies, this`versions
      ensures cut == MergedCut(old(cut), old(W()).Entries(head)) && W() == Dropped(old(W()), head)
      ensures !old(ClientsOk(D(), inPreparation)) || ClientsOk(D(), inPreparation)
      ensures Fewer(old(pending), old(replies), pending, replies) && old(sent) <= sent
    {
      MergeIntoCausalCut(head);
      HeadSettles(old(cut), head, old(W()).Entries(head));
      ChainFinished(old(D()), D(), old(inPreparation), head, Gone(head, old(W()).Entries(head)), cut);
      toFetch := toFetch - {head};
    }

    /** Completes a checked chain when nothing is left to fetch. */
    method MergeIfComplete(head: Key, ghost key: Key, ghost l: CrossCausal, ghost stale: set<Clock>)
      requires Verified(unmerged, cut, View(W(), key, stale), head, key, l)
      modifies this`cut, this`inPreparation, this`toFetch, this`pending, this`clients, this`sent, this`replies, this`versions
      ensures Core(unmerged, cut, View(W(), key, stale))
      ensures Stepped(unmerged, head, old(cut), old(View(W(), key, stale)), cut, View(W(), key, stale))
      ensures Resting(cut, View(W(), key, stale), head)
      ensures Settled(cut, W(), head, key, l)
      ensures !old(ClientsOk(D(), inPreparation)) || ClientsOk(D(), inPreparation)
      ensures Fewer(old(pending), old(replies), pending, replies) && old(sent) <= sent && AsksMore(old(W()), asked, W(), asked)
      ensures old(W()).Fetching(head) == {} ==> head !in inPreparation
    {
      ghost var u := View(W(), key, stale);
      if toFetch[head] == {} {
        CompleteChain(unmerged, cut, u, head, key, l);
        assert u.Entries(head) == W().Entries(head);
        FinishChain(head);
        assert View(W(), key, stale) == Dropped(u, head);
      }
    }

    /** Checks the version `l` of `key` that `head` has been given. */
    method CheckGiven(head: Key, key: Key, l: CrossCausal, ghost stale: set<Clock>, ghost ks: set<Key>)
      requires Core(unmerged, cut, W()) && PositiveDeps(l)
      requires forall v | v in stale :: Supplies(unmerged, key, v) && Leq(v, l.clock)
      requires Given(cut, View(W(), key, stale), head, key, l)
      modifies this`inPreparation, this`toFetch, this`cover, this`asked
      ensures Verified(unmerged, cut, View(W(), key, stale), head, key, l)
      ensures Moved(unmerged, head, old(View(W(), key, stale)), View(W(), key, stale))
      ensures !old(ClientsOk(D(), inPreparation)) || ClientsOk(D(), inPreparation)
      ensures AsksMore(old(W()), old(asked), W(), asked)
      ensures Undisturbed(cut, unmerged, ks, DepsAtHand(cut, unmerged, ks, l), old(W()), old(asked), W(), asked)
    {
      ghost var w := W();
      CheckChain(head, key, l, stale, ks);
      ChecksKeepClients(unmerged, head, w, W(), D());
    }

    method CheckChain(head: Key, key: Key, l: CrossCausal, ghost stale: set<Clock>, ghost ks: set<Key>)
      requires Core(unmerged, cut, W()) && PositiveDeps(l)
      requires forall v | v in stale :: Supplies(unmerged, key, v) && Leq(v, l.clock)
      requires Given(cut, View(W(), key, stale), head, key, l)
      modifies this`inPreparation, this`toFetch, this`cover, this`asked
      ensures Verified(unmerged, cut, View(W(), key, stale), head, key, l)
      ensures Moved(unmerged, head, old(View(W(), key, stale)), View(W(), key, stale))
      ensures Grows(unmerged, head, old(W()), W()) && AsksMore(old(W()), old(asked), W(), asked)
      ensures Undisturbed(cut, unmerged, ks, DepsAtHand(cut, unmerged, ks, l), old(W()), old(asked), W(), asked)
    {
      ghost var w := W();
      RecursiveDependencyCheck(head, l, ks);
      CheckVerifies(unmerged, cut, w, W(), head, key, l, stale);
    }

    /**
      Checks the version `l` of `key` for `head`, and completes the chain when
      nothing is left to fetch.  `stale` are clocks of `key` that `l` answers
      but that are not yet erased from the cover map.  Nothing is left to fetch when nothing was
      fetched before and everything that `l` depends on is at hand.
     */
    method CheckAndMerge(head: Key, key: Key, l: CrossCausal, ghost stale: set<Clock>, ghost ks: set<Key>)
      requires Core(unmerged, cut, W()) && PositiveDeps(l)
      requires forall v | v in stale :: Supplies(unmerged, key, v) && Leq(v, l.clock)
      requires Given(cut, View(W(), key, stale), head, key, l)
      modifies this`cut, this`inPreparation, this`toFetch, this`cover, this`asked
      modifies this`pending, this`clients, this`sent, this`replies, this`versions
      ensures Core(unmerged, cut, View(W(), key, stale))
      ensures Stepped(unmerged, head, old(cut), old(View(W(), key, stale)), cut, View(W(), key, stale))
      ensures Resting(cut, View(W(), key, stale), head)
      ensures Settled(cut, W(), head, key, l)
      ensures !old(ClientsOk(D(), inPreparation)) || ClientsOk(D(), inPreparation)
      ensures Fewer(old(pending), old(replies), pending, replies) && old(sent) <= sent
      ensures AsksMore(old(W()), old(asked), W(), asked)
      ensures old(Attainable(cut, unmerged, W(), ks, head, l)) ==> head !in inPreparation
    {
      ghost var u0 := View(W(), key, stale);
      CheckGiven(head, key, l, stale, ks);
      ghost var u1, w1 := View(W(), key, stale), W();
      MergeIfComplete(head, key, l, stale);
      AsksMoreTransitive(old(W()), old(asked), w1, asked, W(), asked);
      SteppedAfter(unmerged, head, old(cut), u0, u1, cut, View(W(), key, stale));
    }

    /** A check of a version that the cut satisfies changes nothing. */
    method CheckSatisfied(head: Key, l: CrossCausal)
      requires PositiveDeps(l) && ChainsBelow(unmerged, W()) && AllPositive(unmerged) && SatisfiedBy(cut, l)
      modifies this`inPreparation, this`toFetch, this`cover, this`asked
      ensures W() == old(W()) && asked == old(asked)
    {
      RecursiveDependencyCheck(head, l, {});
    }

    /** Merging the chain of a key that has none changes nothing. */
    method MergeNoChain(head: Key)
      requires Closed(cut) && head !in inPreparation
      modifies this`cut, this`inPreparation, this`pending, this`clients, this`sent, this`replies, this`versions
      ensures inPreparation == old(inPreparation) && cut == old(cut)
      ensures replies == old(replies) && pending == old(pending) && old(sent) <= sent
      ensures !old(ClientsOk(D(), inPreparation)) || ClientsOk(D(), inPreparation)
    {
      MergeNothing(cut);
      MergeIntoCausalCut(head);
      NobodyTold(old(D()), D(), head, Gone(head, map[]), cut);
      assert inPreparation == old(inPreparation);
      if old(ClientsOk(D(), inPreparation)) {
        NotifiedClientsOk(old(D()), D(), old(inPreparation), head, Gone(head, map[]), cut);
      }
    }

    /** The same steps for a head that another clock completed earlier: they change nothing. */
    method CheckCompleted(head: Key, key: Key, l: CrossCausal)
      requires PositiveDeps(l) && Core(unmerged, cut, W())
      requires head !in inPreparation && head !in toFetch && SatisfiedBy(cut, l)
      modifies this`cut, this`inPreparation, this`toFetch, this`cover, this`asked
      modifies this`pending, this`clients, this`sent, this`replies, this`versions
      ensures W() == old(W()) && cut == old(cut) && asked == old(asked)
      ensures replies == old(replies) && pending == old(pending) && old(sent) <= sent
      ensures !old(ClientsOk(D(), inPreparation)) || ClientsOk(D(), inPreparation)
    {
      CheckSatisfied(head, l);
      toFetch := toFetch[head := {}];
      MergeNoChain(head);
      toFetch := toFetch - {head};
    }

    /** Puts the first version into the chain of `key`. */
    method PutFirst(key: Key, l: CrossCausal)
      requires Core(unmerged, cut, W()) && ClientsOk(D(), inPreparation)
      requires key in toFetch && toFetch[key] == {} && W().Entries(key) == map[] && Coupled(W(), key)
      requires PositiveDeps(l) && forall n :: At(l.clock, n) <= Tick(unmerged, key, n)
      modifies this`inPreparation
      ensures Core(unmerged, cut, W()) && ClientsOk(D(), inPreparation)
      ensures Given(cut, W(), key, key, l) && Moved(unmerged, key, old(W()), W())
      ensures AsksMore(old(W()), asked, W(), asked) && W() == WithEntries(old(W()), key, map[key := l])
    {
      var chain := if key in inPreparation then inPreparation[key] else Chain({}, map[]);
      inPreparation := inPreparation[key := chain.(entries := chain.entries[key := l])];
      StartedChain(unmerged, cut, old(W()), W(), key, l);
      SameWaiting(D(), old(inPreparation), inPreparation);
    }

    /** Starts the chain of `key` with version `l`; completes it when every dependency is at hand. */
    method StartChain(key: Key, l: CrossCausal, ghost ks: set<Key>)
      requires Core(unmerged, cut, W()) && (forall h | h != key :: Resting(cut, W(), h))
      requires key in toFetch && toFetch[key] == {} && W().Entries(key) == map[] && Coupled(W(), key)
      requires PositiveDeps(l) && forall n :: At(l.clock, n) <= Tick(unmerged, key, n)
      requires ClientsOk(D(), inPreparation)
      modifies this`cut, this`inPreparation, this`toFetch, this`cover, this`asked
      modifies this`pending, this`clients, this`sent, this`replies, this`versions
      ensures Valid()
      ensures Stepped(unmerged, key, old(cut), old(W()), cut, W()) && Settled(cut, W(), key, key, l)
      ensures Fewer(old(pending), old(replies), pending, replies) && old(sent) <= sent
      ensures AsksMore(old(W()), old(asked), W(), asked)
      ensures old(Attainable(cut, unmerged, W(), ks, key, l)) ==> key !in inPreparation
    {
      ghost var w := W();
      FirstIsAttainable(cut, unmerged, w, ks, key, l);
      PutFirst(key, l);
      ghost var w1 := W();
      CheckAndMerge(key, key, l, {}, ks);
      AsksMoreTransitive(w, old(asked), w1, old(asked), W(), asked);
      SteppedAfter(unmerged, key, old(cut), w, w1, cut, W());
      AllRestAfter(unmerged, key, old(cut), w, cut, W());
    }

    /** Starts the chain of a key that has no version in it, whatever was recorded about its fetches. */
    method BeginChain(key: Key, l: CrossCausal, ghost ks: set<Key>)
      requires Valid() && W().Entries(key) == map[]
      requires PositiveDeps(l) && forall n :: At(l.clock, n) <= Tick(unmerged, key, n)
      modifies this`cut, this`inPreparation, this`toFetch, this`cover, this`asked
      modifies this`pending, this`clients, this`sent, this`replies, this`versions
      ensures Valid() && Progress(old(S()), S())
      ensures OthersSame(key, old(W()), W()) && Settled(cut, W(), key, key, l)
      ensures old(Attainable(cut, unmerged, W(), ks, key, l)) ==> key !in inPreparation
    {
      ghost var w := W();
      assert Resting(cut, w, key);
      toFetch := toFetch[key := {}];
      ResetFetch(cut, w, W(), key);
      ghost var w1 := W();
      StartChain(key, l, ks);
      AsksMoreTransitive(w, old(asked), w1, old(asked), W(), asked);
      ProgressIf(old(S()), S());
      OthersSameTransitive(key, w, w1, W());
    }

    /** Adds a version to the unmerged store. */
    method UpdateUnmerged(key: Key, l: CrossCausal)
      modifies this`unmerged
      ensures unmerged == Populated(old(unmerged), key, l)
    {
      if key !in unmerged {
        unmerged := unmerged[key := l];
      } else {
        match Comparison(unmerged[key].clock, l.clock) {
          case Less => unmerged := unmerged[key := l];
          case Concurrent => unmerged := unmerged[key := CausalMerge(unmerged[key], l)];
          case GreaterOrEqual =>
        }
      }
    }

    // ---------------------------------------------------------------- the handlers

    /** A PUT: the versions go to the unmerged store and on to the key-value store. */
    method PutRequest(tuples: seq<(Key, CrossCausal)>)
      requires Valid() && forall i | 0 <= i < |tuples| :: PositiveDeps(tuples[i].1)
      modifies this`unmerged, this`puts, this`blank
      ensures Valid() && Dominates(unmerged, old(unmerged))
      ensures blank == old(blank) + BlankOf(tuples) && (AllNamed(old(unmerged), old(blank)) ==> AllNamed(unmerged, blank))
      ensures unmerged == PopulatedAll(old(unmerged), tuples)
      ensures puts == old(puts) + SentOn(old(unmerged), tuples)
    {
      StoreAll(tuples);
      MarkBlank(BlankOf(tuples));
      PutsNamed(old(unmerged), old(blank), tuples);
    }

    /** Stores the versions one by one and sends them on. */
    method StoreAll(tuples: seq<(Key, CrossCausal)>)
      requires Valid() && forall i | 0 <= i < |tuples| :: PositiveDeps(tuples[i].1)
      modifies this`unmerged, this`puts
      ensures Valid() && Dominates(unmerged, old(unmerged))
      ensures unmerged == PopulatedAll(old(unmerged), tuples)
      ensures puts == old(puts) + SentOn(old(unmerged), tuples)
    {
      for i := 0 to |tuples|
        invariant Valid() && Dominates(unmerged, old(unmerged))
        invariant unmerged == PopulatedAll(old(unmerged), tuples[..i])
        invariant puts == old(puts) + SentOn(old(unmerged), tuples[..i])
      {
        assert tuples[..i + 1][..i] == tuples[..i];
        var (key, l) := tuples[i];
        StoreOne(key, l, old(unmerged));
      }
      assert tuples[..|tuples|] == tuples;
    }

    /** Stores one version and sends on what is stored then. */
    method StoreOne(key: Key, l: CrossCausal, ghost before: Store)
      requires Valid() && PositiveDeps(l) && Dominates(unmerged, before)
      modifies this`unmerged, this`puts
      ensures Valid() && Dominates(unmerged, before)
      ensures unmerged == Populated(old(unmerged), key, l) && puts == old(puts) + [(key, unmerged[key])]
    {
      StoredOk(before, unmerged, cut, W(), D(), key, l);
      UpdateUnmerged(key, l);
      puts := puts + [(key, unmerged[key])];
    }

    ghost method MarkBlank(keys: set<Key>)
      requires Valid()
      modifies this`blank
      ensures Valid() && blank == old(blank) + keys
    {
      BlankClientsOk(D(), inPreparation, blank + keys);
      DeskChanged(unmerged, cut, W(), D(), D().(blank := blank + keys));
      blank := blank + keys;
    }

    /** Periodic migration: starts a chain for every unmerged version that the cut lacks and no chain holds. */
    method PeriodicMigration()
      requires Valid()
      modifies this`cut, this`inPreparation, this`toFetch, this`cover, this`asked
      modifies this`pending, this`clients, this`sent, this`replies, this`versions
      ensures Valid() && Progress(old(S()), S())
      ensures forall k | k in unmerged :: Migrated(cut, W(), k, unmerged[k].clock)
    {
      var todo := unmerged.Keys;
      while todo != {}
        invariant todo <= unmerged.Keys
        invariant Valid() && Progress(old(S()), S())
        invariant forall k | k in unmerged && k !in todo :: Migrated(cut, W(), k, unmerged[k].clock)
        decreases todo
      {
        var key :| key in todo;
        MigrateNext(key, old(S()));
        todo := todo - {key};
      }
    }

    /** Migrates one more key, in a migration that started from `s`. */
    method MigrateNext(key: Key, ghost s: Snap)
      requires Valid() && key in unmerged && Progress(s, S())
      modifies this`cut, this`inPreparation, this`toFetch, this`cover, this`asked
      modifies this`pending, this`clients, this`sent, this`replies, this`versions
      ensures Valid() && Progress(s, S())
      ensures Migrated(cut, W(), key, unmerged[key].clock)
      ensures forall k, v :: Migrated(old(cut), old(W()), k, v) ==> Migrated(cut, W(), k, v)
    {
      Migrate(key);
      ProgressTransitive(s, old(S()), S());
    }

    method Migrate(key: Key)
      requires Valid() && key in unmerged
      modifies this`cut, this`inPreparation, this`toFetch, this`cover, this`asked
      modifies this`pending, this`clients, this`sent, this`replies, this`versions
      ensures Valid() && Progress(old(S()), S())
      ensures Migrated(cut, W(), key, unmerged[key].clock)
      ensures forall k, v :: Migrated(old(cut), old(W()), k, v) ==> Migrated(cut, W(), k, v)
      ensures key in old(cut) && Leq(unmerged[key].clock, old(cut)[key].clock) ==> S() == old(S())
      ensures (exists h :: old(HoldsIn(h, key, map[]))) ==> S() == old(S())
    {
      if key !in cut || Comparison(cut[key].clock, unmerged[key].clock) != GreaterOrEqual {
        var found := FindInPreparation(key, map[]);
        if found.None? {
          ghost var w := W();
          NoVersionInChains(cut, w, key);
          BeginChain(key, unmerged[key], {});
          MigrationStarted(unmerged, old(cut), w, cut, W(), key);
        } else {
          ghost var h :| h in inPreparation && Supplies(inPreparation[h].entries, key, map[]);
          assert key in W().Entries(h);
        }
      } else {
        LeqIsPointwise(unmerged[key].clock, cut[key].clock);
      }
    }

    // -------------------------------------------------------------- KVS responses

    /** Hands the version of `key` just received to every head in `heads`. */
    method GiveTo(heads: set<Key>, key: Key, l: CrossCausal)
      requires heads <= inPreparation.Keys
      modifies this`inPreparation
      ensures inPreparation == GiveAll(old(inPreparation), heads, key, l)
    {
      var todo := heads;
      while todo != {}
        invariant todo <= heads
        invariant inPreparation == GiveAll(old(inPreparation), heads - todo, key, l)
        decreases todo
      {
        var head :| head in todo;
        var chain := inPreparation[head];
        inPreparation := inPreparation[head := chain.(entries := chain.entries[key := l])];
        todo := todo - {head};
      }
    }

    /** Sorts the clocks awaited of `key`, and the heads awaiting them, by whether `l` reaches them. */
    method SortAwaited(key: Key, l: CrossCausal)
      returns (toRemove: map<Clock, set<Key>>, satisfied: set<Key>, blocked: set<Key>)
      requires key in cover
      ensures toRemove.Keys == Answered(cover, key, l) && forall v | v in toRemove :: toRemove[v] == cover[key][v]
      ensures satisfied == HeadsAwaiting(cover, key, Answered(cover, key, l))
      ensures blocked == HeadsAwaiting(cover, key, Unanswered(cover, key, l))
    {
      toRemove, satisfied, blocked := map[], {}, {};
      var todo := cover[key].Keys;
      ghost var yes, no := {}, {};
      while todo != {}
        invariant todo <= cover[key].Keys
        invariant yes == Answered(cover, key, l) - todo && no == Unanswered(cover, key, l) - todo
        invariant toRemove.Keys == yes && forall v | v in toRemove :: toRemove[v] == cover[key][v]
        invariant satisfied == HeadsAwaiting(cover, key, yes) && blocked == HeadsAwaiting(cover, key, no)
        decreases todo
      {
        var v :| v in todo;
        var heads := cover[key][v];
        if Comparison(l.clock, v) == GreaterOrEqual {
          HeadsAwaitingPlus(cover, key, yes, v);
          satisfied, toRemove, yes := satisfied + heads, toRemove[v := heads], yes + {v};
        } else {
          HeadsAwaitingPlus(cover, key, no, v);
          blocked, no := blocked + heads, no + {v};
        }
        todo := todo - {v};
      }
    }

    /** Forgets that the heads in `heads` fetch `key`. */
    method StopFetching(heads: set<Key>, key: Key)
      requires heads <= toFetch.Keys
      modifies this`toFetch
      ensures toFetch == Unfetch(old(toFetch), heads, key)
    {
      var todo := heads;
      while todo != {}
        invariant todo <= heads
        invariant toFetch == Unfetch(old(toFetch), heads - todo, key)
        decreases todo
      {
        var head :| head in todo;
        toFetch := toFetch[head := toFetch[head] - {key}];
        todo := todo - {head};
      }
    }

    ghost predicate Serving(key: Key, l: CrossCausal, heads: set<Key>, todo: set<Key>, stale: set<Clock>)
      reads this
    {
      ServingState(unmerged, cut, W(), D(), key, l, heads, todo, stale)
    }

    /** Checks one head that awaited an answered clock, and completes its chain when nothing is left to fetch. */
    method ServeHead(head: Key, key: Key, l: CrossCausal, ghost heads: set<Key>, ghost todo: set<Key>, ghost stale: set<Clock>)
      requires Serving(key, l, heads, todo, stale) && head in heads
      modifies this`cut, this`inPreparation, this`toFetch, this`cover, this`asked
      modifies this`pending, this`clients, this`sent, this`replies, this`versions
      ensures Serving(key, l, heads, todo - {head}, stale)
      ensures Progress(old(S()), S()) && inPreparation.Keys <= old(inPreparation).Keys
    {
      if head in inPreparation {
        ServeOpen(head, key, l, heads, todo, stale);
      } else {
        CoreView(unmerged, cut, W(), key, stale);
        ServedIsDone(unmerged, cut, View(W(), key, stale), head, key, l, heads, todo);
        assert todo - {head} == todo;
        CheckCompleted(head, key, l);
      }
    }

    /** The same for a head that is still in preparation. */
    method ServeOpen(head: Key, key: Key, l: CrossCausal, ghost heads: set<Key>, ghost todo: set<Key>, ghost stale: set<Clock>)
      requires Serving(key, l, heads, todo, stale) && head in heads && head in inPreparation
      modifies this`cut, this`inPreparation, this`toFetch, this`cover, this`asked
      modifies this`pending, this`clients, this`sent, this`replies, this`versions
      ensures Serving(key, l, heads, todo - {head}, stale)
      ensures Progress(old(S()), S()) && inPreparation.Keys <= old(inPreparation).Keys
    {
      ghost var u := View(W(), key, stale);
      CoreView(unmerged, cut, W(), key, stale);
      if head !in todo { ServedIsGiven(cut, u, head, key, l); }
      CheckAndMerge(head, key, l, stale, {});
      ghost var u' := View(W(), key, stale);
      assert Settled(cut, u', head, key, l) by { assert u'.Entries(head) == W().Entries(head); }
      ServeOne(unmerged, old(cut), u, cut, u', key, l, heads, todo, head);
      CaughtStays(unmerged, old(cut), u, cut, u', key, l, head);
      ProgressIf(old(S()), S());
      NoOtherChains(head, u, u');
    }

    /** Serves every head that awaited one answered clock. */
    method ServeHeads(batch: set<Key>, key: Key, l: CrossCausal, ghost heads: set<Key>, ghost todo: set<Key>,
                      ghost stale: set<Clock>)
      requires Serving(key, l, heads, todo, stale) && batch <= heads
      modifies this`cut, this`inPreparation, this`toFetch, this`cover, this`asked
      modifies this`pending, this`clients, this`sent, this`replies, this`versions
      ensures Serving(key, l, heads, todo - batch, stale)
      ensures Progress(old(S()), S()) && inPreparation.Keys <= old(inPreparation).Keys
    {
      var rest := batch;
      ghost var left := todo;
      while rest != {}
        invariant rest <= batch && left == todo - (batch - rest)
        invariant Serving(key, l, heads, left, stale)
        invariant Progress(old(S()), S()) && inPreparation.Keys <= old(inPreparation).Keys
        decreases rest
      {
        var head :| head in rest;
        ghost var s := S();
        ServeHead(head, key, l, heads, left, stale);
        ProgressTransitive(old(S()), s, S());
        OneLessLeft(todo, batch, rest, head);
        left, rest := left - {head}, rest - {head};
      }
      assert left == todo - batch;
    }

    /** Erases one answered clock and serves the heads that awaited it. */
    method ServeClock(v: Clock, batch: set<Key>, key: Key, l: CrossCausal, ghost heads: set<Key>, ghost todo: set<Key>,
                      ghost stale: set<Clock>)
      requires Serving(key, l, heads, todo, stale) && batch <= heads && v in stale && key in cover
      modifies this`cut, this`inPreparation, this`toFetch, this`cover, this`asked
      modifies this`pending, this`clients, this`sent, this`replies, this`versions
      ensures Serving(key, l, heads, todo - batch, stale - {v})
      ensures Progress(old(S()), S()) && inPreparation.Keys <= old(inPreparation).Keys
    {
      ErasedServing(unmerged, cut, W(), D(), key, l, heads, todo, stale, v);
      cover := cover[key := cover[key] - {v}];
      assert W() == Erased(old(W()), key, v);
      ghost var s := S();
      ServeHeads(batch, key, l, heads, todo, stale - {v});
      ProgressTransitive(old(S()), s, S());
    }

    method ServeAll(toRemove: map<Clock, set<Key>>, key: Key, l: CrossCausal, ghost heads: set<Key>)
      requires Serving(key, l, heads, heads, toRemove.Keys) && key in cover
      requires forall v | v in toRemove :: toRemove[v] <= heads
      requires Listed(heads, toRemove, toRemove.Keys)
      modifies this`cut, this`inPreparation, this`toFetch, this`cover, this`asked
      modifies this`pending, this`clients, this`sent, this`replies, this`versions
      ensures Serving(key, l, heads, {}, {})
      ensures Progress(old(S()), S()) && inPreparation.Keys <= old(inPreparation).Keys
    {
      var rest := toRemove.Keys;
      ghost var todo := heads;
      while rest != {}
        invariant rest <= toRemove.Keys
        invariant Serving(key, l, heads, todo, rest)
        invariant Listed(todo, toRemove, rest)
        invariant Progress(old(S()), S()) && inPreparation.Keys <= old(inPreparation).Keys
        decreases rest
      {
        var v :| v in rest;
        ghost var s := S();
        ListedNext(todo, toRemove, rest, v);
        ServeClock(v, toRemove[v], key, l, heads, todo, rest);
        ProgressTransitive(old(S()), s, S());
        todo := todo - toRemove[v];
        rest := rest - {v};
      }
      assert todo == {};
    }

    /** Hands the version of `key` to every head it answers, and ends their fetches of `key` that are fully answered. */
    method HandOut(key: Key) returns (toRemove: map<Clock, set<Key>>, satisfied: set<Key>)
      requires Valid() && key in cover && key in unmerged
      requires key in inPreparation ==> inPreparation[key].entries != map[]
      modifies this`inPreparation, this`toFetch
      ensures Serving(key, unmerged[key], satisfied, satisfied, toRemove.Keys)
      ensures forall v | v in toRemove :: toRemove[v] <= satisfied
      ensures Listed(satisfied, toRemove, toRemove.Keys)
      ensures AsksMore(old(W()), asked, W(), asked) && inPreparation.Keys == old(inPreparation).Keys
    {
      var l := unmerged[key];
      ghost var w := W();
      var blocked;
      toRemove, satisfied, blocked := SortAwaited(key, l);
      AwaitingHeadsExist(cut, w, key, Answered(cover, key, l));
      StartAnswering(unmerged, cut, w, key, l);
      GivingKeepsClients(D(), inPreparation, satisfied, key, l);
      GiveTo(satisfied, key, l);
      StopFetching(satisfied - blocked, key);
      assert W() == GivenToHeads(w, key, l);
    }

    /** Hands the version of `key` out and serves everyone who got it. */
    method ServeAwaiting(key: Key)
      requires Valid() && key in cover && key in unmerged
      requires key in inPreparation ==> inPreparation[key].entries != map[]
      modifies this`cut, this`inPreparation, this`toFetch, this`cover, this`asked
      modifies this`pending, this`clients, this`sent, this`replies, this`versions
      ensures Valid() && Caught(unmerged, W(), key) && key in cover
      ensures Progress(old(S()), S()) && inPreparation.Keys <= old(inPreparation).Keys
    {
      var toRemove, satisfied := HandOut(key);
      ghost var s := S();
      ServeAll(toRemove, key, unmerged[key], satisfied);
      ProgressTransitive(old(S()), s, S());
      DoneAnswering(unmerged, cut, W(), key, unmerged[key], satisfied);
    }

    /** Answers everyone who awaits a version of `key` that the unmerged store now reaches. */
    method AnswerAwaited(key: Key)
      requires Valid() && key in cover && key in unmerged
      requires key in inPreparation ==> inPreparation[key].entries != map[]
      modifies this`cut, this`inPreparation, this`toFetch, this`cover, this`asked
      modifies this`pending, this`clients, this`sent, this`replies, this`versions
      ensures Valid() && Caught(unmerged, W(), key)
      ensures Onward(old(S()), S()) && (key in cover ==> key in asked) && inPreparation.Keys <= old(inPreparation).Keys
      ensures key in cover ==> cover[key] != map[]
    {
      ServeAwaiting(key);
      OnwardDropping(old(S()), S(), key);
      if cover[key] == map[] {
        DroppedCoverOk(unmerged, cut, W(), D(), key);
        cover := cover - {key};
      } else {
        asked := asked + {key};
      }
    }

    /** The same, when there may be nobody. */
    method AnswerIfAwaited(key: Key)
      requires Valid() && key in unmerged
      requires key in inPreparation ==> inPreparation[key].entries != map[]
      modifies this`cut, this`inPreparation, this`toFetch, this`cover, this`asked
      modifies this`pending, this`clients, this`sent, this`replies, this`versions
      ensures Valid() && Caught(unmerged, W(), key)
      ensures Onward(old(S()), S()) && (key in cover ==> key in asked) && inPreparation.Keys <= old(inPreparation).Keys
      ensures key !in old(cover) ==> S() == old(S())
    {
      if key in cover {
        AnswerAwaited(key);
      }
    }

    /** Starts the chain of a key that a client asked for and that had no version yet. */
    method StartQueried(key: Key, ghost ks: set<Key>)
      requires Valid() && key in unmerged
      modifies this`cut, this`inPreparation, this`toFetch, this`cover, this`asked
      modifies this`pending, this`clients, this`sent, this`replies, this`versions
      ensures Valid() && Progress(old(S()), S())
      ensures key in inPreparation ==> inPreparation[key].entries != map[]
      ensures old(AllAtHand(cut, unmerged, inPreparation, ks)) && key in ks && key in Unstarted(old(inPreparation)) ==>
                key !in inPreparation
      ensures key !in Unstarted(old(inPreparation)) ==> S() == old(S())
    {
      assert Resting(cut, W(), key);
      if key in toFetch && toFetch[key] == {} {
        StartChain(key, unmerged[key], ks);
        ProgressIf(old(S()), S());
      }
    }

    /** Puts a version into the unmerged store and starts the chain of its key when a client waits for that. */
    method Receive(key: Key, l: CrossCausal, ghost ks: set<Key>)
      requires Valid() && PositiveDeps(l)
      modifies this`unmerged, this`cut, this`inPreparation, this`toFetch, this`cover, this`asked
      modifies this`pending, this`clients, this`sent, this`replies, this`versions
      ensures Valid() && Progress(old(S()), S())
      ensures unmerged == Populated(old(unmerged), key, l) && key in unmerged
      ensures key in inPreparation ==> inPreparation[key].entries != map[]
      ensures AllAtHand(old(cut), unmerged, old(inPreparation), ks) && key in ks && key in Unstarted(old(inPreparation)) ==>
                key !in inPreparation
      ensures key !in Unstarted(old(inPreparation)) ==> S() == old(S())
    {
      UpdateUnmerged(key, l);
      UnmergedGrows(old(unmerged), cut, W(), key, l);
      StartQueried(key, ks);
    }

    /** Receives the version of `key` and answers everyone who awaits it. */
    method ReceiveAndAnswer(key: Key, l: CrossCausal)
      requires Valid() && PositiveDeps(l)
      modifies this`unmerged, this`cut, this`inPreparation, this`toFetch, this`cover, this`asked
      modifies this`pending, this`clients, this`sent, this`replies, this`versions
      ensures Valid() && Onward(old(S()), S())
      ensures unmerged == Populated(old(unmerged), key, l) && Caught(unmerged, W(), key)
      ensures key in cover || key in Unstarted(inPreparation) ==> key in asked
      ensures key in Unstarted(old(inPreparation)) && Obtainable(old(cut), unmerged, old(inPreparation), key) ==>
                key !in inPreparation
      ensures key !in old(cover) && key !in Unstarted(old(inPreparation)) ==> S() == old(S())
    {
      ghost var ks := {};
      if Obtainable(cut, Populated(unmerged, key, l), inPreparation, key) {
        ks :| key in ks && AllAtHand(cut, Populated(unmerged, key, l), inPreparation, ks);
      }
      Receive(key, l, ks);
      ghost var s := S();
      AnswerIfAwaited(key);
      OnwardAfter(old(S()), s, S());
    }

    /** A version of `key` arrives from the key-value store; an empty clock says that the key does not exist. */
    method ProcessResponse(key: Key, l: CrossCausal)
      requires Valid() && PositiveDeps(l)
      modifies this`unmerged, this`cut, this`inPreparation, this`toFetch, this`cover, this`asked
      modifies this`pending, this`clients, this`sent, this`replies, this`versions
      ensures Valid() && Onward(old(S()), S())
      ensures Arrived(old(unmerged), old(cut), old(inPreparation), old(D()), unmerged, W(), D(), key, l)
      ensures key in cover || key in Unstarted(inPreparation) ==> key in asked
      ensures key !in old(cover) && key !in Unstarted(old(inPreparation)) ==> S() == old(S())
    {
      ReceiveAndAnswer(key, l);
      ForgetIfMissing(key);
      if key !in inPreparation {
        FewerMovedOn(old(D()), D(), inPreparation, key);
      }
    }

    /** A version with an empty clock is not kept. */
    method ForgetIfMissing(key: Key)
      requires Valid() && key in unmerged && Caught(unmerged, W(), key)
      modifies this`unmerged
      ensures Valid() && Caught(unmerged, W(), key)
      ensures unmerged == if old(unmerged)[key].clock == map[] then old(unmerged) - {key} else old(unmerged)
    {
      if Comparison(map[], unmerged[key].clock) == GreaterOrEqual {
        ForgetMissing(unmerged, cut, W(), key);
        unmerged := unmerged - {key};
      }
    }

    // --------------------------------------------------------------- GET requests

    /** Lists a client with the chain it waits for. */
    method AwaitChain(addr: Address, key: Key)
      requires Valid() && key in inPreparation && (addr in repeated || addr in busy)
      modifies this`inPreparation
      ensures Valid() && Advance(old(S()), S())
      ensures ChainsKept(old(inPreparation), inPreparation) && ListsNewly(old(inPreparation), inPreparation, {key}, addr)
      ensures key in inPreparation && addr in inPreparation[key].waiting
    {
      ListingOk(unmerged, cut, W(), D(), key, addr);
      ListingLists(S(), key, addr);
      inPreparation := inPreparation[key := inPreparation[key].(waiting := inPreparation[key].waiting + {addr})];
      assert W() == Listing(old(W()), key, addr);
    }

    /** Starts the chain of a key asked for by a client, from a version at hand. */
    method StartFor(addr: Address, key: Key, l: CrossCausal, ghost ks: set<Key>) returns (covered: bool)
      requires Valid() && key !in inPreparation && (addr in repeated || addr in busy)
      requires PositiveDeps(l) && forall n :: At(l.clock, n) <= Tick(unmerged, key, n)
      modifies this`cut, this`inPreparation, this`toFetch, this`cover, this`asked
      modifies this`pending, this`clients, this`sent, this`replies, this`versions
      ensures Valid() && Advance(old(S()), S()) && ChainsKept(old(inPreparation), inPreparation)
      ensures !covered ==> key in inPreparation && addr in inPreparation[key].waiting
      ensures ListsNewly(old(inPreparation), inPreparation, if covered then {} else {key}, addr)
      ensures covered && l.clock != map[] ==> key in cut
      ensures old(Attainable(cut, unmerged, W(), ks, key, l)) ==> covered
    {
      ghost var w := W();
      BeginChain(key, l, ks);
      StartedLists(w, W(), key, addr);
      covered := key !in inPreparation;
      if !covered {
        ghost var s := S();
        AwaitChain(addr, key);
        AdvanceTransitive(old(S()), s, S());
        ListsTransitive(w.chains, s.work.chains, inPreparation, {key}, {key}, addr);
      } else {
        SettledIsHere(cut, W(), key, l);
      }
    }

    /** Asks the key-value store for a key of which there is no version at hand. */
    method AwaitFirstVersion(addr: Address, key: Key)
      requires Valid() && key !in inPreparation && (addr in repeated || addr in busy)
      modifies this`inPreparation, this`toFetch, this`asked
      ensures Valid() && Advance(old(S()), S()) && asked == old(asked) + {key}
      ensures ChainsKept(old(inPreparation), inPreparation) && ListsNewly(old(inPreparation), inPreparation, {key}, addr)
      ensures key in inPreparation && inPreparation[key] == Chain({addr}, map[])
    {
      AwaitingOk(unmerged, cut, W(), D(), key, addr);
      AwaitingLists(S(), key, addr);
      toFetch := toFetch[key := {}];
      inPreparation := inPreparation[key := Chain({addr}, map[])];
      asked := asked + {key};
      assert W() == Awaiting(old(W()), key, addr);
    }

    /** Makes sure that `key` will be in the cut, or that the client waits for its chain. */
    method CoverKey(addr: Address, key: Key, inFrontier: bool) returns (covered: bool)
      requires Valid() && AllNamed(unmerged, blank) && (addr in repeated || addr in busy)
      modifies this`cut, this`inPreparation, this`toFetch, this`cover, this`asked
      modifies this`pending, this`clients, this`sent, this`replies, this`versions
      ensures Valid() && Advance(old(S()), S()) && ChainsKept(old(inPreparation), inPreparation)
      ensures !covered ==> key in inPreparation && addr in inPreparation[key].waiting
      ensures ListsNewly(old(inPreparation), inPreparation, if covered then {} else {key}, addr)
      ensures covered ==> inFrontier || key in cut || exists l :: l in old(VersionsOf(key)) && l.clock == map[]
      ensures covered ==> inFrontier || key in cut || key in blank
      ensures key in old(cut) || inFrontier ==> covered && S() == old(S())
      ensures key !in old(inPreparation) && old(VersionsOf(key)) != {} && old(Obtainable(cut, unmerged, inPreparation, key)) ==>
                covered
    {
      if key in cut || inFrontier { return true; }
      if key in inPreparation {
        AwaitChain(addr, key);
        return false;
      }
      var found := FindLocally(key, map[]);
      if found.Some? {
        ghost var ks := {};
        if Obtainable(cut, unmerged, inPreparation, key) {
          ks :| key in ks && AllAtHand(cut, unmerged, inPreparation, ks);
          assert Resting(cut, W(), key) && DepsAtHand(cut, unmerged, ks, found.value);
        }
        covered := StartFor(addr, key, found.value, ks);
      } else {
        AwaitFirstVersion(addr, key);
        covered := false;
      }
    }

    /** Covers one more key of a request, of which the first `n` have been covered since `s`. */
    method CoverNext(addr: Address, keys: seq<Key>, n: nat, frontier: set<Key>, before: set<Key>, ghost s: Snap)
      returns (toCover: set<Key>)
      requires Valid() && AllNamed(unmerged, blank) && (addr in repeated || addr in busy) && n < |keys|
      requires Advance(s, S()) && before <= SetOf(keys)
      requires Covering(s.work.chains, inPreparation, addr, before, keys, n, frontier, cut.Keys, blank)
      requires SetOf(keys) <= s.cut.Keys ==> before == {} && S() == s
      modifies this`cut, this`inPreparation, this`toFetch, this`cover, this`asked
      modifies this`pending, this`clients, this`sent, this`replies, this`versions
      ensures Valid() && Advance(s, S()) && toCover <= SetOf(keys)
      ensures Covering(s.work.chains, inPreparation, addr, toCover, keys, n + 1, frontier, cut.Keys, blank)
      ensures SetOf(keys) <= s.cut.Keys ==> toCover == {} && S() == s
    {
      var covered := CoverKey(addr, keys[n], keys[n] in frontier);
      AdvanceTransitive(s, old(S()), S());
      CoveringNext(s.work.chains, old(inPreparation), inPreparation, addr, before, keys, n, frontier, old(cut).Keys, cut.Keys,
                   blank, covered);
      toCover := if covered then before else before + {keys[n]};
    }

    /** Covers every key of a request; returns the keys whose chains the client waits for. */
    method CoverKeys(addr: Address, keys: seq<Key>, frontier: set<Key>) returns (toCover: set<Key>)
      requires Valid() && AllNamed(unmerged, blank) && (addr in repeated || addr in busy)
      modifies this`cut, this`inPreparation, this`toFetch, this`cover, this`asked
      modifies this`pending, this`clients, this`sent, this`replies, this`versions
      ensures Valid() && Advance(old(S()), S()) && toCover <= SetOf(keys)
      ensures Covering(old(inPreparation), inPreparation, addr, toCover, keys, |keys|, frontier, cut.Keys, blank)
      ensures SetOf(keys) <= old(cut).Keys ==> toCover == {} && S() == old(S())
    {
      toCover := {};
      for i := 0 to |keys|
        invariant Valid() && Advance(old(S()), S()) && toCover <= SetOf(keys)
        invariant Covering(old(inPreparation), inPreparation, addr, toCover, keys, i, frontier, cut.Keys, blank)
        invariant SetOf(keys) <= old(cut).Keys ==> toCover == {} && S() == old(S())
      {
        toCover := CoverNext(addr, keys, i, frontier, toCover, old(S()));
      }
    }

    /** The request to be recorded for a client that has been announced, and the keys that the client reports. */
    method OpenRequest(addr: Address, id: string, keys: seq<Key>, seen: seq<Located>, future: set<Key>)
      returns (m: Pending, frontier: set<Key>)
      requires Nameless(seen) <= blank
      requires addr in pending ==>
                 addr in repeated && ListsAll(inPreparation, pending[addr].toCover, addr) && Asked(D(), addr, pending[addr])
      ensures m.clientId == id && m.readSet == SetOf(keys) && m.seen == seen && Guarded(m)
      ensures m.futureReadSet == FutureOf(pending, addr) + future
      ensures ListsAll(inPreparation, m.toCover, addr) && Asked(D(), addr, m)
      ensures addr !in pending ==> m.toCover == {} && m.missing == {} && OnlyReported(m.prior, seen)
      ensures frontier == set i | 0 <= i < |seen| :: seen[i].key
      ensures forall k | k in frontier && k !in blank :: SeenNewer(m.prior, k, map[])
    {
      m := if addr in pending then pending[addr] else Pending(id, {}, {}, map[], {}, {}, {}, map[], {}, map[], []);
      ghost var before := m;
      var prior;
      frontier, prior := Condense(seen, m.prior);
      m := m.(clientId := id, prior := prior, futureReadSet := m.futureReadSet + future, readSet := SetOf(keys),
              seen := seen);
      forall k | k in m.remoteReadSet ensures k in blank || AskedFor(D(), addr, m, k) {
        assert k in blank || AskedFor(D(), addr, before, k);
      }
    }

    /** Records a request that must wait for chains. */
    method RecordClient(addr: Address, m: Pending)
      requires Valid() && Guarded(m) && m.toCover != {} && ListsAll(inPreparation, m.toCover, addr)
      requires Placed(D(), m) && Asked(D(), addr, m)
      requires addr !in repeated ==> addr in busy && ListsOnly(inPreparation, m.toCover, addr)
      modifies this`pending, this`busy
      ensures Valid() && pending == old(pending)[addr := m] && busy == old(busy) - {addr} && Advance(old(S()), S())
    {
      RecordedClientsOk(D(), inPreparation, addr, m);
      pending, busy := pending[addr := m], busy - {addr};
    }

    /** Finishes a request; `busy` is then all that is left to be updated. */
    method FinishRequest(addr: Address, m: Pending, ghost isNew: bool)
      requires Valid() && Guarded(m) && (isNew ==> m.missing == {}) && ListsAll(inPreparation, m.toCover, addr)
      requires Placed(D(), m.(toCover := {})) && Asked(D(), addr, m)
      requires addr !in repeated ==> addr in busy && m.toCover == {} && ListsOnly(inPreparation, {}, addr)
      modifies this`pending, this`clients, this`sent, this`replies, this`versions
      ensures StateOk(unmerged, cut, W(), D().(busy := busy - {addr})) && Advance(old(S()), S())
      ensures Outcome(S(), versions, |old(replies)|, addr, m.clientId, m.readSet, m.seen, m.futureReadSet, isNew)
      ensures RemoteKeys(cut, m) == {} ==> addr !in pending
    {
      var pins := FinishClient(addr, m);
      AnsweredOk(unmerged, cut, W(), old(D()), D(), addr, m);
      AdmissionAdvances(old(S()), pending, replies, sent, addr);
      AnsweredOutcome(old(D()), S(), D(), versions, addr, m, isNew);
    }

    /** The request at `addr` has been admitted. */
    ghost method Release(addr: Address)
      modifies this`busy
      ensures busy == old(busy) - {addr} && S() == old(S()) && D() == old(D()).(busy := busy) && W() == old(W())
    {
      busy := busy - {addr};
    }

    /** Answers a request that waits for no chain, or asks other caches. */
    method AnswerClient(addr: Address, m: Pending, ghost isNew: bool)
      requires Valid() && Guarded(m) && (isNew ==> m.missing == {}) && ListsAll(inPreparation, m.toCover, addr)
      requires Placed(D(), m.(toCover := {})) && Asked(D(), addr, m)
      requires addr !in repeated ==> addr in busy && m.toCover == {} && ListsOnly(inPreparation, {}, addr)
      modifies this`pending, this`clients, this`sent, this`replies, this`versions, this`busy
      ensures Valid() && Advance(old(S()), S()) && busy == old(busy) - {addr}
      ensures Outcome(S(), versions, |old(replies)|, addr, m.clientId, m.readSet, m.seen, m.futureReadSet, isNew)
      ensures RemoteKeys(cut, m) == {} ==> addr !in pending
    {
      FinishRequest(addr, m, isNew);
      Release(addr);
    }

    /** Records a request that must wait for chains, or answers it. */
    method AdmitClient(addr: Address, m: Pending, toCover: set<Key>, ghost isNew: bool)
      requires Valid() && Guarded(m) && (isNew ==> m.missing == {})
      requires ListsAll(inPreparation, toCover, addr) && ListsAll(inPreparation, m.toCover, addr)
      requires Placed(D(), m.(toCover := toCover)) && Asked(D(), addr, m)
      requires addr !in repeated ==> addr in busy && m.toCover == {} && ListsOnly(inPreparation, toCover, addr)
      modifies this`pending, this`clients, this`sent, this`replies, this`versions, this`busy
      ensures Valid() && Advance(old(S()), S()) && busy == old(busy) - {addr}
      ensures Outcome(S(), versions, |old(replies)|, addr, m.clientId, m.readSet, m.seen, m.futureReadSet, isNew)
      ensures toCover == {} && RemoteKeys(cut, m) == {} ==> addr !in pending
    {
      if toCover != {} {
        RecordClient(addr, m.(toCover := toCover));
      } else {
        AnswerClient(addr, m, isNew);
      }
    }

    /** A request arrives at an address that may still have an open one. */
    ghost method Announce(addr: Address, nameless: set<Key>)
      requires Valid() && busy == {} && AllNamed(unmerged, blank)
      modifies this`busy, this`repeated, this`blank
      ensures Valid() && busy == {addr} && blank == old(blank) + nameless && AllNamed(unmerged, blank)
      ensures repeated == old(repeated) + if addr in pending then {addr} else {}
      ensures addr !in repeated ==> addr !in pending && ListsOnly(inPreparation, {}, addr)
      ensures addr in pending ==> ListsAll(inPreparation, pending[addr].toCover, addr) && Asked(D(), addr, pending[addr])
    {
      OpenedClientsOk(D(), inPreparation, addr, nameless);
      busy, repeated, blank := {addr}, repeated + (if addr in pending then {addr} else {}), blank + nameless;
      DeskChanged(unmerged, cut, W(), old(D()), D());
      if addr in pending {
        assert ClientOk(D(), addr);
      }
    }

    /** Announces a request and opens it. */
    method TakeRequest(addr: Address, id: string, keys: seq<Key>, seen: seq<Located>, future: set<Key>)
      returns (m: Pending, frontier: set<Key>)
      requires Valid() && busy == {} && AllNamed(unmerged, blank)
      modifies this`busy, this`repeated, this`blank
      ensures Valid() && busy == {addr} && blank == old(blank) + Nameless(seen) && AllNamed(unmerged, blank) && S() == old(S())
      ensures repeated == old(repeated) + if addr in pending then {addr} else {}
      ensures m.clientId == id && m.readSet == SetOf(keys) && m.seen == seen && Guarded(m)
      ensures m.futureReadSet == FutureOf(pending, addr) + future
      ensures ListsAll(inPreparation, m.toCover, addr) && Asked(D(), addr, m)
      ensures addr !in pending ==> m.missing == {} && OnlyReported(m.prior, seen)
      ensures addr !in repeated ==> m.toCover == {} && ListsOnly(inPreparation, {}, addr)
      ensures forall k | k in frontier && k !in blank :: SeenNewer(m.prior, k, map[])
    {
      Announce(addr, Nameless(seen));
      m, frontier := OpenRequest(addr, id, keys, seen, future);
    }

    /** Covers the keys of a request, so that it can be admitted. */
    method CoverFor(addr: Address, m: Pending, keys: seq<Key>, frontier: set<Key>) returns (toCover: set<Key>)
      requires Valid() && (addr in repeated || addr in busy)
      requires AllNamed(unmerged, blank) && Asked(D(), addr, m) && m.readSet == SetOf(keys)
      requires forall k | k in frontier && k !in blank :: SeenNewer(m.prior, k, map[])
      requires ListsAll(inPreparation, m.toCover, addr)
      requires addr !in repeated ==> ListsOnly(inPreparation, {}, addr)
      modifies this`cut, this`inPreparation, this`toFetch, this`cover, this`asked
      modifies this`pending, this`clients, this`sent, this`replies, this`versions
      ensures Valid() && Advance(old(S()), S())
      ensures ListsAll(inPreparation, toCover, addr) && ListsAll(inPreparation, m.toCover, addr)
      ensures addr !in repeated ==> ListsOnly(inPreparation, toCover, addr)
      ensures Placed(D(), m.(toCover := toCover)) && Asked(D(), addr, m)
      ensures m.readSet <= old(cut).Keys ==> toCover == {} && S() == old(S())
    {
      ghost var d, chains := D(), inPreparation;
      toCover := CoverKeys(addr, keys, frontier);
      ListsAfter(chains, inPreparation, m.toCover, toCover, addr);
      AskedGrows(d, D(), addr, m);
      ArrangedIsPlaced(D(), m, keys, toCover, frontier);
    }

    /** Covers the keys of a request that has been announced, and admits it. */
    method CoverAndAdmit(addr: Address, m: Pending, keys: seq<Key>, frontier: set<Key>, ghost isNew: bool)
      requires Valid() && Guarded(m) && (isNew ==> m.missing == {}) && (addr in repeated || addr in busy)
      requires AllNamed(unmerged, blank) && Asked(D(), addr, m) && m.readSet == SetOf(keys)
      requires forall k | k in frontier && k !in blank :: SeenNewer(m.prior, k, map[])
      requires ListsAll(inPreparation, m.toCover, addr)
      requires addr !in repeated ==> m.toCover == {} && ListsOnly(inPreparation, {}, addr)
      modifies this`cut, this`inPreparation, this`toFetch, this`cover, this`asked
      modifies this`pending, this`clients, this`sent, this`replies, this`versions, this`busy
      ensures Valid() && Advance(old(S()), S()) && busy == old(busy) - {addr}
      ensures Outcome(S(), versions, |old(replies)|, addr, m.clientId, m.readSet, m.seen, m.futureReadSet, isNew)
      ensures m.readSet <= old(cut).Keys && RemoteKeys(old(cut), m) == {} ==> addr !in pending
    {
      var toCover := CoverFor(addr, m, keys, frontier);
      ghost var s := S();
      AdmitClient(addr, m, toCover, isNew);
      AdvanceTransitive(old(S()), s, S());
      OutcomeSince(S(), versions, |old(replies)|, |s.replies|, addr, m.clientId, m.readSet, m.seen, m.futureReadSet, isNew);
    }

    /** Takes a request, covers its keys, and records or answers it. */
    method ReadRequest(addr: Address, id: string, keys: seq<Key>, seen: seq<Located>, future: set<Key>)
      requires Valid() && busy == {} && AllNamed(unmerged, blank)
      modifies this`cut, this`inPreparation, this`toFetch, this`cover, this`asked
      modifies this`pending, this`clients, this`sent, this`replies, this`versions, this`busy, this`repeated, this`blank
      ensures Valid() && Advance(old(S()), S())
      ensures blank == old(blank) + Nameless(seen)
      ensures busy == {} && repeated == old(repeated) + if addr in old(pending) then {addr} else {}
      ensures Outcome(S(), versions, |old(replies)|, addr, id, SetOf(keys), seen, FutureOf(old(pending), addr) + future,
                      addr !in old(pending))
      ensures addr !in old(pending) && AllHere(old(cut), keys, seen) ==> addr !in pending
    {
      var m, frontier := TakeRequest(addr, id, keys, seen, future);
      if addr !in pending && AllHere(cut, keys, seen) {
        ReadsHere(cut, m, keys, seen);
      }
      CoverAndAdmit(addr, m, keys, frontier, addr !in old(pending));
    }

    /** A causal read of several keys. */
    method GetRequest(addr: Address, id: string, keys: seq<Key>, seen: seq<Located>, future: set<Key>)
      requires Valid() && busy == {} && AllNamed(unmerged, blank)
      modifies this`cut, this`inPreparation, this`toFetch, this`cover, this`asked, this`keySet
      modifies this`pending, this`clients, this`sent, this`replies, this`versions, this`busy, this`repeated, this`blank
      ensures Valid() && Advance(old(S()), S())
      ensures keySet == old(keySet) + SetOf(keys) && blank == old(blank) + Nameless(seen)
      ensures busy == {} && repeated == old(repeated) + if addr in old(pending) then {addr} else {}
      ensures var before := if addr in old(pending) then old(pending)[addr].futureReadSet else {};
              Outcome(S(), versions, |old(replies)|, addr, id, SetOf(keys), seen, before + future, addr !in old(pending))
      ensures addr !in old(pending) && AllHere(old(cut), keys, seen) ==> addr !in pending
    {
      ReadRequest(addr, id, keys, seen, future);
      keySet := keySet + SetOf(keys);
    }

    // ------------------------------------------------------- requests between caches

    /** Another cache asks for versions pinned for a client. */
    method VersionedRequest(id: string, keys: seq<Key>) returns (tuples: seq<(Key, CrossCausal)>)
      ensures tuples == Looked(PinnedFor(versions, id), keys)
    {
      tuples := [];
      for i := 0 to |keys|
        invariant tuples == Looked(PinnedFor(versions, id), keys[..i])
      {
        assert keys[..i + 1][..i] == keys[..i];
        if id in versions && keys[i] in versions[id] {
          tuples := tuples + [(keys[i], versions[id][keys[i]])];
        }
      }
      assert keys[..|keys|] == keys;
    }

    /** One waiting request takes the versions that another cache sent, and is answered when it waits for no more. */
    method TakeVersions(addr: Address, tuples: seq<(Key, CrossCausal)>) returns (answered: bool)
      modifies this`pending, this`replies
      ensures Delivered(old(D()), D(), {addr}, tuples)
      ensures answered <==> addr in old(pending) && addr !in pending
      ensures pending.Keys == if answered then old(pending).Keys - {addr} else old(pending).Keys
      ensures if answered then |replies| == |old(replies)| + 1 && Joins(replies[|old(replies)|], addr, old(pending)[addr], tuples)
              else replies == old(replies)
    {
      if addr !in pending { return false; }
      var m := pending[addr];
      for i := 0 to |tuples|
        invariant m == AcceptAll(pending[addr], tuples[..i])
        invariant pending == old(pending) && replies == old(replies)
      {
        assert tuples[..i + 1][..i] == tuples[..i];
        var (key, l) := tuples[i];
        if key in m.remoteReadSet {
          m := m.(remote := m.remote[key := l], remoteReadSet := m.remoteReadSet - {key});
        }
      }
      assert tuples[..|tuples|] == tuples;
      answered := m.remoteReadSet == {};
      if answered {
        JoinedJoins(addr, pending[addr], tuples);
        replies := replies + [Joined(addr, m)];
        pending := pending - {addr};
      } else {
        pending := pending[addr := m];
      }
      TakenIsDelivered(old(D()), D(), addr, tuples);
    }

    /** One more request takes the versions, after those in `done`. */
    method TakeNext(addr: Address, tuples: seq<(Key, CrossCausal)>, ghost d: Desk, ghost done: set<Address>)
      returns (answered: bool)
      requires Delivered(d, D(), done, tuples) && addr !in done
      modifies this`pending, this`replies
      ensures Delivered(d, D(), done + {addr}, tuples)
      ensures answered <==> addr in old(pending) && addr !in pending
      ensures pending.Keys == if answered then old(pending).Keys - {addr} else old(pending).Keys
    {
      answered := TakeVersions(addr, tuples);
      DeliveredOneMore(d, old(D()), D(), done, addr, tuples);
    }

    /** The requests at the addresses in `listed` take the versions; tells which of them are answered. */
    method TakeVersionsAt(listed: set<Address>, tuples: seq<(Key, CrossCausal)>) returns (answered: set<Address>)
      modifies this`pending, this`replies
      ensures Delivered(old(D()), D(), listed, tuples)
      ensures answered == old(pending).Keys - pending.Keys
    {
      answered := {};
      var todo := listed;
      ghost var done := {};
      while todo != {}
        invariant todo !! done && todo + done == listed
        invariant Delivered(old(D()), D(), done, tuples)
        invariant pending.Keys <= old(pending).Keys && answered == old(pending).Keys - pending.Keys
        decreases todo
      {
        var addr :| addr in todo;
        ghost var left := pending.Keys;
        var complete := TakeNext(addr, tuples, old(D()), done);
        OneMoreGone(old(pending).Keys, left, addr);
        if complete { answered := answered + {addr}; }
        todo, done := todo - {addr}, done + {addr};
      }
      assert done == listed;
    }

    /** All waiting requests of client `id` take the versions; those answered are no longer listed. */
    method Deliver(id: string, tuples: seq<(Key, CrossCausal)>)
      modifies this`pending, this`clients, this`replies
      ensures Delivered(old(D()), D(), ListedFor(old(clients), id), tuples)
      ensures clients == Delist(old(clients), id, old(pending).Keys - pending.Keys)
    {
      if id in clients {
        var answered := TakeVersionsAt(clients[id], tuples);
        ghost var d := D();
        clients := clients[id := clients[id] - answered];
        if clients[id] == {} {
          clients := clients - {id};
        }
        DeliveredUnlisted(old(D()), d, old(clients)[id], tuples, clients);
      } else {
        DeliveredNobody(D(), tuples);
      }
    }

    /** Versions for client `id` arrive from another cache. */
    method VersionedResponse(id: string, tuples: seq<(Key, CrossCausal)>)
      requires Valid()
      modifies this`pending, this`clients, this`replies
      ensures Valid() && old(replies) <= replies
      ensures Delivered(old(D()), D(), ListedFor(old(clients), id), tuples)
      ensures clients == Delist(old(clients), id, old(pending).Keys - pending.Keys)
    {
      Deliver(id, tuples);
      DeliveredClientsOk(old(D()), D(), id, tuples, inPreparation);
      DeskChanged(unmerged, cut, W(), old(D()), D());
    }

    // ------------------------------------------------------------------- whole runs

    ghost predicate Requested()
      reads this
    {
      AllRequested(S())
    }

    /** Moreover no request is half admitted, and versions without a clock are those of blank keys. */
    ghost predicate Idle()
      reads this
    {
      Requested() && busy == {} && AllNamed(unmerged, blank)
    }

    /** A response to a request for `key`; none when the key does not exist. */
    method Respond(key: Key, version: Option<CrossCausal>)
      requires Valid() && Requested() && (version.Some? ==> PositiveDeps(version.value))
      modifies this`unmerged, this`cut, this`inPreparation, this`toFetch, this`cover, this`asked
      modifies this`pending, this`clients, this`sent, this`replies, this`versions
      ensures Valid() && Requested() && Extends(old(S()), S())
      ensures AllNamed(old(unmerged), blank) ==> AllNamed(unmerged, blank)
      ensures Arrived(old(unmerged), old(cut), old(inPreparation), old(D()), unmerged, W(), D(), key, OrMissing(version))
      ensures key !in old(cover) && key !in Unstarted(old(inPreparation)) ==> S() == old(S()).(asked := old(asked) - {key})
    {
      asked := asked - {key};
      ProcessResponse(key, OrMissing(version));
      ReceivedNamed(old(unmerged), blank, key, OrMissing(version));
      ResponseKeepsRequested(old(S()), S(), key);
    }

    /** The latest version of a key, which the cache has been told because it reads the key. */
    method Refresh(key: Key, latest: CrossCausal)
      requires Valid() && Idle() && PositiveDeps(latest)
      modifies this`unmerged, this`cut, this`inPreparation, this`toFetch, this`cover, this`asked
      modifies this`pending, this`clients, this`sent, this`replies, this`versions
      ensures Valid() && Idle() && Extends(old(S()), S())
      ensures Effect(old(C()), Update(key, latest), C())
    {
      if key in keySet {
        ProcessResponse(key, latest);
        ReceivedNamed(old(unmerged), blank, key, latest);
      }
    }

    /** A message of the key-value store, or a timer. */
    method HandleStore(e: Event)
      requires Valid() && Idle() && e.WellFormed() && e.FromStore()
      modifies this`unmerged, this`cut, this`inPreparation, this`toFetch, this`cover, this`asked
      modifies this`pending, this`clients, this`sent, this`replies, this`versions
      ensures Valid() && Idle() && Extends(old(S()), S())
      ensures Effect(old(C()), e, C())
    {
      match e {
        case Response(key, version) => Respond(key, version);
        case Timeout(key) => asked := asked + {key};
        case Update(key, latest) => Refresh(key, latest);
        case Migration =>
          PeriodicMigration();
          AdvanceKeepsRequested(old(S()), S());
      }
    }

    /** A response of another cache. */
    method HandleVersions(id: string, tuples: seq<(Key, CrossCausal)>)
      requires Valid() && Idle()
      modifies this`pending, this`clients, this`replies
      ensures Valid() && Idle() && Extends(old(S()), S())
      ensures Effect(old(C()), Event.VersionedResponse(id, tuples), C())
    {
      VersionedResponse(id, tuples);
      DeliveredExtends(old(S()), S(), old(D()), D(), ListedFor(old(clients), id), tuples);
    }

    /** A message of another cache, or word that a client is done with its pinned versions. */
    method HandleCache(e: Event) returns (tuples: seq<(Key, CrossCausal)>)
      requires Valid() && Idle() && e.FromCache()
      modifies this`pending, this`clients, this`replies, this`versions
      ensures Valid() && Idle() && Extends(old(S()), S())
      ensures Effect(old(C()), e, C()) && (e.VersionedRequest? ==> tuples == Looked(PinnedFor(versions, e.id), e.keys))
    {
      tuples := [];
      match e {
        case CollectVersions(id) => versions := versions - {id};
        case VersionedRequest(id, keys) => tuples := VersionedRequest(id, keys);
        case VersionedResponse(id, sent) => HandleVersions(id, sent);
      }
    }

    /** A read of a client. */
    method HandleGet(addr: Address, id: string, keys: seq<Key>, seen: seq<Located>, future: set<Key>)
      requires Valid() && Idle()
      modifies this
      ensures Valid() && Idle() && Extends(old(S()), S())
      ensures repeated == old(repeated) + if addr in old(pending) then {addr} else {}
      ensures blank == old(blank) + Nameless(seen)
      ensures Effect(old(C()), Get(addr, id, keys, seen, future), C())
    {
      GetRequest(addr, id, keys, seen, future);
      AdvanceKeepsRequested(old(S()), S());
    }

    /** A write of a client. */
    method HandlePut(tuples: seq<(Key, CrossCausal)>)
      requires Valid() && Idle() && forall i | 0 <= i < |tuples| :: PositiveDeps(tuples[i].1)
      modifies this`unmerged, this`puts, this`blank
      ensures Valid() && Idle() && S() == old(S()) && blank == old(blank) + BlankOf(tuples)
      ensures Effect(old(C()), Put(tuples), C())
    {
      PutRequest(tuples);
    }

    /** Any message or timer event; returns what another cache is sent in answer. */
    method Handle(e: Event) returns (tuples: seq<(Key, CrossCausal)>)
      requires Valid() && Idle() && e.WellFormed()
      modifies this
      ensures Valid() && Idle() && Extends(old(S()), S())
      ensures repeated == old(repeated) + if e.Get? && e.addr in old(pending) then {e.addr} else {}
      ensures blank == old(blank) + e.Blank()
      ensures Effect(old(C()), e, C()) && (e.VersionedRequest? ==> tuples == Looked(PinnedFor(versions, e.id), e.keys))
    {
      tuples := [];
      if e.Get? {
        HandleGet(e.addr, e.id, e.keys, e.seen, e.future);
      } else if e.Put? {
        HandlePut(e.versions);
      } else if e.FromStore() {
        HandleStore(e);
      } else {
        tuples := HandleCache(e);
      }
    }

    /**
      Whatever the interleaving of events, the cut stays closed, every reply is sound unless its address
      did not wait for earlier answers, no client is forgotten, and no chain waits for a version that
      has not been asked for.
     */
    method Run(events: seq<Event>)
      requires Valid() && Idle() && forall i | 0 <= i < |events| :: events[i].WellFormed()
      modifies this
      ensures Valid() && Idle() && Extends(old(S()), S())
      ensures Closed(cut) && Dominates(unmerged, cut)
      ensures AnswersSound(D()) && NobodyForgotten(D(), inPreparation) && NothingStuck(S())
    {
      for i := 0 to |events|
        invariant Valid() && Idle() && Extends(old(S()), S())
      {
        ghost var s := S();
        var tuples := Handle(events[i]);
        ExtendsTransitive(old(S()), s, S());
      }
      ClientsAreServed(D(), inPreparation);
      ChainsAreServed(S());
    }
  }

  /** What a complete chain reports missing: its head, when one of its versions stands for a missing key. */
  function Gone(head: Key, entries: Store): set<Key> {
    if exists k | k in entries :: entries[k].clock == map[] then {head} else {}
  }

  function SetOf(keys: seq<Key>): set<Key> { set k | k in keys }

  /** A reply covers the whole read set with versions of the cut, and a reliable report is never read back behind. */
  ghost predicate ReadAnswer(r: Reply, addr: Address, cut: Store, readSet: set<Key>, seen: seq<Located>, isNew: bool) {
    && r.to == addr && r.found.Keys + r.missing == readSet && r.found.Keys !! r.missing
    && (forall k | k in r.found :: k in cut && r.found[k] == cut[k])
    && (isNew ==> r.missing == {})
    && (Reliable(seen) ==> NotOlder(r.found, seen))
  }

  /**
    A request has been recorded, or answered after the first `n` replies.  Once it waits for no chain,
    what the client may read later along with what is read here is pinned.
   */
  ghost predicate Outcome(s: Snap, versions: map<string, Store>, n: nat, addr: Address, id: string, readSet: set<Key>,
                          seen: seq<Located>, future: set<Key>, isNew: bool) {
    || (addr in s.pending && Recorded(s.pending[addr], versions, s.cut, id, readSet, future))
    || (addr !in s.pending && exists i :: n <= i < |s.replies| && ReadAnswer(s.replies[i], addr, s.cut, readSet, seen, isNew)
                                       && PinsAll(versions, id, s.cut, s.replies[i].found.Keys, future))
  }

  ghost predicate Recorded(m: Pending, versions: map<string, Store>, cut: Store, id: string, readSet: set<Key>,
                           future: set<Key>) {
    m.clientId == id && m.readSet == readSet && m.futureReadSet == future && (m.toCover == {} ==> PinsFor(versions, m, cut))
  }

  lemma OutcomeSince(s: Snap, versions: map<string, Store>, n: nat, n': nat, addr: Address, id: string, readSet: set<Key>,
                     seen: seq<Located>, future: set<Key>, isNew: bool)
    requires Outcome(s, versions, n', addr, id, readSet, seen, future, isNew) && n <= n'
    ensures Outcome(s, versions, n, addr, id, readSet, seen, future, isNew)
  {
  }

  lemma AnsweredOutcome(d: Desk, s: Snap, e: Desk, versions: map<string, Store>, addr: Address, m: Pending, isNew: bool)
    requires Finished(d, e, addr, m, s.cut) && s.pending == e.pending && s.replies == e.replies
    requires Guarded(m) && (isNew ==> m.missing == {}) && PinsFor(versions, m, s.cut)
    ensures Outcome(s, versions, |d.replies|, addr, m.clientId, m.readSet, m.seen, m.futureReadSet, isNew)
    ensures RemoteKeys(s.cut, m) == {} ==> addr !in s.pending
  {
    if addr in s.pending {
      assert LocalKeys(s.cut, Fired(s.cut, m)) == LocalKeys(s.cut, m);
    } else {
      var r := e.replies[|d.replies|];
      AnswersRead(r, addr, m, s.cut, isNew);
      assert r.found.Keys <= LocalKeys(s.cut, m);
    }
  }

  /** The keys that an open request at the address may read in the future. */
  function FutureOf(pending: map<Address, Pending>, addr: Address): set<Key> {
    if addr in pending then pending[addr].futureReadSet else {}
  }

  /** What is remembered has been reported. */
  ghost predicate OnlyReported(prior: Prior, seen: seq<Located>) {
    forall k, v :: SeenNewer(prior, k, v) ==> !NotOlderThan(seen, k, v)
  }

  /** The cut has all the keys, and nothing newer has been seen. */
  ghost predicate AllHere(cut: Store, keys: seq<Key>, seen: seq<Located>) {
    forall k | k in keys :: k in cut && NotOlderThan(seen, k, cut[k].clock)
  }

  lemma ReadsHere(cut: Store, m: Pending, keys: seq<Key>, seen: seq<Located>)
    requires m.readSet == SetOf(keys) && OnlyReported(m.prior, seen) && AllHere(cut, keys, seen)
    ensures m.readSet <= cut.Keys && RemoteKeys(cut, m) == {}
  {
  }

  lemma AnswersRead(r: Reply, addr: Address, m: Pending, cut: Store, isNew: bool)
    requires Answers(r, addr, m, cut) && (isNew ==> m.missing == {}) && Guarded(m)
    ensures ReadAnswer(r, addr, cut, m.readSet, m.seen, isNew)
  {
  }

  /** A request that waits for no chain is admitted. */
  lemma AnsweredOk(unmerged: Store, cut: Store, w: Work, d: Desk, e: Desk, addr: Address, m: Pending)
    requires StateOk(unmerged, cut, w, d) && Finished(d, e, addr, m, cut) && d.here == cut.Keys
    requires Guarded(m) && ListsAll(w.chains, m.toCover, addr)
    requires Placed(d, m.(toCover := {})) && Asked(d, addr, m)
    requires addr !in d.repeated ==> addr in d.busy && m.toCover == {} && ListsOnly(w.chains, {}, addr)
    ensures StateOk(unmerged, cut, w, e.(busy := d.busy - {addr}))
    ensures d.replies <= e.replies && d.sent <= e.sent
  {
    FinishedClientsOk(d, e, w.chains, addr, m, cut);
    DeskChanged(unmerged, cut, w, d, e.(busy := d.busy - {addr}));
  }

  /** A client is told that a key does not exist only if the key's own version in its chain says so. */
  lemma OnlyHeadIsGone(head: Key, entries: Store)
    requires OthersExist(entries, head)
    ensures Gone(head, entries) == {head} <==> head in entries && entries[head].clock == map[]
  {
  }

  /** A client has asked for `first`, which another cache holds, and then for `second` at the same address. */
  function Overlapping(id: string, first: Key, second: Key, other: Address, v: Clock): Pending {
    Pending(id, {second}, {second}, map[other := map[first := v]], {}, {first}, {}, map[], {}, map[], [])
  }

  function OverlappingDesk(a: Address, id: string, first: Key, second: Key, other: Address, v: Clock): Desk {
    Desk(map[a := Overlapping(id, first, second, other, v)], map[id := {a}], {Ask(other, id, first)}, [], {}, {}, {a}, {})
  }

  /** The chain of `second` awaits its first version. */
  function OverlappingWork(a: Address, second: Key): Work {
    Work(map[second := Chain({a}, map[])], map[second := {}], map[])
  }

  /**
    With overlapping requests at one address, every invariant of the cache holds; and when the first
    key arrives from the other cache, the reply lacks the second key and is not sound.
   */
  lemma {:induction false} OverlapIsAnsweredEarly(a: Address, id: string, first: Key, second: Key, other: Address, v: Clock,
                                                  l: CrossCausal, d': Desk)
    requires first != second && v != map[]
    requires Delivered(OverlappingDesk(a, id, first, second, other, v), d', {a}, [(first, l)])
    ensures var d, w := OverlappingDesk(a, id, first, second, other, v), OverlappingWork(a, second);
            && StateOk(map[], map[], w, d) && AllRequested(Snap(map[], d.pending, [], d.sent, w, {second}))
            && d.here == {} && d.busy == {} && AllNamed(map[], d.blank)
    ensures exists i :: 0 <= i < |d'.replies| && d'.replies[i].to == a && !Sound(d'.replies[i])
  {
    var d, w := OverlappingDesk(a, id, first, second, other, v), OverlappingWork(a, second);
    OverlapIsOk(a, id, first, second, other, v);
    var m, tuples := d.pending[a], [(first, l)];
    AcceptAllExact(m, tuples);
    assert tuples[0].0 == first;
    assert Complete(d, a, tuples);
    EarlyReply(d, d', a, tuples);
    assert !Collected(m, second) && second in m.readSet;
    var i :| 0 <= i < |d'.replies| && d'.replies[i] == Joined(a, AcceptAll(m, tuples));
  }

  lemma {:induction false} OverlapIsOk(a: Address, id: string, first: Key, second: Key, other: Address, v: Clock)
    requires first != second && v != map[]
    ensures StateOk(map[], map[], OverlappingWork(a, second), OverlappingDesk(a, id, first, second, other, v))
  {
    var d, w := OverlappingDesk(a, id, first, second, other, v), OverlappingWork(a, second);
    assert Ask(other, id, first) in d.sent;
    assert ClientOk(d, a);
    forall h ensures Resting(map[], w, h) {
    }
  }

  datatype Event =
    | Get(addr: Address, id: string, keys: seq<Key>, seen: seq<Located>, future: set<Key>)
    | Put(versions: seq<(Key, CrossCausal)>)
    | Response(key: Key, version: Option<CrossCausal>)
    | Timeout(key: Key)
    | Update(key: Key, latest: CrossCausal)
    | Migration
    | CollectVersions(id: string)
    | VersionedRequest(id: string, keys: seq<Key>)
    | VersionedResponse(id: string, tuples: seq<(Key, CrossCausal)>)
  {
    /** The keys that the event writes or reports without a version. */
    function Blank(): set<Key> {
      if Get? then Nameless(seen) else if Put? then BlankOf(versions) else {}
    }

    predicate FromStore() { Response? || Timeout? || Update? || Migration? }

    predicate FromCache() { CollectVersions? || VersionedRequest? || VersionedResponse? }

    /** Dependencies name a version: their clocks are not empty. */
    ghost predicate WellFormed() {
      match this
      case Put(versions) => forall i | 0 <= i < |versions| :: PositiveDeps(versions[i].1)
      case Response(_, version) => version.Some? ==> PositiveDeps(version.value)
      case Update(_, latest) => PositiveDeps(latest)
      case _ => true
    }
  }
}
