/**
  Reading from the causal cut: which versions a client is answered with,
  which versions are pinned for its later reads, and which versions are read
  from other caches.
 */
module CacheReads {
  import opened Clocks
  import opened CausalLattices
  import opened CacheModel
  import opened CacheInvariants
  import opened CausalFrontiers

  /**
    What the cache remembers of a client request that it has not answered yet.  The keys found not
    to exist are `missing`; `local`, `absent` and `remote` collect what a reply that needs other
    caches will hold.  What the client reported, `seen`, is kept to state what it may be answered with.
   */
  datatype Pending = Pending(clientId: string, readSet: set<Key>, toCover: set<Key>, prior: Prior,
                             futureReadSet: set<Key>, remoteReadSet: set<Key>, missing: set<Key>,
                             local: Store, absent: set<Key>, remote: Store, seen: seq<Located>)

  /**
    An answer: versions found in the cut, keys that do not exist, and versions read from other
    caches.  The request's keys, the keys that it was sent without waiting for and the client's
    report are kept with it.
   */
  datatype Reply = Reply(to: Address, found: Store, missing: set<Key>, remote: Store,
                         readSet: set<Key>, uncovered: set<Key>, seen: seq<Located>)
  {
    /** The versions that were read from the cut for this request. */
    function Here(): Store { Restrict(found, readSet - remote.Keys) }
  }

  /** No version in `found` depends on a newer version of another key in `found`. */
  ghost predicate Snapshot(found: Store) {
    forall k, d | k in found && d in found[k].deps && d in found :: Leq(found[k].deps[d], found[d].clock)
  }

  /**
    An answer covers the request.  What it read here is one snapshot, and is not older than
    anything that a reliable report has seen.
   */
  ghost predicate Sound(r: Reply) {
    && r.readSet <= r.found.Keys + r.missing + r.remote.Keys
    && Snapshot(r.Here())
    && (Reliable(r.seen) ==> NotOlder(r.Here(), r.seen))
  }

  /** An answer is sound unless it was sent while chains were still awaited. */
  ghost predicate ReplyOk(r: Reply) { r.uncovered == {} ==> Sound(r) }

  ghost predicate RepliesOk(replies: seq<Reply>) {
    forall i | 0 <= i < |replies| :: ReplyOk(replies[i])
  }

  function Restrict(m: Store, keys: set<Key>): Store {
    map k | k in m && k in keys :: m[k]
  }

  /** Whatever part of a closed cut is read at once is a causally consistent snapshot. */
  lemma CutReadsAreSnapshots(cut: Store, keys: set<Key>)
    requires Closed(cut)
    ensures Snapshot(Restrict(cut, keys))
  {
  }

  // --------------------------------------------------------- pinned versions

  ghost predicate IsPath(cut: Store, p: seq<Key>) {
    |p| > 0 && forall i | 0 <= i < |p| - 1 :: p[i] in cut && p[i + 1] in cut[p[i]].deps
  }

  /** `t` is reachable from `k` along dependencies of versions in the cut. */
  ghost predicate Reachable(cut: Store, k: Key, t: Key) {
    exists p :: IsPath(cut, p) && p[0] == k && p[|p| - 1] == t
  }

  lemma ReachableStep(cut: Store, k: Key, d: Key, t: Key)
    requires k in cut && d in cut[k].deps && Reachable(cut, d, t)
    ensures Reachable(cut, k, t)
  {
    var p :| IsPath(cut, p) && p[0] == d && p[|p| - 1] == t;
    var q := [k] + p;
    forall i | 0 <= i < |q| - 1 ensures q[i] in cut && q[i + 1] in cut[q[i]].deps {
      if i > 0 { assert q[i] == p[i - 1] && q[i + 1] == p[i]; }
    }
    assert IsPath(cut, q) && q[0] == k && q[|q| - 1] == t;
  }

  lemma ReachableSelf(cut: Store, k: Key)
    ensures Reachable(cut, k, k)
  {
    assert IsPath(cut, [k]);
  }

  /** A set that is closed under dependencies contains everything reachable from it. */
  lemma ReachableStaysIn(cut: Store, s: set<Key>, p: seq<Key>, i: nat)
    requires IsPath(cut, p) && p[0] in s && i < |p|
    requires forall k, d | k in s && k in cut && d in cut[k].deps :: d in s
    ensures p[i] in s
    decreases i
  {
    if i > 0 {
      ReachableStaysIn(cut, s, p, i - 1);
      assert p[i - 1] in cut && p[i - 1 + 1] in cut[p[i - 1]].deps;
    }
  }

  /** The visited part of the depth-first search from `key`, when it starts with `seen` visited. */
  ghost predicate Visited(cut: Store, key: Key, seen: set<Key>, seen': set<Key>) {
    && seen <= seen' && key in seen'
    && (forall k | k in seen' && k !in seen :: Explored(cut, k, seen'))
    && (forall k | k in seen' && k !in seen :: Reachable(cut, key, k))
  }

  ghost predicate Explored(cut: Store, k: Key, seen: set<Key>) {
    k in cut && forall d | d in cut[k].deps :: d in seen
  }

  /** From an empty start the search visits exactly the reachable keys. */
  lemma SearchIsReachability(cut: Store, key: Key, seen: set<Key>)
    requires Visited(cut, key, {}, seen)
    ensures forall t :: t in seen <==> Reachable(cut, key, t)
  {
    forall t ensures t in seen <==> Reachable(cut, key, t) {
      if Reachable(cut, key, t) {
        var p :| IsPath(cut, p) && p[0] == key && p[|p| - 1] == t;
        forall k, d | k in seen && k in cut && d in cut[k].deps ensures d in seen {
          assert Explored(cut, k, seen);
        }
        ReachableStaysIn(cut, seen, p, |p| - 1);
      }
    }
  }

  /** The search from `key` when `todo` is what remains of its dependencies. */
  ghost predicate Visiting(cut: Store, key: Key, seen: set<Key>, seen': set<Key>, todo: set<Key>)
    requires key in cut
  {
    && seen + {key} <= seen' <= cut.Keys
    && (forall d | d in cut[key].deps && d !in todo :: d in seen')
    && (forall k | k in seen' && k !in seen && k != key :: Explored(cut, k, seen'))
    && (forall k | k in seen' && k !in seen :: Reachable(cut, key, k))
  }

  lemma VisitNext(cut: Store, key: Key, seen: set<Key>, a: set<Key>, todo: set<Key>, d: Key, b: set<Key>)
    requires key in cut && d in cut[key].deps
    requires Visiting(cut, key, seen, a, todo) && Visited(cut, d, a, b) && b <= cut.Keys
    ensures Visiting(cut, key, seen, b, todo - {d})
  {
    forall k | k in b && k !in seen ensures Reachable(cut, key, k) {
      if k !in a { ReachableStep(cut, key, d, k); }
    }
    forall k | k in b && k !in seen && k != key ensures Explored(cut, k, b) {
      if k in a { assert Explored(cut, k, a); }
    }
  }

  function PinnedFor(versions: map<string, Store>, id: string): Store {
    if id in versions then versions[id] else map[]
  }

  /** The cut versions of the keys in `keys` override what was pinned before. */
  function Pin(pinned: Store, cut: Store, keys: set<Key>): Store {
    map k | k in pinned.Keys + (keys * cut.Keys) :: if k in keys && k in cut then cut[k] else pinned[k]
  }

  /** Only the versions pinned for `id` changed, by pinning the cut versions of `keys`. */
  ghost predicate PinnedMore(old': map<string, Store>, new': map<string, Store>, id: string, cut: Store, keys: set<Key>) {
    && PinnedFor(new', id) == Pin(PinnedFor(old', id), cut, keys)
    && (forall i | i != id :: PinnedFor(new', i) == PinnedFor(old', i))
  }

  lemma PinnedMoreTwice(a: map<string, Store>, b: map<string, Store>, c: map<string, Store>, id: string, cut: Store,
                        k1: set<Key>, k2: set<Key>)
    requires PinnedMore(a, b, id, cut, k1) && PinnedMore(b, c, id, cut, k2)
    ensures PinnedMore(a, c, id, cut, k1 + k2)
  {
  }

  /** In a closed cut, whatever is reachable from a key of the cut is in it. */
  lemma ReachableInCut(cut: Store, k: Key, t: Key)
    requires Closed(cut) && k in cut && Reachable(cut, k, t)
    ensures t in cut
  {
    var p :| IsPath(cut, p) && p[0] == k && p[|p| - 1] == t;
    forall j, d | j in cut.Keys && j in cut && d in cut[j].deps ensures d in cut.Keys {
      assert Supplies(cut, d, cut[j].deps[d]);
    }
    ReachableStaysIn(cut, cut.Keys, p, |p| - 1);
  }

  /** What is reachable from `keys`, and may be read in the future, is pinned for `id` at its version in the cut. */
  ghost predicate PinsAll(versions: map<string, Store>, id: string, cut: Store, keys: set<Key>, future: set<Key>) {
    forall k, t | k in keys && t in future && Reachable(cut, k, t) :: PinnedAt(versions, id, cut, t)
  }

  predicate PinnedAt(versions: map<string, Store>, id: string, cut: Store, t: Key) {
    t in cut && t in PinnedFor(versions, id) && PinnedFor(versions, id)[t] == cut[t]
  }

  /** Nothing is unpinned; what is pinned anew, or differently, is the version in the cut. */
  ghost predicate PinsGrow(old': map<string, Store>, new': map<string, Store>, cut: Store) {
    && (forall id, t | t in PinnedFor(old', id) :: t in PinnedFor(new', id))
    && (forall id, t | t in PinnedFor(new', id) ::
          || (t in PinnedFor(old', id) && PinnedFor(new', id)[t] == PinnedFor(old', id)[t])
          || PinnedAt(new', id, cut, t))
  }

  lemma PinnedMoreGrows(old': map<string, Store>, new': map<string, Store>, id: string, cut: Store, keys: set<Key>)
    requires PinnedMore(old', new', id, cut, keys)
    ensures PinsGrow(old', new', cut)
  {
    forall i, t | t in PinnedFor(new', i)
      ensures (t in PinnedFor(old', i) && PinnedFor(new', i)[t] == PinnedFor(old', i)[t]) || PinnedAt(new', i, cut, t)
    {
      if i != id { assert PinnedFor(new', i) == PinnedFor(old', i); }
    }
    forall i, t | t in PinnedFor(old', i) ensures t in PinnedFor(new', i) {
      if i != id { assert PinnedFor(new', i) == PinnedFor(old', i); }
    }
  }

  lemma PinsGrowTransitive(a: map<string, Store>, b: map<string, Store>, c: map<string, Store>, cut: Store)
    requires PinsGrow(a, b, cut) && PinsGrow(b, c, cut)
    ensures PinsGrow(a, c, cut)
  {
    forall id, t | t in PinnedFor(c, id)
      ensures (t in PinnedFor(a, id) && PinnedFor(c, id)[t] == PinnedFor(a, id)[t]) || PinnedAt(c, id, cut, t)
    {
      if !PinnedAt(c, id, cut, t) {
        assert t in PinnedFor(b, id) && PinnedFor(c, id)[t] == PinnedFor(b, id)[t];
      }
    }
  }

  lemma PinsAllStays(a: map<string, Store>, b: map<string, Store>, id: string, cut: Store, keys: set<Key>, future: set<Key>)
    requires PinsAll(a, id, cut, keys, future) && PinsGrow(a, b, cut)
    ensures PinsAll(b, id, cut, keys, future)
  {
    forall k, t | k in keys && t in future && Reachable(cut, k, t) ensures PinnedAt(b, id, cut, t) {
      assert PinnedAt(a, id, cut, t);
    }
  }

  // ------------------------------------------------------------- remote reads

  predicate NeedsRemote(cut: Store, prior: Prior, key: Key) {
    key !in cut || SeenNewer(prior, key, cut[key].clock)
  }

  /** The keys of a request that are read from other caches. */
  ghost function RemoteKeys(cut: Store, m: Pending): set<Key> {
    set k | k in m.readSet && k !in m.missing && NeedsRemote(cut, m.prior, k)
  }

  /** The keys of a request that are read here. */
  ghost function LocalKeys(cut: Store, m: Pending): set<Key> {
    set k | k in m.readSet && k !in m.missing && !NeedsRemote(cut, m.prior, k)
  }

  /** The request once the keys in `done` are sorted into local, missing and remote ones. */
  ghost function FiredFor(cut: Store, m: Pending, done: set<Key>): Pending {
    m.(remoteReadSet := m.remoteReadSet + RemoteKeys(cut, m) * done,
       local := Taken(m.local, cut, LocalKeys(cut, m) * done, m.missing * done),
       absent := m.absent + m.missing * done)
  }

  /** The payload with the cut versions of `keys` put in and `gone` taken out. */
  function Taken(local: Store, cut: Store, keys: set<Key>, gone: set<Key>): Store {
    map k | k in local.Keys + keys * cut.Keys && k !in gone :: if k in keys && k in cut then cut[k] else local[k]
  }

  /** The request once all its keys are sorted. */
  ghost function Fired(cut: Store, m: Pending): Pending { FiredFor(cut, m, m.readSet) }

  /** Sorting one more key. */
  ghost function FiredNext(cut: Store, m: Pending, m1: Pending, k: Key): Pending {
    if k in m.missing then m1.(local := m1.local - {k}, absent := m1.absent + {k})
    else if NeedsRemote(cut, m.prior, k) then m1.(remoteReadSet := m1.remoteReadSet + {k})
    else m1.(local := m1.local[k := cut[k]])
  }

  lemma FiredOneMore(cut: Store, m: Pending, done: set<Key>, k: Key)
    requires k in m.readSet && k !in done
    ensures FiredFor(cut, m, done + {k}) == FiredNext(cut, m, FiredFor(cut, m, done), k)
  {
    SplitAt(RemoteKeys(cut, m), done, k);
    SplitAt(LocalKeys(cut, m), done, k);
    SplitAt(m.missing, done, k);
    TakenOneMore(m.local, cut, LocalKeys(cut, m) * done, m.missing * done, k);
    if k in m.missing {
      assert m.absent + (m.missing * done + {k}) == m.absent + m.missing * done + {k};
    } else if NeedsRemote(cut, m.prior, k) {
      assert m.remoteReadSet + (RemoteKeys(cut, m) * done + {k}) == m.remoteReadSet + RemoteKeys(cut, m) * done + {k};
    }
  }

  lemma FiredNothing(cut: Store, m: Pending)
    ensures FiredFor(cut, m, {}) == m
  {
    assert Taken(m.local, cut, LocalKeys(cut, m) * {}, m.missing * {}) == m.local;
    assert m.remoteReadSet + RemoteKeys(cut, m) * {} == m.remoteReadSet;
    assert m.absent + m.missing * {} == m.absent;
  }

  /** Sorting the keys does not change which of them need other caches, nor what an answer from the cut holds. */
  lemma FiredNeedsNoMore(cut: Store, m: Pending)
    ensures RemoteKeys(cut, Fired(cut, m)) == RemoteKeys(cut, m)
    ensures forall r, a :: Answers(r, a, Fired(cut, m), cut) ==> Answers(r, a, m, cut)
  {
  }

  lemma SplitAt(s: set<Key>, done: set<Key>, k: Key)
    ensures s * (done + {k}) == if k in s then s * done + {k} else s * done
  {
  }

  lemma TakenOneMore(local: Store, cut: Store, keys: set<Key>, gone: set<Key>, k: Key)
    requires k !in keys && k !in gone
    ensures Taken(local, cut, keys, gone + {k}) == Taken(local, cut, keys, gone) - {k}
    ensures k in cut ==> Taken(local, cut, keys + {k}, gone) == Taken(local, cut, keys, gone)[k := cut[k]]
  {
  }

  ghost predicate IsPinSet(cut: Store, m: Pending, done: set<Key>, pins: set<Key>) {
    forall t :: t in pins <==>
      (&& t in m.futureReadSet
       && exists k :: k in done && k !in m.missing && !NeedsRemote(cut, m.prior, k) && Reachable(cut, k, t))
  }

  /** A request to another cache: what it has pinned of a key for a client. */
  datatype Ask = Ask(to: Address, id: string, key: Key)

  /** The clock that remembered versions are compared with. */
  function ClockHere(cut: Store, k: Key): Clock { if k in cut then cut[k].clock else map[] }

  /** The caches to ask are found exactly for the keys in `done` of which a newer version is remembered. */
  ghost predicate AsksFor(cut: Store, m: Pending, done: set<Key>, asks: set<Ask>) {
    && (forall q | q in asks ::
          q.id == m.clientId && q.key in RemoteKeys(cut, m) && IsNewerAt(m.prior, q.to, q.key, ClockHere(cut, q.key)))
    && (forall k | k in RemoteKeys(cut, m) && k in done ::
          (exists q :: q in asks && q.key == k) <==> SeenNewer(m.prior, k, ClockHere(cut, k)))
    && (forall q | q in asks :: q.key in done)
  }

  ghost predicate IsNewerAt(prior: Prior, a: Address, k: Key, v: Clock) {
    a in prior && k in prior[a] && Below(v, prior[a][k])
  }

  lemma AsksForSame(cut: Store, m: Pending, done: set<Key>, asks: set<Ask>, k: Key)
    requires AsksFor(cut, m, done, asks) && k !in done
    ensures k !in RemoteKeys(cut, m) || !SeenNewer(m.prior, k, ClockHere(cut, k)) ==> AsksFor(cut, m, done + {k}, asks)
  {
  }

  lemma AsksForPlus(cut: Store, m: Pending, done: set<Key>, asks: set<Ask>, k: Key, a: Address)
    requires AsksFor(cut, m, done, asks) && k !in done && k in RemoteKeys(cut, m)
    requires IsNewerAt(m.prior, a, k, ClockHere(cut, k))
    ensures AsksFor(cut, m, done + {k}, asks + {Ask(a, m.clientId, k)})
  {
    var asks' := asks + {Ask(a, m.clientId, k)};
    forall j | j in RemoteKeys(cut, m) && j in done + {k}
      ensures (exists q :: q in asks' && q.key == j) <==> SeenNewer(m.prior, j, ClockHere(cut, j))
    {
      if j == k {
        assert Ask(a, m.clientId, k) in asks';
      } else if q :| q in asks && q.key == j {
        assert q in asks';
      }
    }
  }

  /** The keys in `done` of request `m` have been sorted: `m1` is the request, `asks` are the requests to other caches. */
  ghost predicate Firing(cut: Store, m: Pending, done: set<Key>, m1: Pending, remote: bool, asks: set<Ask>) {
    m1 == FiredFor(cut, m, done) && (remote <==> RemoteKeys(cut, m) * done != {}) && AsksFor(cut, m, done, asks)
  }

  lemma FiringMissing(cut: Store, m: Pending, done: set<Key>, m1: Pending, remote: bool, asks: set<Ask>, k: Key)
    requires Firing(cut, m, done, m1, remote, asks) && k in m.readSet && k !in done && k in m.missing
    ensures Firing(cut, m, done + {k}, m1.(local := m1.local - {k}, absent := m1.absent + {k}), remote, asks)
  {
    FiredOneMore(cut, m, done, k);
    SplitAt(RemoteKeys(cut, m), done, k);
    AsksForSame(cut, m, done, asks, k);
  }

  lemma FiringHere(cut: Store, m: Pending, done: set<Key>, m1: Pending, remote: bool, asks: set<Ask>, k: Key)
    requires Firing(cut, m, done, m1, remote, asks) && k in m.readSet && k !in done
    requires k !in m.missing && !NeedsRemote(cut, m.prior, k)
    ensures Firing(cut, m, done + {k}, m1.(local := m1.local[k := cut[k]]), remote, asks)
  {
    FiredOneMore(cut, m, done, k);
    SplitAt(RemoteKeys(cut, m), done, k);
    AsksForSame(cut, m, done, asks, k);
  }

  lemma FiringAway(cut: Store, m: Pending, done: set<Key>, m1: Pending, remote: bool, asks: set<Ask>, k: Key, asks': set<Ask>)
    requires Firing(cut, m, done, m1, remote, asks) && k in m.readSet && k !in done
    requires k !in m.missing && NeedsRemote(cut, m.prior, k)
    requires if asks' == asks then !SeenNewer(m.prior, k, ClockHere(cut, k))
             else exists a :: IsNewerAt(m.prior, a, k, ClockHere(cut, k)) && asks' == asks + {Ask(a, m.clientId, k)}
    ensures Firing(cut, m, done + {k}, m1.(remoteReadSet := m1.remoteReadSet + {k}), true, asks')
  {
    FiredOneMore(cut, m, done, k);
    SplitAt(RemoteKeys(cut, m), done, k);
    assert k in RemoteKeys(cut, m) * (done + {k});
    if asks' == asks {
      AsksForSame(cut, m, done, asks, k);
    } else {
      var a :| IsNewerAt(m.prior, a, k, ClockHere(cut, k)) && asks' == asks + {Ask(a, m.clientId, k)};
      AsksForPlus(cut, m, done, asks, k, a);
    }
  }

  /** A key that is read remotely has an addressee if and only if it is in the cut or remembered with a version. */
  lemma AddresseeIff(cut: Store, m: Pending, asks: set<Ask>, k: Key)
    requires AsksFor(cut, m, m.readSet, asks) && k in RemoteKeys(cut, m)
    ensures (exists q :: q in asks && q.key == k) <==> k in cut || SeenNewer(m.prior, k, map[])
  {
  }

  /** Every remote key with an addressee has been asked for. */
  ghost predicate AskedAll(cut: Store, m: Pending, sent: set<Ask>) {
    forall k | k in RemoteKeys(cut, m) && (k in cut || SeenNewer(m.prior, k, map[])) ::
      exists q :: q in sent && q.id == m.clientId && q.key == k
  }

  /** A key that is not read here pins nothing. */
  lemma PinSetSame(cut: Store, m: Pending, done: set<Key>, pins: set<Key>, k: Key)
    requires IsPinSet(cut, m, done, pins)
    ensures k in m.missing || NeedsRemote(cut, m.prior, k) ==> IsPinSet(cut, m, done + {k}, pins)
  {
  }

  lemma PinSetPlus(cut: Store, m: Pending, done: set<Key>, pins: set<Key>, k: Key, seen: set<Key>)
    requires IsPinSet(cut, m, done, pins) && k !in m.missing && !NeedsRemote(cut, m.prior, k)
    requires forall t :: t in seen <==> Reachable(cut, k, t)
    ensures IsPinSet(cut, m, done + {k}, pins + seen * m.futureReadSet)
  {
    var pins' := pins + seen * m.futureReadSet;
    forall t ensures t in pins' <==>
      (&& t in m.futureReadSet
       && exists j :: j in done + {k} && j !in m.missing && !NeedsRemote(cut, m.prior, j) && Reachable(cut, j, t))
    {
      if t in m.futureReadSet && Reachable(cut, k, t) {
        assert t in pins' && k in done + {k};
      }
    }
  }

  /** What a request pins is all that the client may read later along with the keys that are read here. */
  lemma PinSetPinsAll(old': map<string, Store>, new': map<string, Store>, cut: Store, m: Pending, pins: set<Key>)
    requires Closed(cut) && IsPinSet(cut, m, m.readSet, pins) && PinnedMore(old', new', m.clientId, cut, pins)
    ensures PinsAll(new', m.clientId, cut, LocalKeys(cut, m), m.futureReadSet) && PinsGrow(old', new', cut)
  {
    PinnedMoreGrows(old', new', m.clientId, cut, pins);
    forall k, t | k in LocalKeys(cut, m) && t in m.futureReadSet && Reachable(cut, k, t)
      ensures PinnedAt(new', m.clientId, cut, t)
    {
      ReachableInCut(cut, k, t);
      assert t in pins;
    }
  }

  /** The keys of a request that are neither missing nor left to other caches. */
  function ReadHere(m: Pending): set<Key> { m.readSet - m.missing - m.remoteReadSet - m.remote.Keys }

  /** What has been collected suffices, with the remote versions to come, for a sound answer. */
  ghost predicate Gathered(m: Pending) {
    && m.readSet * m.missing <= m.absent
    && ReadHere(m) <= m.local.Keys
    && Snapshot(Restrict(m.local, ReadHere(m)))
    && (forall k | k in ReadHere(m) && k in m.local :: !SeenNewer(m.prior, k, m.local[k].clock))
  }

  lemma FiredGathers(cut: Store, m: Pending)
    requires Closed(cut)
    ensures Gathered(Fired(cut, m)) && RemoteKeys(cut, m) <= Fired(cut, m).remoteReadSet
    ensures forall k | k in LocalKeys(cut, m) :: k in Fired(cut, m).local && Fired(cut, m).local[k] == cut[k]
  {
    var m' := Fired(cut, m);
    forall k | k in ReadHere(m') ensures k in LocalKeys(cut, m) && k in m'.local && m'.local[k] == cut[k] {
      assert k !in RemoteKeys(cut, m) * m.readSet;
    }
    assert Restrict(m'.local, ReadHere(m')) == Restrict(cut, ReadHere(m'));
    CutReadsAreSnapshots(cut, ReadHere(m'));
  }

  /** What the client reported is guarded by what is remembered. */
  ghost predicate Guarded(m: Pending) { Reliable(m.seen) ==> Guards(m.prior, m.seen) }

  ghost predicate ReadOk(m: Pending) { Guarded(m) && (m.toCover == {} ==> Gathered(m)) }

  // -------------------------------------------------------------- local answers

  /** Reply `r` answers the whole request from the cut, and nothing in it is older than what the client has read. */
  ghost predicate Answers(r: Reply, a: Address, m: Pending, cut: Store) {
    && r.to == a && r.readSet == m.readSet && r.seen == m.seen && r.uncovered == {} && r.remote == map[]
    && r.missing == m.readSet * m.missing
    && r.found.Keys == m.readSet - m.missing && (forall k | k in r.found :: k in cut && r.found[k] == cut[k])
    && (forall k | k in r.found :: !SeenNewer(m.prior, k, r.found[k].clock))
  }

  lemma AnswersAreSound(r: Reply, a: Address, m: Pending, cut: Store)
    requires Answers(r, a, m, cut) && Guarded(m) && Closed(cut)
    ensures Sound(r) && r.Here() == r.found
  {
    assert r.Here() == r.found && r.found == Restrict(cut, r.found.Keys);
    CutReadsAreSnapshots(cut, r.found.Keys);
  }
}
