/**
  The handlers of a storage thread that hand keys over: a change of
  replication factors, and a server joining the thread's tier.
 */
module KvsThreads {
  import opened HashRings
  import opened Replication

  datatype Action = Send(key: Key, to: Thread) | Drop(key: Key)

  /** The factors asked for a key.  A message lists a key once. */
  datatype Change = Change(key: Key, factors: seq<Factor>)

  /** A change with the key's view of the tiers. */
  datatype Update = Update(key: Key, factors: seq<Factor>, tiers: seq<Tier>)

  /** Factors fit the rings, and a key with known factors has an owner. */
  ghost predicate Fitting(u: Update, known: map<Key, seq<Factor>>) {
    && Fits(u.tiers, u.factors)
    && (u.key in known ==> Fits(u.tiers, known[u.key]) && Owners(u.tiers, known[u.key]) != [])
  }

  /** Every owner under the new factors has been sent the key.  Factors that ask for no replica have no owner. */
  ghost predicate HandedOn(u: Update, sent: seq<Action>) {
    Fits(u.tiers, u.factors) && forall t | t in Owners(u.tiers, u.factors) :: Send(u.key, t) in sent
  }

  ghost predicate IsOwner(u: Update, t: Thread) {
    Fits(u.tiers, u.factors) && t in Owners(u.tiers, u.factors)
  }

  /** Whether some factor is lowered, found by comparing factor by factor. */
  method IsLowered(f: seq<Factor>, f': seq<Factor>) returns (lowered: bool)
    requires |f| == |f'|
    ensures lowered <==> Lowered(f, f')
  {
    lowered := false;
    for i := 0 to |f|
      invariant lowered <==> exists j | 0 <= j < i :: f'[j].global < f[j].global
    {
      if f'[i].global < f[i].global { lowered := true; }
    }
    ghost var globals := lowered;
    for i := 0 to |f|
      invariant lowered <==> globals || exists j | 0 <= j < i :: f'[j].local < f[j].local
    {
      if f'[i].local < f[i].local { lowered := true; }
    }
    if globals { var j :| 0 <= j < |f| && f'[j].global < f[j].global; assert LoweredAt(f, f', j); }
    if j :| 0 <= j < |f| && f'[j].local < f[j].local { assert LoweredAt(f, f', j); }
  }

  /** What thread `self` has to do about one update. */
  ghost function Reacts(self: Thread, u: Update, known: map<Key, seq<Factor>>, held: set<Key>): Reaction
  {
    if Fitting(u, known) && u.key in held && u.key in known then
      React(self, Owners(u.tiers, known[u.key]), Owners(u.tiers, u.factors), Lowered(known[u.key], u.factors))
    else Reaction({}, false)
  }

  /** A message about different keys whose factors fit. */
  ghost predicate FittingAll(updates: seq<Update>, known: map<Key, seq<Factor>>) {
    && (forall i | 0 <= i < |updates| :: Fitting(updates[i], known))
    && (forall i, j | 0 <= i < j < |updates| :: updates[i].key != updates[j].key)
  }

  /** The factors after the first `n` updates. */
  function Recorded(known: map<Key, seq<Factor>>, updates: seq<Update>, n: nat): map<Key, seq<Factor>>
    requires n <= |updates|
  {
    if n == 0 then known else Recorded(known, updates, n - 1)[updates[n - 1].key := updates[n - 1].factors]
  }

  lemma {:induction false} RecordedElsewhere(known: map<Key, seq<Factor>>, updates: seq<Update>, n: nat, k: Key)
    requires n <= |updates| && forall i | 0 <= i < n :: updates[i].key != k
    ensures k in Recorded(known, updates, n) <==> k in known
    ensures k in known ==> Recorded(known, updates, n)[k] == known[k]
  {
    if n > 0 {
      RecordedElsewhere(known, updates, n - 1, k);
    }
  }

  /** Every update of a message about different keys is recorded. */
  lemma {:induction false} RecordedAll(known: map<Key, seq<Factor>>, updates: seq<Update>, n: nat, i: nat)
    requires i < n <= |updates| && forall a, b | 0 <= a < b < |updates| :: updates[a].key != updates[b].key
    ensures updates[i].key in Recorded(known, updates, n)
    ensures Recorded(known, updates, n)[updates[i].key] == updates[i].factors
  {
    if i < n - 1 {
      RecordedAll(known, updates, n - 1, i);
    }
  }

  lemma {:induction false} AllRecorded(known: map<Key, seq<Factor>>, updates: seq<Update>)
    requires FittingAll(updates, known)
    ensures var f := Recorded(known, updates, |updates|); forall u | u in updates :: u.key in f && f[u.key] == u.factors
  {
    forall u | u in updates
      ensures u.key in Recorded(known, updates, |updates|) && Recorded(known, updates, |updates|)[u.key] == u.factors
    {
      var i :| 0 <= i < |updates| && updates[i] == u;
      RecordedAll(known, updates, |updates|, i);
    }
  }

  function Addressed(k: Key, to: set<Thread>): set<(Key, Thread)> { set t | t in to :: (k, t) }

  /** The keys to send and the keys to drop after that. */
  datatype Plan = Plan(sends: set<(Key, Thread)>, drops: set<Key>) {
    function With(k: Key, r: Reaction): Plan {
      Plan(sends + Addressed(k, r.sends), if r.drops then drops + {k} else drops)
    }
  }

  /** The plan for the first `n` updates. */
  ghost function ChangePlan(self: Thread, updates: seq<Update>, n: nat, known: map<Key, seq<Factor>>, held: set<Key>): Plan
    requires n <= |updates|
  {
    if n == 0 then Plan({}, {})
    else ChangePlan(self, updates, n - 1, known, held).With(updates[n - 1].key, Reacts(self, updates[n - 1], known, held))
  }

  /** Where a send comes from. */
  lemma {:induction false} ChangeSendsMember(self: Thread, updates: seq<Update>, n: nat, known: map<Key, seq<Factor>>,
                                             held: set<Key>, k: Key, t: Thread)
    requires n <= |updates|
    ensures (k, t) in ChangePlan(self, updates, n, known, held).sends <==>
            exists i :: 0 <= i < n && updates[i].key == k && t in Reacts(self, updates[i], known, held).sends
  {
    if n > 0 {
      ChangeSendsMember(self, updates, n - 1, known, held, k, t);
    }
  }

  /** Where a drop comes from. */
  lemma {:induction false} ChangeDropsMember(self: Thread, updates: seq<Update>, n: nat, known: map<Key, seq<Factor>>,
                                             held: set<Key>, k: Key)
    requires n <= |updates|
    ensures k in ChangePlan(self, updates, n, known, held).drops <==>
            exists i :: 0 <= i < n && updates[i].key == k && Reacts(self, updates[i], known, held).drops
  {
    if n > 0 {
      ChangeDropsMember(self, updates, n - 1, known, held, k);
    }
  }

  /** An update that has not been recorded yet meets the factors it was sent for. */
  lemma {:induction false} NotYetRecorded(self: Thread, updates: seq<Update>, n: nat, known: map<Key, seq<Factor>>,
                                          held: set<Key>)
    requires n < |updates| && FittingAll(updates, known)
    ensures Fitting(updates[n], Recorded(known, updates, n))
    ensures Reacts(self, updates[n], Recorded(known, updates, n), held) == Reacts(self, updates[n], known, held)
  {
    RecordedElsewhere(known, updates, n, updates[n].key);
  }

  /** The messages of a thread that reacts to a message of new factors. */
  ghost predicate Executed(self: Thread, updates: seq<Update>, known: map<Key, seq<Factor>>, held: set<Key>,
                           sent: seq<Action>, dropped: seq<Action>)
  {
    && (forall a :: a in sent <==> a.Send? && (a.key, a.to) in ChangePlan(self, updates, |updates|, known, held).sends)
    && (forall a :: a in dropped <==> a.Drop? && a.key in ChangePlan(self, updates, |updates|, known, held).drops)
  }

  /** A key that is dropped is sent to every new owner, and whoever keeps a key owns it. */
  lemma {:induction false} NothingIsLost(self: Thread, updates: seq<Update>, known: map<Key, seq<Factor>>, held: set<Key>,
                                         sent: seq<Action>, dropped: seq<Action>, i: nat)
    requires FittingAll(updates, known) && i < |updates|
    requires Executed(self, updates, known, held, sent, dropped)
    ensures Drop(updates[i].key) in dropped ==> HandedOn(updates[i], sent)
    ensures updates[i].key in held && updates[i].key in known && Drop(updates[i].key) !in dropped ==> IsOwner(updates[i], self)
  {
    var u := updates[i];
    assert Fitting(u, known);
    ChangeDropsMember(self, updates, |updates|, known, held, u.key);
    if Drop(u.key) in dropped {
      var j :| 0 <= j < |updates| && updates[j].key == u.key && Reacts(self, updates[j], known, held).drops;
      assert j == i;
      forall t | t in Owners(u.tiers, u.factors) ensures Send(u.key, t) in sent {
        ChangeSendsMember(self, updates, |updates|, known, held, u.key, t);
      }
    }
  }

  lemma {:induction false} NothingIsLostAtAll(self: Thread, updates: seq<Update>, known: map<Key, seq<Factor>>, held: set<Key>,
                                              sent: seq<Action>, dropped: seq<Action>)
    requires FittingAll(updates, known)
    requires Executed(self, updates, known, held, sent, dropped)
    ensures forall u | u in updates && Drop(u.key) in dropped :: HandedOn(u, sent)
    ensures forall u | u in updates && u.key in held && u.key in known && Drop(u.key) !in dropped :: IsOwner(u, self)
  {
    forall u | u in updates
      ensures Drop(u.key) in dropped ==> HandedOn(u, sent)
      ensures u.key in held && u.key in known && Drop(u.key) !in dropped ==> IsOwner(u, self)
    {
      var i :| 0 <= i < |updates| && updates[i] == u;
      NothingIsLost(self, updates, known, held, sent, dropped, i);
    }
  }

  /**
    When every old owner reacts to a change of factors, every new owner is sent the key by one of
    them exactly under the condition on the factors; the owners are those that the rings determine.
   */
  lemma {:induction false} ChangeReachesOwnersIff(u: Update, known: map<Key, seq<Factor>>, globals: seq<Ring>,
                                                  locals: seq<Ring>, hg: nat, hl: nat)
    requires RingsOk(globals, locals) && u.tiers == TiersOf(globals, locals, hg, hl)
    requires Fitting(u, known) && u.key in known
    ensures var f, f' := known[u.key], u.factors;
            (forall t | t in Owners(u.tiers, f') && t !in Owners(u.tiers, f) ::
               exists s :: s in Owners(u.tiers, f) && t in Reacts(s, u, known, {u.key}).sends) <==>
            (!LosesReplica(f', f) || !Lowered(f, f') || LosesReplica(f, f'))
  {
    var f, f' := known[u.key], u.factors;
    var orig, now := Owners(u.tiers, f), Owners(u.tiers, f');
    RingDeliveredIff(globals, locals, hg, hl, f, f');
    forall s, t ensures t in Reacts(s, u, known, {u.key}).sends <==> t in React(s, orig, now, Lowered(f, f')).sends {}
  }

  /** The changes of a message, each with its key's view of the rings. */
  ghost function Resolve(changes: seq<Change>, globals: seq<Ring>, locals: seq<Ring>, gh: Key -> nat, lh: Key -> nat)
    : (us: seq<Update>)
    requires |globals| == |locals|
    ensures |us| == |changes|
  {
    seq(|changes|, i requires 0 <= i < |changes| =>
      Update(changes[i].key, changes[i].factors, TiersOf(globals, locals, gh(changes[i].key), lh(changes[i].key))))
  }

  /** What thread `self` does with a key whose owners change from `orig` to `now`. */
  method Decide(self: Thread, orig: seq<Thread>, now: seq<Thread>, decrement: bool) returns (r: Reaction)
    requires orig != []
    ensures r == React(self, orig, now, decrement)
  {
    r := Reaction({}, false);
    if self !in now {
      r := Reaction(set t | t in now, true);
    }
    if !decrement && orig[0] == self {
      r := r.(sends := r.sends + set t | t in now && t !in orig);
    }
  }

  /** The reaction to one change, when `known` are the factors before it; `hg` and `hl` are the key's hashes. */
  method ReactToChange(self: Thread, c: Change, globals: seq<Ring>, locals: seq<Ring>, hg: nat, hl: nat,
                       known: map<Key, seq<Factor>>, held: set<Key>) returns (r: Reaction)
    requires |globals| == |locals| && Fitting(Update(c.key, c.factors, TiersOf(globals, locals, hg, hl)), known)
    ensures r == Reacts(self, Update(c.key, c.factors, TiersOf(globals, locals, hg, hl)), known, held)
  {
    r := Reaction({}, false);
    if c.key in held && c.key in known {
      var orig := ResponsibleThreads(globals, locals, hg, hl, known[c.key]);
      var decrement := IsLowered(known[c.key], c.factors);
      var now := ResponsibleThreads(globals, locals, hg, hl, c.factors);
      r := Decide(self, orig, now, decrement);
    }
  }

  /** The keys to send and to drop for a whole message, and the factors after it. */
  method PlanChange(self: Thread, changes: seq<Change>, globals: seq<Ring>, locals: seq<Ring>, gh: Key -> nat, lh: Key -> nat,
                    factors: map<Key, seq<Factor>>, held: set<Key>) returns (plan: Plan, known: map<Key, seq<Factor>>)
    requires |globals| == |locals| && FittingAll(Resolve(changes, globals, locals, gh, lh), factors)
    ensures known == Recorded(factors, Resolve(changes, globals, locals, gh, lh), |changes|)
    ensures plan == ChangePlan(self, Resolve(changes, globals, locals, gh, lh), |changes|, factors, held)
  {
    ghost var updates := Resolve(changes, globals, locals, gh, lh);
    plan, known := Plan({}, {}), factors;
    for n := 0 to |changes|
      invariant known == Recorded(factors, updates, n)
      invariant plan == ChangePlan(self, updates, n, factors, held)
    {
      var c := changes[n];
      NotYetRecorded(self, updates, n, factors, held);
      var r := ReactToChange(self, c, globals, locals, gh(c.key), lh(c.key), known, held);
      known := known[c.key := c.factors];
      plan := plan.With(c.key, r);
    }
  }

  /** The thread's reaction to server `x` joining, for one key; a key without known owners is skipped. */
  function ReactsToJoin(self: Thread, now: map<Key, seq<Thread>>, k: Key, x: string, count: int): Reaction {
    if k in now then JoinReact(self, now[k], x, count) else Reaction({}, false)
  }

  /** What is to be sent because of the join, for the keys in `keys`. */
  ghost function JoinSends(self: Thread, now: map<Key, seq<Thread>>, keys: set<Key>, x: string, count: int)
    : set<(Key, Thread)>
  {
    set k, t | k in keys && t in ReactsToJoin(self, now, k, x, count).sends :: (k, t)
  }

  /** What is to be dropped after that. */
  ghost function JoinDrops(self: Thread, now: map<Key, seq<Thread>>, keys: set<Key>, x: string, count: int): set<Key> {
    set k | k in keys && ReactsToJoin(self, now, k, x, count).drops
  }

  lemma JoinOneMore(self: Thread, now: map<Key, seq<Thread>>, keys: set<Key>, k: Key, x: string, count: int)
    ensures var r := ReactsToJoin(self, now, k, x, count);
            && JoinSends(self, now, keys + {k}, x, count) ==
               JoinSends(self, now, keys, x, count) + Addressed(k, r.sends)
            && JoinDrops(self, now, keys + {k}, x, count) ==
               if r.drops then JoinDrops(self, now, keys, x, count) + {k} else JoinDrops(self, now, keys, x, count)
  {
  }

  /**
    What a join makes a thread schedule.  On a first join it drops exactly the keys that it no longer
    owns, and schedules those for all their owners; a rejoining server is scheduled exactly what it
    owns, and nothing is dropped.
   */
  ghost predicate Scheduled(self: Thread, now: map<Key, seq<Thread>>, keys: set<Key>, x: string, count: int,
                            sends: set<(Key, Thread)>, drops: set<Key>) {
    && (forall k :: k in drops <==> k in keys && k in now && count == 0 && self !in now[k])
    && (forall k, t :: (k, t) in sends <==>
          k in keys && k in now && t in now[k] && (k in drops || (count > 0 && t.ip == x)))
  }

  lemma JoinIsScheduled(self: Thread, now: map<Key, seq<Thread>>, keys: set<Key>, x: string, count: int)
    ensures Scheduled(self, now, keys, x, count, JoinSends(self, now, keys, x, count), JoinDrops(self, now, keys, x, count))
  {
  }

  /** Among the first `g` servers for a key, `x` has taken the place of the server at `ip`. */
  predicate Displaces(r: Ring, r': Ring, x: string, ip: string, h: nat, g: nat) {
    && 0 < g <= |Order(r, h)| && g <= |Order(r', h)|
    && Node(x) in Order(r', h)[..g] && Order(r, h)[g - 1].ip == ip
  }

  /**
    A server joins a tier for the first time, and `now` are the owners that the new ring
    determines.  An old owner drops the key exactly if its server is the displaced one, and then
    it sends the key to every owner; nobody else sends anything.
   */
  lemma {:induction false} FirstJoinHandsOver(self: Thread, r: Ring, x: string, n: nat, hasher: (Server, nat) -> nat,
                                              local: Ring, hg: nat, hl: nat, f: Factor, now: seq<Thread>, rx: Reaction)
    requires Sorted(r) && (forall s | s in r :: s.server.tid == 0) && Node(x) !in Servers(r)
    requires FitsTier(r, local, hg, hl, f) && FitsTier(PutAll(r, Node(x), n, hasher), local, hg, hl, f)
    requires self in TierOwners(r, local, hg, hl, f) && now == TierOwners(PutAll(r, Node(x), n, hasher), local, hg, hl, f)
    requires rx == JoinReact(self, now, x, 0)
    ensures rx.drops <==> Displaces(r, PutAll(r, Node(x), n, hasher), x, self.ip, hg, f.global)
    ensures rx.sends == if rx.drops then set t | t in now else {}
    ensures forall t | t in now && t !in TierOwners(r, local, hg, hl, f) :: t.ip == x
  {
    var after, tids := Order(PutAll(r, Node(x), n, hasher), hg), Tids(Order(local, hl))[..f.local];
    RingJoinHandsOver(r, x, n, hasher, hg, f.global, tids, after);
  }

  /** The factors of every key fit one tier. */
  ghost predicate AllFit(factors: map<Key, seq<Factor>>, tier: nat, r: Ring, local: Ring, gh: Key -> nat, lh: Key -> nat) {
    forall k | k in factors :: tier < |factors[k]| && FitsTier(r, local, gh(k), lh(k), factors[k][tier])
  }

  /** The owners in that tier of those keys whose factors are known. */
  ghost function OwnersIn(keys: set<Key>, factors: map<Key, seq<Factor>>, tier: nat, r: Ring, local: Ring,
                          gh: Key -> nat, lh: Key -> nat): (now: map<Key, seq<Thread>>)
    requires AllFit(factors, tier, r, local, gh, lh)
    ensures now.Keys == keys * factors.Keys
  {
    map k | k in keys && k in factors :: TierOwners(r, local, gh(k), lh(k), factors[k][tier])
  }

  /** What a first join does to key `k` of an old owner: the displaced server's thread hands it to every owner. */
  ghost predicate HandedOver(k: Key, self: Thread, x: string, r: Ring, r': Ring, h: nat, g: nat, now: seq<Thread>,
                             sends: set<(Key, Thread)>, drops: set<Key>) {
    if Displaces(r, r', x, self.ip, h, g) then k in drops && forall t | t in now :: (k, t) in sends
    else k !in drops && forall t :: (k, t) !in sends
  }

  /** Server `x`, unknown in ring `r`, has been put in. */
  ghost predicate Joined(r: Ring, r': Ring, x: string, hasher: (Server, nat) -> nat) {
    && Sorted(r) && Node(x) !in Servers(r) && (forall s | s in r :: s.server.tid == 0)
    && r' == PutAll(r, Node(x), VIRTUAL_THREADS, hasher)
  }

  /** The same for every key in `keys` that the thread owned before the join. */
  ghost predicate KeysHandedOver(self: Thread, keys: set<Key>, factors: map<Key, seq<Factor>>, tier: nat, r: Ring, r': Ring,
                                 local: Ring, gh: Key -> nat, lh: Key -> nat, x: string,
                                 sends: set<(Key, Thread)>, drops: set<Key>)
    requires AllFit(factors, tier, r, local, gh, lh) && AllFit(factors, tier, r', local, gh, lh)
  {
    var orig, now := OwnersIn(keys, factors, tier, r, local, gh, lh), OwnersIn(keys, factors, tier, r', local, gh, lh);
    forall k | k in orig && self in orig[k] ::
      HandedOver(k, self, x, r, r', gh(k), factors[k][tier].global, now[k], sends, drops)
  }

  lemma {:induction false} AllHandedOver(self: Thread, keys: set<Key>, factors: map<Key, seq<Factor>>, tier: nat, r: Ring,
                                         r': Ring, local: Ring, gh: Key -> nat, lh: Key -> nat, x: string,
                                         hasher: (Server, nat) -> nat)
    requires Joined(r, r', x, hasher)
    requires AllFit(factors, tier, r, local, gh, lh) && AllFit(factors, tier, r', local, gh, lh)
    ensures var now := OwnersIn(keys, factors, tier, r', local, gh, lh);
            KeysHandedOver(self, keys, factors, tier, r, r', local, gh, lh, x,
                           JoinSends(self, now, keys, x, 0), JoinDrops(self, now, keys, x, 0))
  {
    var orig, now := OwnersIn(keys, factors, tier, r, local, gh, lh), OwnersIn(keys, factors, tier, r', local, gh, lh);
    forall k | k in orig && self in orig[k]
      ensures HandedOver(k, self, x, r, r', gh(k), factors[k][tier].global, now[k],
                         JoinSends(self, now, keys, x, 0), JoinDrops(self, now, keys, x, 0))
    {
      FirstJoinHandsOver(self, r, x, VIRTUAL_THREADS, hasher, local, gh(k), lh(k), factors[k][tier], now[k],
                         JoinReact(self, now[k], x, 0));
    }
  }

  class KvsThread {
    const self: Thread
    const tier: nat
    const rings: seq<HashRing>
    const locals: seq<Ring>
    const globalHash: Key -> nat
    const localHash: Key -> nat
    var stored: set<Key>
    var factors: map<Key, seq<Factor>>
    var log: seq<Action>
    var joinGossip: set<(Key, Thread)>
    var joinRemove: set<Key>

    constructor (self: Thread, tier: nat, rings: seq<HashRing>, locals: seq<Ring>, globalHash: Key -> nat,
                 localHash: Key -> nat)
      ensures this.self == self && this.tier == tier && this.rings == rings && this.locals == locals
      ensures this.globalHash == globalHash && this.localHash == localHash
      ensures stored == {} && factors == map[] && log == [] && joinGossip == {} && joinRemove == {}
    {
      this.self, this.tier, this.rings, this.locals := self, tier, rings, locals;
      this.globalHash, this.localHash := globalHash, localHash;
      stored, factors, log, joinGossip, joinRemove := {}, map[], [], {}, {};
    }

    /** The entries of the global rings, tier by tier. */
    function Globals(): (g: seq<Ring>)
      reads rings
      ensures |g| == |rings| && forall i | 0 <= i < |rings| :: g[i] == rings[i].nodes
    {
      seq(|rings|, i requires 0 <= i < |rings| reads rings => rings[i].nodes)
    }

    ghost predicate Valid()
      reads rings
    {
      && tier < |rings| == |locals|
      && (forall i, j | 0 <= i < j < |rings| :: rings[i] != rings[j])
      && (forall i | 0 <= i < |rings| :: rings[i].Valid())
      && RingsOk(Globals(), locals)
    }

    method SendGossip(gossip: set<(Key, Thread)>) returns (ghost sent: seq<Action>)
      modifies this`log
      ensures log == old(log) + sent
      ensures forall a :: a in sent <==> a.Send? && (a.key, a.to) in gossip
    {
      sent := [];
      var todo := gossip;
      while todo != {}
        invariant todo <= gossip && log == old(log) + sent
        invariant forall a :: a in sent <==> a.Send? && (a.key, a.to) in gossip - todo
        decreases todo
      {
        var p :| p in todo;
        log := log + [Send(p.0, p.1)];
        sent := sent + [Send(p.0, p.1)];
        todo := todo - {p};
      }
    }

    method DropKeys(keys: set<Key>) returns (ghost dropped: seq<Action>)
      modifies this`log, this`stored
      ensures log == old(log) + dropped && stored == old(stored) - keys
      ensures forall a :: a in dropped <==> a.Drop? && a.key in keys
    {
      dropped := [];
      var todo := keys;
      while todo != {}
        invariant todo <= keys && log == old(log) + dropped && stored == old(stored) - (keys - todo)
        invariant forall a :: a in dropped <==> a.Drop? && a.key in keys - todo
        decreases todo
      {
        var k :| k in todo;
        log := log + [Drop(k)];
        stored := stored - {k};
        dropped := dropped + [Drop(k)];
        todo := todo - {k};
      }
    }

    /** The changes of a message, with the thread's own view of the rings. */
    ghost function Resolved(changes: seq<Change>): seq<Update>
      requires |rings| == |locals|
      reads rings
    {
      Resolve(changes, Globals(), locals, globalHash, localHash)
    }

    /** A message with new factors: keys are sent on before any is dropped, and a dropped key has gone to every owner. */
    method ReplicationChange(changes: seq<Change>) returns (ghost sent: seq<Action>, ghost dropped: seq<Action>)
      requires |rings| == |locals| && FittingAll(Resolved(changes), factors)
      modifies this`factors, this`log, this`stored
      ensures log == old(log) + sent + dropped && factors == Recorded(old(factors), old(Resolved(changes)), |changes|)
      ensures Executed(self, old(Resolved(changes)), old(factors), old(stored), sent, dropped)
      ensures forall u | u in old(Resolved(changes)) :: u.key in factors && factors[u.key] == u.factors
      ensures forall k :: k in stored <==> k in old(stored) && Drop(k) !in dropped
      ensures forall u | u in old(Resolved(changes)) && Drop(u.key) in dropped :: HandedOn(u, sent)
      ensures forall u | u in old(Resolved(changes)) && u.key in stored && u.key in old(factors) :: IsOwner(u, self)
    {
      ghost var updates := Resolved(changes);
      var plan, known := PlanChange(self, changes, Globals(), locals, globalHash, localHash, factors, stored);
      AllRecorded(factors, updates);
      factors := known;
      sent := SendGossip(plan.sends);
      dropped := DropKeys(plan.drops);
      NothingIsLostAtAll(self, updates, old(factors), old(stored), sent, dropped);
    }

    // ------------------------------------------------------------------ a server joins

    /** The factors of every key fit the thread's own tier. */
    ghost predicate KeysFit()
      requires tier < |rings| == |locals|
      reads this`factors, rings
    {
      AllFit(factors, tier, rings[tier].nodes, locals[tier], globalHash, localHash)
    }

    /** The owners of the stored keys in the thread's own tier. */
    ghost function OwnersNow(): map<Key, seq<Thread>>
      requires tier < |rings| == |locals| && KeysFit()
      reads this`stored, this`factors, rings
    {
      OwnersIn(stored, factors, tier, rings[tier].nodes, locals[tier], globalHash, localHash)
    }

    method ReactToJoin(key: Key, x: string, count: int) returns (r: Reaction)
      requires tier < |rings| == |locals| && KeysFit() && key in stored
      ensures r == ReactsToJoin(self, OwnersNow(), key, x, count)
    {
      r := Reaction({}, false);
      if key in factors {
        var threads := ResponsibleInTier(rings[tier].nodes, locals[tier], globalHash(key), localHash(key), factors[key][tier]);
        assert key in OwnersNow() && threads == OwnersNow()[key];
        if count > 0 {
          r := Reaction(set t | t in threads && t.ip == x, false);
        } else if count == 0 && self !in threads {
          r := Reaction(set t | t in threads, true);
        }
      }
    }

    /** The keys to hand over because of server `x`, and those to drop afterwards. */
    method PlanJoin(x: string, count: int) returns (sends: set<(Key, Thread)>, drops: set<Key>)
      requires tier < |rings| == |locals| && KeysFit()
      ensures sends == JoinSends(self, OwnersNow(), stored, x, count)
      ensures drops == JoinDrops(self, OwnersNow(), stored, x, count)
    {
      ghost var now, done := OwnersNow(), {};
      sends, drops := {}, {};
      var todo := stored;
      while todo != {}
        invariant todo + done == stored
        invariant sends == JoinSends(self, now, done, x, count) && drops == JoinDrops(self, now, done, x, count)
        decreases todo
      {
        var key :| key in todo;
        JoinOneMore(self, now, done, key, x, count);
        var r := ReactToJoin(key, x, count);
        sends := sends + Addressed(key, r.sends);
        if r.drops {
          drops := drops + {key};
        }
        todo, done := todo - {key}, done + {key};
      }
      assert done == stored;
    }

    /** Server `x` is known in a tier other than `t`. */
    ghost predicate InOtherTier(t: nat, x: string)
      reads rings
    {
      exists i :: 0 <= i < |rings| && i != t && InRing(Node(x), rings[i].nodes)
    }

    /** Server `x` is put into the ring of tier `t`; tells whether that is news. */
    method Enrol(t: nat, x: string, count: int) returns (news: bool)
      requires Valid() && KeysFit() && t < |rings|
      modifies rings[t]
      ensures news <==> Node(x) !in old(rings[t].uniqueServers) || old(rings[t].CountOf(x)) < count
      ensures if Node(x) in old(rings[t].uniqueServers) then rings[t].nodes == old(rings[t].nodes)
              else Joined(old(rings[t].nodes), rings[t].nodes, x, rings[t].hasher)
      ensures KeysFit()
      ensures Valid() || InOtherTier(t, x)
    {
      ghost var before, globals := rings[t].nodes, Globals();
      RingHoldsServers(globals, locals, t);
      news := rings[t].Insert(Node(x), count);
      assert forall i | 0 <= i < |rings| && i != t :: rings[i].nodes == old(rings[i].nodes);
      if !InOtherTier(t, x) {
        JoinKeepsRingsOk(globals, locals, t, x, VIRTUAL_THREADS, rings[t].hasher, Globals());
      }
      if Node(x) !in old(rings[t].uniqueServers) {
        StrangerToRing(before, old(rings[t].uniqueServers), Node(x));
        forall k | k in factors ensures |Order(before, globalHash(k))| <= |Order(rings[t].nodes, globalHash(k))| {
          JoinKeepsRoom(before, Node(x), VIRTUAL_THREADS, rings[t].hasher, globalHash(k));
        }
      }
    }

    /** Adds to what is scheduled and marked; the rings and the owners stay as they are. */
    method Note(ghost t: nat, ghost x: string, sends: set<(Key, Thread)>, drops: set<Key>)
      requires tier < |rings| == |locals| && KeysFit()
      modifies this`joinGossip, this`joinRemove
      ensures joinGossip == old(joinGossip) + sends && joinRemove == old(joinRemove) + drops
      ensures KeysFit() && OwnersNow() == old(OwnersNow())
      ensures (Valid() <==> old(Valid())) && (InOtherTier(t, x) <==> old(InOtherTier(t, x)))
    {
      joinGossip, joinRemove := joinGossip + sends, joinRemove + drops;
    }

    /** Plans for news of the thread's own tier; `before` is the ring without `x` when this is its first join. */
    method PlanNews(x: string, count: int, ghost before: Ring, ghost first: bool)
      returns (sends: set<(Key, Thread)>, drops: set<Key>)
      requires tier < |rings| == |locals| && KeysFit()
      requires AllFit(factors, tier, before, locals[tier], globalHash, localHash)
      requires first ==> count == 0 && Joined(before, rings[tier].nodes, x, rings[tier].hasher)
      ensures sends == JoinSends(self, OwnersNow(), stored, x, count)
      ensures drops == JoinDrops(self, OwnersNow(), stored, x, count)
      ensures Scheduled(self, OwnersNow(), stored, x, count, sends, drops)
      ensures first ==> KeysHandedOver(self, stored, factors, tier, before, rings[tier].nodes, locals[tier],
                                       globalHash, localHash, x, sends, drops)
    {
      sends, drops := PlanJoin(x, count);
      JoinIsScheduled(self, OwnersNow(), stored, x, count);
      if first {
        AllHandedOver(self, stored, factors, tier, before, rings[tier].nodes, locals[tier], globalHash, localHash, x,
                      rings[tier].hasher);
      }
    }

    /** Server `x` joins tier `t`.  When that is news of the thread's own tier, its keys are scheduled. */
    method NodeJoin(t: nat, x: string, count: int) returns (news: bool, sends: set<(Key, Thread)>, drops: set<Key>)
      requires Valid() && KeysFit() && t < |rings|
      modifies rings[t], this`joinGossip, this`joinRemove
      ensures news <==> Node(x) !in old(rings[t].uniqueServers) || old(rings[t].CountOf(x)) < count
      ensures tier < |rings| == |locals| && KeysFit() && (Valid() || InOtherTier(t, x))
      ensures joinGossip == old(joinGossip) + sends && joinRemove == old(joinRemove) + drops
      ensures sends == if news && t == tier then JoinSends(self, OwnersNow(), stored, x, count) else {}
      ensures drops == if news && t == tier then JoinDrops(self, OwnersNow(), stored, x, count) else {}
      ensures news && t == tier ==> Scheduled(self, OwnersNow(), stored, x, count, sends, drops)
      ensures t == tier && count == 0 && Node(x) !in old(rings[tier].uniqueServers) ==>
                KeysHandedOver(self, stored, factors, tier, old(rings[tier].nodes), rings[tier].nodes, locals[tier],
                               globalHash, localHash, x, sends, drops)
    {
      ghost var before, first := rings[tier].nodes, t == tier && count == 0 && Node(x) !in rings[tier].uniqueServers;
      news := Enrol(t, x, count);
      sends, drops := {}, {};
      if news && t == tier {
        sends, drops := PlanNews(x, count, before, first);
      }
      Note(t, x, sends, drops);
    }
  }

  lemma RingHoldsServers(globals: seq<Ring>, locals: seq<Ring>, i: nat)
    requires RingsOk(globals, locals) && i < |globals|
    ensures forall s | s in globals[i] :: s.server.tid == 0
  {
    forall s | s in globals[i] ensures s.server.tid == 0 {
      assert InRing(s.server, globals[i]);
    }
  }

  /** Only the new server is new in the ring that it joins. */
  lemma {:induction false} JoinedRing(r: Ring, x: Server, n: nat, hasher: (Server, nat) -> nat, y: Server)
    ensures InRing(y, PutAll(r, x, n, hasher)) ==> InRing(y, r) || y == x
  {
    var r' := PutAll(r, x, n, hasher);
    if InRing(y, r') {
      var i :| 0 <= i < |r'| && r'[i].server == y;
      PutAllMembers(r, x, n, hasher, r'[i]);
    }
  }

  lemma {:induction false} JoinKeepsRingsOk(globals: seq<Ring>, locals: seq<Ring>, t: nat, x: string, n: nat,
                                            hasher: (Server, nat) -> nat, globals': seq<Ring>)
    requires RingsOk(globals, locals) && t < |globals| == |globals'|
    requires globals'[t] == globals[t] || globals'[t] == PutAll(globals[t], Node(x), n, hasher)
    requires forall i | 0 <= i < |globals| && i != t :: globals'[i] == globals[i] && !InRing(Node(x), globals[i])
    ensures RingsOk(globals', locals)
  {
    forall i, y | 0 <= i < |globals'| && InRing(y, globals'[i]) ensures InRing(y, globals[i]) || (i == t && y == Node(x)) {
      JoinedRing(globals[t], Node(x), n, hasher, y);
    }
  }

  lemma StrangerToRing(r: Ring, known: set<Server>, x: Server)
    requires (forall s | s in r :: s.server in known) && x !in known
    ensures x !in Servers(r)
  {
    forall i | 0 <= i < |r| ensures Servers(r)[i] != x {
      assert r[i] in r;
    }
  }
}
