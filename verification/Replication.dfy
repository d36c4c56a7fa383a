/**
  Who stores a key, and how it is handed over when replication factors change
  or a server joins.  For one key, a tier is seen as the clockwise order of its
  servers and the clockwise order of the thread numbers on each server.
 */
module Replication {
  import opened HashRings

  type Key = string

  /** A worker thread on a server. */
  datatype Thread = Thread(ip: string, tid: nat)

  datatype Tier = Tier(servers: seq<Server>, tids: seq<nat>)

  /** The entry of a server in a global ring. */
  function Node(ip: string): Server { Server(ip, 0) }

  /** How many servers of a tier store the key, and how many threads on each of them. */
  datatype Factor = Factor(global: nat, local: nat)

  ghost predicate Unique<T>(s: seq<T>) {
    forall i, j | 0 <= i < j < |s| :: s[i] != s[j]
  }

  ghost predicate ValidTiers(tiers: seq<Tier>) {
    && (forall i | 0 <= i < |tiers| :: Unique(tiers[i].servers) && Unique(tiers[i].tids))
    && (forall i, s | 0 <= i < |tiers| && s in tiers[i].servers :: s.tid == 0)
    && (forall i, j, s | 0 <= i < |tiers| && 0 <= j < |tiers| && s in tiers[i].servers && s in tiers[j].servers :: i == j)
  }

  /** Factors never exceed the number of servers of a tier or of threads on a server. */
  predicate Fits(tiers: seq<Tier>, f: seq<Factor>) {
    |f| == |tiers| && forall i | 0 <= i < |f| :: f[i].global <= |tiers[i].servers| && f[i].local <= |tiers[i].tids|
  }

  // ------------------------------------------------------------------------ owners

  function OnServer(ip: string, tids: seq<nat>): seq<Thread> {
    seq(|tids|, i requires 0 <= i < |tids| => Thread(ip, tids[i]))
  }

  function OnServers(servers: seq<Server>, tids: seq<nat>): seq<Thread> {
    if servers == [] then [] else OnServers(servers[..|servers| - 1], tids) + OnServer(servers[|servers| - 1].ip, tids)
  }

  /** All threads that store the key, tier by tier. */
  function Owners(tiers: seq<Tier>, f: seq<Factor>): seq<Thread>
    requires Fits(tiers, f)
  {
    if f == [] then [] else
      var n := |f| - 1;
      Owners(tiers[..n], f[..n]) + OnServers(tiers[n].servers[..f[n].global], tiers[n].tids[..f[n].local])
  }

  /** The threads come server by server, and on each server in the order of the thread numbers. */
  lemma {:induction false} OnServersInOrder(a: seq<Server>, b: seq<Server>, tids: seq<nat>)
    ensures OnServers(a + b, tids) == OnServers(a, tids) + OnServers(b, tids)
  {
    if b == [] {
      assert a + b == a;
    } else {
      var init, last := b[..|b| - 1], b[|b| - 1];
      OnServersInOrder(a, init, tids);
      assert b == init + [last] && a + b == (a + init) + [last];
      OnServersSnoc(init, last, tids);
      OnServersSnoc(a + init, last, tids);
      ConcatAssociates(OnServers(a, tids), OnServers(init, tids), OnServer(last.ip, tids));
    }
  }

  lemma ConcatAssociates<T>(x: seq<T>, y: seq<T>, z: seq<T>)
    ensures (x + y) + z == x + (y + z)
  {
  }

  lemma {:induction false} OnServersSnoc(servers: seq<Server>, s: Server, tids: seq<nat>)
    ensures OnServers(servers + [s], tids) == OnServers(servers, tids) + OnServer(s.ip, tids)
  {
    assert (servers + [s])[..|servers + [s]| - 1] == servers;
  }

  lemma {:induction false} OnOneServer(s: Server, tids: seq<nat>, j: nat)
    requires j < |tids|
    ensures |OnServers([s], tids)| == |tids| && OnServers([s], tids)[j] == Thread(s.ip, tids[j])
  {
    assert OnServers([], tids) == [];
  }

  /** The owners in one tier follow those in the tiers before it. */
  lemma {:induction false} OwnersInOrder(tiers: seq<Tier>, f: seq<Factor>, n: nat)
    requires Fits(tiers, f) && n < |f|
    ensures Fits(tiers[..n], f[..n]) && Fits(tiers[..n + 1], f[..n + 1])
    ensures Owners(tiers[..n + 1], f[..n + 1]) ==
            Owners(tiers[..n], f[..n]) + OnServers(tiers[n].servers[..f[n].global], tiers[n].tids[..f[n].local])
    ensures Owners([], []) == []
  {
    assert tiers[..n + 1][..n] == tiers[..n] && f[..n + 1][..n] == f[..n];
  }

  ghost predicate OwnsIn(t: Thread, tier: Tier, f: Factor)
    requires f.global <= |tier.servers| && f.local <= |tier.tids|
  {
    Node(t.ip) in tier.servers[..f.global] && t.tid in tier.tids[..f.local]
  }

  lemma {:induction false} OnServersMembers(servers: seq<Server>, tids: seq<nat>, t: Thread)
    requires forall s | s in servers :: s.tid == 0
    ensures t in OnServers(servers, tids) <==> Node(t.ip) in servers && t.tid in tids
  {
    if servers != [] {
      var init, last := servers[..|servers| - 1], servers[|servers| - 1];
      OnServersMembers(init, tids, t);
      assert servers == init + [last];
      if t.ip == last.ip && t.tid in tids {
        var i :| 0 <= i < |tids| && tids[i] == t.tid;
        assert OnServer(last.ip, tids)[i] == t;
      }
    }
  }

  lemma {:induction false} OwnersMembers(tiers: seq<Tier>, f: seq<Factor>, t: Thread)
    requires ValidTiers(tiers) && Fits(tiers, f)
    ensures t in Owners(tiers, f) <==> exists i :: 0 <= i < |f| && OwnsIn(t, tiers[i], f[i])
  {
    if f != [] {
      var n := |f| - 1;
      OwnersMembers(tiers[..n], f[..n], t);
      assert forall s | s in tiers[n].servers[..f[n].global] :: s in tiers[n].servers;
      OnServersMembers(tiers[n].servers[..f[n].global], tiers[n].tids[..f[n].local], t);
      assert forall i | 0 <= i < n :: tiers[..n][i] == tiers[i] && f[..n][i] == f[i];
    }
  }

  /** The view of a tier from its global ring and the ring of threads on a server, for the hashes of one key. */
  function TierOf(global: Ring, local: Ring, hg: nat, hl: nat): Tier {
    Tier(Order(global, hg), Tids(Order(local, hl)))
  }

  function Tids(s: seq<Server>): (t: seq<nat>)
    ensures |t| == |s| && forall i | 0 <= i < |s| :: t[i] == s[i].tid
  {
    seq(|s|, i requires 0 <= i < |s| => s[i].tid)
  }

  function TiersOf(globals: seq<Ring>, locals: seq<Ring>, hg: nat, hl: nat): (tiers: seq<Tier>)
    requires |globals| == |locals|
    ensures |tiers| == |globals| && forall i | 0 <= i < |tiers| :: tiers[i] == TierOf(globals[i], locals[i], hg, hl)
  {
    seq(|globals|, i requires 0 <= i < |globals| => TierOf(globals[i], locals[i], hg, hl))
  }

  /** Server `x` belongs to the ring. */
  ghost predicate InRing(x: Server, r: Ring) {
    exists i :: 0 <= i < |r| && r[i].server == x
  }

  /** Global rings hold servers, each in one tier; a local ring holds the threads of one server. */
  ghost predicate RingsOk(globals: seq<Ring>, locals: seq<Ring>) {
    && |globals| == |locals|
    && (forall i, x | 0 <= i < |globals| && InRing(x, globals[i]) :: x.tid == 0)
    && (forall i, j, x | 0 <= i < |globals| && 0 <= j < |globals| && InRing(x, globals[i]) && InRing(x, globals[j]) :: i == j)
    && (forall i, x, y | 0 <= i < |locals| && InRing(x, locals[i]) && InRing(y, locals[i]) :: x.ip == y.ip)
  }

  lemma OrderInRing(r: Ring, h: nat, x: Server)
    ensures x in Order(r, h) <==> InRing(x, r)
  {
    OrderIsExact(r, h);
    if x in Servers(r) {
      var i :| 0 <= i < |r| && Servers(r)[i] == x;
      assert r[i].server == x;
    }
    if InRing(x, r) {
      var i :| 0 <= i < |r| && r[i].server == x;
      assert Servers(r)[i] in Servers(r);
    }
  }

  /** The thread numbers on one server are all different. */
  lemma LocalTidsUnique(local: Ring, h: nat)
    requires forall x, y | InRing(x, local) && InRing(y, local) :: x.ip == y.ip
    ensures Unique(Tids(Order(local, h)))
  {
    var s := Order(local, h);
    OrderIsExact(local, h);
    forall i, j | 0 <= i < j < |s| ensures Tids(s)[i] != Tids(s)[j] {
      OrderInRing(local, h, s[i]);
      OrderInRing(local, h, s[j]);
      assert s[i] in s && s[j] in s && s[i] != s[j];
    }
  }

  /** What a key sees of the rings: every server in one tier, and every server and thread number once. */
  lemma RingsGiveValidTiers(globals: seq<Ring>, locals: seq<Ring>, hg: nat, hl: nat)
    requires RingsOk(globals, locals)
    ensures ValidTiers(TiersOf(globals, locals, hg, hl))
  {
    var tiers := TiersOf(globals, locals, hg, hl);
    forall i | 0 <= i < |tiers| ensures Unique(tiers[i].servers) && Unique(tiers[i].tids) {
      OrderIsExact(globals[i], hg);
      LocalTidsUnique(locals[i], hl);
    }
    forall i, s | 0 <= i < |tiers| && s in tiers[i].servers ensures InRing(s, globals[i]) {
      OrderInRing(globals[i], hg, s);
    }
  }

  predicate FitsTier(global: Ring, local: Ring, hg: nat, hl: nat, f: Factor) {
    f.global <= |Order(global, hg)| && f.local <= |Order(local, hl)|
  }

  /** The owners of a key in one tier. */
  function TierOwners(global: Ring, local: Ring, hg: nat, hl: nat, f: Factor): seq<Thread>
    requires FitsTier(global, local, hg, hl, f)
  {
    OnServers(Order(global, hg)[..f.global], Tids(Order(local, hl))[..f.local])
  }

  /** The threads of one tier that are responsible for a key, server by server. */
  method ResponsibleInTier(global: Ring, local: Ring, hg: nat, hl: nat, f: Factor) returns (result: seq<Thread>)
    requires FitsTier(global, local, hg, hl, f)
    ensures result == TierOwners(global, local, hg, hl, f)
  {
    result := [];
    var servers := Responsible(global, hg, f.global);
    var threads := Responsible(local, hl, f.local);
    for j := 0 to |servers|
      invariant result == OnServers(servers[..j], Tids(threads))
    {
      result := result + OnServer(servers[j].ip, Tids(threads));
      assert servers[..j + 1][..j] == servers[..j];
    }
    assert servers[..|servers|] == servers == Order(global, hg)[..f.global];
    assert Tids(threads) == Tids(Order(local, hl))[..f.local];
  }

  /** All threads responsible for a key, tier by tier. */
  method ResponsibleThreads(globals: seq<Ring>, locals: seq<Ring>, hg: nat, hl: nat, f: seq<Factor>)
    returns (result: seq<Thread>)
    requires |globals| == |locals| && Fits(TiersOf(globals, locals, hg, hl), f)
    ensures result == Owners(TiersOf(globals, locals, hg, hl), f)
  {
    result := [];
    ghost var tiers := TiersOf(globals, locals, hg, hl);
    for i := 0 to |f|
      invariant result == Owners(tiers[..i], f[..i])
    {
      var threads := ResponsibleInTier(globals[i], locals[i], hg, hl, f[i]);
      result := result + threads;
      assert tiers[..i + 1][..i] == tiers[..i] && f[..i + 1][..i] == f[..i];
    }
    assert tiers[..|f|] == tiers && f[..|f|] == f;
  }

  // ---------------------------------------------------------------- owners by hash

  /** The `n` servers nearest to the hash, the nearest first. */
  ghost predicate Chosen(r: Ring, h: nat, n: nat, order: seq<Server>) {
    |order| == n && NoRepeats(order) && Nearest(r, h, order)
  }

  /** The thread runs on one of the nearest servers, and is one of the nearest threads there. */
  ghost predicate NearestOwner(global: Ring, local: Ring, hg: nat, hl: nat, f: Factor, t: Thread) {
    exists servers, threads ::
      && Chosen(global, hg, f.global, servers) && Chosen(local, hl, f.local, threads)
      && Node(t.ip) in servers && t.tid in Tids(threads)
  }

  lemma OwnsInIsNearest(global: Ring, local: Ring, hg: nat, hl: nat, f: Factor, t: Thread)
    requires Sorted(global) && Sorted(local) && FitsTier(global, local, hg, hl, f)
    ensures OwnsIn(t, TierOf(global, local, hg, hl), f) <==> NearestOwner(global, local, hg, hl, f, t)
  {
    var servers, threads := Order(global, hg)[..f.global], Order(local, hl)[..f.local];
    FirstAreNearest(global, hg, f.global);
    FirstAreNearest(local, hl, f.local);
    assert Tids(Order(local, hl))[..f.local] == Tids(threads);
    assert Chosen(global, hg, f.global, servers) && Chosen(local, hl, f.local, threads);
    if NearestOwner(global, local, hg, hl, f, t) {
      var xs, ys :| Chosen(global, hg, f.global, xs) && Chosen(local, hl, f.local, ys)
                    && Node(t.ip) in xs && t.tid in Tids(ys);
      NearestIsUnique(global, hg, servers, xs);
      NearestIsUnique(local, hl, threads, ys);
    }
  }

  /** A thread owns a key exactly if, in some tier, it is nearest to the key's hashes. */
  lemma {:induction false} OwnersAreNearest(globals: seq<Ring>, locals: seq<Ring>, hg: nat, hl: nat, f: seq<Factor>, t: Thread)
    requires RingsOk(globals, locals) && Fits(TiersOf(globals, locals, hg, hl), f)
    requires forall i | 0 <= i < |globals| :: Sorted(globals[i]) && Sorted(locals[i])
    ensures t in Owners(TiersOf(globals, locals, hg, hl), f) <==>
            exists i :: 0 <= i < |f| && NearestOwner(globals[i], locals[i], hg, hl, f[i], t)
  {
    var tiers := TiersOf(globals, locals, hg, hl);
    RingsGiveValidTiers(globals, locals, hg, hl);
    OwnersMembers(tiers, f, t);
    forall i | 0 <= i < |f|
      ensures OwnsIn(t, tiers[i], f[i]) <==> NearestOwner(globals[i], locals[i], hg, hl, f[i], t)
    {
      OwnsInIsNearest(globals[i], locals[i], hg, hl, f[i], t);
    }
  }

  // --------------------------------------------------------------- changing factors

  predicate LoweredAt(f: seq<Factor>, f': seq<Factor>, i: nat)
    requires i < |f| == |f'|
  {
    f'[i].global < f[i].global || f'[i].local < f[i].local
  }

  /** Some factor became smaller. */
  predicate Lowered(f: seq<Factor>, f': seq<Factor>)
    requires |f| == |f'|
  {
    exists i | 0 <= i < |f| :: LoweredAt(f, f', i)
  }

  /** Some factor became smaller in a tier that holds replicas under `f`. */
  predicate LosesReplica(f: seq<Factor>, f': seq<Factor>)
    requires |f| == |f'|
  {
    exists i | 0 <= i < |f| :: f[i].global >= 1 && f[i].local >= 1 && LoweredAt(f, f', i)
  }

  lemma PrefixMember<T>(s: seq<T>, a: nat, b: nat, x: T)
    requires a <= b <= |s| && x in s[..a]
    ensures x in s[..b]
  {
  }

  lemma NotInPrefix<T>(s: seq<T>, a: nat, i: nat)
    requires Unique(s) && a <= i < |s|
    ensures s[i] !in s[..a]
  {
  }

  /** Some owner under `f` is none under `f'` exactly when a factor is lowered in a tier with replicas. */
  lemma {:induction false} SomeOwnerLost(tiers: seq<Tier>, f: seq<Factor>, f': seq<Factor>)
    requires ValidTiers(tiers) && Fits(tiers, f) && Fits(tiers, f')
    ensures LosesReplica(f, f') <==> exists t :: t in Owners(tiers, f) && t !in Owners(tiers, f')
  {
    if LosesReplica(f, f') {
      var i :| 0 <= i < |f| && f[i].global >= 1 && f[i].local >= 1 && LoweredAt(f, f', i);
      LostThread(tiers, f, f', i);
    }
    if t :| t in Owners(tiers, f) && t !in Owners(tiers, f') {
      OwnersMembers(tiers, f, t);
      var i :| 0 <= i < |f| && OwnsIn(t, tiers[i], f[i]);
      if !LoweredAt(f, f', i) {
        PrefixMember(tiers[i].servers, f[i].global, f'[i].global, Node(t.ip));
        PrefixMember(tiers[i].tids, f[i].local, f'[i].local, t.tid);
        OwnersMembers(tiers, f', t);
      }
    }
  }

  lemma {:induction false} LostThread(tiers: seq<Tier>, f: seq<Factor>, f': seq<Factor>, i: nat)
    requires ValidTiers(tiers) && Fits(tiers, f) && Fits(tiers, f')
    requires i < |f| && f[i].global >= 1 && f[i].local >= 1 && LoweredAt(f, f', i)
    ensures exists t :: t in Owners(tiers, f) && t !in Owners(tiers, f')
  {
    var g, l := f[i].global, f[i].local;
    var s := if f'[i].global < g then g - 1 else 0;
    var d := if f'[i].global < g then 0 else l - 1;
    var t := Thread(tiers[i].servers[s].ip, tiers[i].tids[d]);
    assert tiers[i].servers[s] in tiers[i].servers;
    assert tiers[i].servers[..g][s] == Node(t.ip) && tiers[i].tids[..l][d] == t.tid;
    assert OwnsIn(t, tiers[i], f[i]);
    OwnersMembers(tiers, f, t);
    OwnersMembers(tiers, f', t);
    forall j | 0 <= j < |f'| ensures !OwnsIn(t, tiers[j], f'[j]) {
      if j == i {
        if f'[i].global < g { NotInPrefix(tiers[i].servers, f'[i].global, s); }
        else { NotInPrefix(tiers[i].tids, f'[i].local, d); }
      } else {
        assert Node(t.ip) !in tiers[j].servers;
      }
    }
  }

  /** What a thread that stores the key does: whom it sends the key to, and whether it then drops it. */
  datatype Reaction = Reaction(sends: set<Thread>, drops: bool)

  function React(wt: Thread, orig: seq<Thread>, now: seq<Thread>, decrement: bool): Reaction {
    Reaction((if wt !in now then set t | t in now else {}) +
             (if !decrement && orig != [] && orig[0] == wt then set t | t in now && t !in orig else {}),
             wt !in now)
  }

  /**
    Who sends the key to whom: an owner that loses the key sends it to every new owner; when no
    factor is lowered, the first owner sends it to those who are new.  Nobody else sends it.
   */
  lemma WhoSends(wt: Thread, orig: seq<Thread>, now: seq<Thread>, decrement: bool, t: Thread)
    requires wt in orig
    ensures var r := React(wt, orig, now, decrement);
            && (r.drops <==> wt !in now)
            && (t in r.sends ==> t in now)
            && (t in now && wt !in now ==> t in r.sends)
            && (t in now && wt in now ==> (t in r.sends <==> t !in orig && !decrement && wt == orig[0]))
  {
  }

  /** Every new owner is sent the key by some old owner. */
  ghost predicate Delivered(orig: seq<Thread>, now: seq<Thread>, decrement: bool) {
    forall t | t in now && t !in orig :: exists s :: s in orig && t in React(s, orig, now, decrement).sends
  }

  /**
    A change of factors reaches every new owner exactly when nobody is new,
    or no factor is lowered, or some factor is lowered in a tier that holds
    replicas.  What remains is the change that lowers factors only where no
    replica was stored, while it adds replicas elsewhere: nobody sends the key.
   */
  lemma {:induction false} DeliveredIff(tiers: seq<Tier>, f: seq<Factor>, f': seq<Factor>)
    requires ValidTiers(tiers) && Fits(tiers, f) && Fits(tiers, f') && Owners(tiers, f) != []
    ensures Delivered(Owners(tiers, f), Owners(tiers, f'), Lowered(f, f')) <==>
            (!LosesReplica(f', f) || !Lowered(f, f') || LosesReplica(f, f'))
  {
    var orig, now := Owners(tiers, f), Owners(tiers, f');
    SomeOwnerLost(tiers, f, f');
    SomeOwnerLost(tiers, f', f);
    if LosesReplica(f, f') {
      var s :| s in orig && s !in now;
      forall t | t in now && t !in orig ensures exists s :: s in orig && t in React(s, orig, now, Lowered(f, f')).sends {
        assert t in React(s, orig, now, Lowered(f, f')).sends;
      }
    } else if !Lowered(f, f') {
      forall t | t in now && t !in orig ensures exists s :: s in orig && t in React(s, orig, now, Lowered(f, f')).sends {
        assert orig[0] in orig && t in React(orig[0], orig, now, Lowered(f, f')).sends;
      }
    } else {
      forall s | s in orig ensures React(s, orig, now, true).sends == {} {
        assert s in now;
      }
    }
  }

  /** A change that adds replicas in a tier without any, with fewer threads per server than before, is sent by nobody. */
  lemma {:induction false} UndeliveredChange(tiers: seq<Tier>, f: seq<Factor>, f': seq<Factor>)
    requires ValidTiers(tiers) && |tiers| == 2 && Fits(tiers, f) && Fits(tiers, f')
    requires f[0].global == 0 < f'[0].global && 0 < f'[0].local < f[0].local
    requires f[1] == f'[1] && f[1].global > 0 && f[1].local > 0
    ensures Owners(tiers, f) != []
    ensures !Delivered(Owners(tiers, f), Owners(tiers, f'), Lowered(f, f'))
  {
    var t := Thread(tiers[1].servers[0].ip, tiers[1].tids[0]);
    assert tiers[1].servers[0] in tiers[1].servers;
    assert tiers[1].servers[..f[1].global][0] == Node(t.ip) && tiers[1].tids[..f[1].local][0] == t.tid;
    assert OwnsIn(t, tiers[1], f[1]);
    OwnersMembers(tiers, f, t);
    assert LoweredAt(f, f', 0) && LoweredAt(f', f, 0);
    DeliveredIff(tiers, f, f');
  }

  function Larger(a: nat, b: nat): nat { if a < b then b else a }

  /** The delivery condition for the owners that the rings determine, for every key. */
  lemma {:induction false} RingDeliveredIff(globals: seq<Ring>, locals: seq<Ring>, hg: nat, hl: nat, f: seq<Factor>,
                                            f': seq<Factor>)
    requires RingsOk(globals, locals)
    requires Fits(TiersOf(globals, locals, hg, hl), f) && Fits(TiersOf(globals, locals, hg, hl), f')
    requires Owners(TiersOf(globals, locals, hg, hl), f) != []
    ensures var tiers := TiersOf(globals, locals, hg, hl);
            Delivered(Owners(tiers, f), Owners(tiers, f'), Lowered(f, f')) <==>
            (!LosesReplica(f', f) || !Lowered(f, f') || LosesReplica(f, f'))
  {
    RingsGiveValidTiers(globals, locals, hg, hl);
    DeliveredIff(TiersOf(globals, locals, hg, hl), f, f');
  }

  /** The servers to tell about a change: tier by tier, as many as the larger of the two factors. */
  function Recipients(tiers: seq<Tier>, f: seq<Factor>, f': seq<Factor>): seq<Server>
    requires Fits(tiers, f) && Fits(tiers, f')
  {
    if f == [] then [] else
      var n := |f| - 1;
      Recipients(tiers[..n], f[..n], f'[..n]) + tiers[n].servers[..Larger(f[n].global, f'[n].global)]
  }

  /** In some tier, the server is among the first, as many as one of the two factors says. */
  ghost predicate IsRecipient(tiers: seq<Tier>, f: seq<Factor>, f': seq<Factor>, s: Server)
    requires Fits(tiers, f) && Fits(tiers, f')
  {
    exists i :: 0 <= i < |f| && (s in tiers[i].servers[..f[i].global] || s in tiers[i].servers[..f'[i].global])
  }

  lemma InEither(servers: seq<Server>, a: nat, b: nat, s: Server)
    requires a <= |servers| && b <= |servers|
    ensures s in servers[..Larger(a, b)] <==> s in servers[..a] || s in servers[..b]
  {
    if s in servers[..a] { PrefixMember(servers, a, Larger(a, b), s); }
    if s in servers[..b] { PrefixMember(servers, b, Larger(a, b), s); }
  }

  lemma {:induction false} RecipientsMembers(tiers: seq<Tier>, f: seq<Factor>, f': seq<Factor>, s: Server)
    requires Fits(tiers, f) && Fits(tiers, f')
    ensures s in Recipients(tiers, f, f') <==> IsRecipient(tiers, f, f', s)
  {
    if f != [] {
      var n := |f| - 1;
      RecipientsMembers(tiers[..n], f[..n], f'[..n], s);
      assert forall i | 0 <= i < n :: tiers[..n][i] == tiers[i] && f[..n][i] == f[i] && f'[..n][i] == f'[i];
      InEither(tiers[n].servers, f[n].global, f'[n].global, s);
    }
  }

  lemma RecipientsNext(tiers: seq<Tier>, f: seq<Factor>, f': seq<Factor>, n: nat)
    requires Fits(tiers, f) && Fits(tiers, f') && n < |f|
    ensures Fits(tiers[..n], f[..n]) && Fits(tiers[..n], f'[..n])
    ensures Fits(tiers[..n + 1], f[..n + 1]) && Fits(tiers[..n + 1], f'[..n + 1])
    ensures Recipients(tiers[..n + 1], f[..n + 1], f'[..n + 1]) ==
            Recipients(tiers[..n], f[..n], f'[..n]) + tiers[n].servers[..Larger(f[n].global, f'[n].global)]
  {
    assert tiers[..n + 1][..n] == tiers[..n] && f[..n + 1][..n] == f[..n] && f'[..n + 1][..n] == f'[..n];
  }

  /** Whoever owns the key before or after a change is told about it. */
  lemma {:induction false} RecipientsCoverOwners(tiers: seq<Tier>, f: seq<Factor>, f': seq<Factor>, t: Thread)
    requires ValidTiers(tiers) && Fits(tiers, f) && Fits(tiers, f')
    requires t in Owners(tiers, f) || t in Owners(tiers, f')
    ensures Node(t.ip) in Recipients(tiers, f, f')
  {
    OwnersMembers(tiers, f, t);
    OwnersMembers(tiers, f', t);
    var h := if t in Owners(tiers, f) then f else f';
    var i :| 0 <= i < |h| && OwnsIn(t, tiers[i], h[i]);
    assert IsRecipient(tiers, f, f', Node(t.ip));
    RecipientsMembers(tiers, f, f', Node(t.ip));
  }

  /** The first servers of a tier, as many as the larger of the two factors says. */
  method TierRecipients(global: Ring, hg: nat, n: nat) returns (servers: seq<Server>)
    requires n <= |Order(global, hg)|
    ensures servers == Order(global, hg)[..n]
  {
    servers := Responsible(global, hg, n);
  }

  /** The monitor's loop over the tiers. */
  method ChangeRecipients(globals: seq<Ring>, ghost locals: seq<Ring>, hg: nat, ghost hl: nat, f: seq<Factor>, f': seq<Factor>)
    returns (told: seq<Server>)
    requires |globals| == |locals|
    requires Fits(TiersOf(globals, locals, hg, hl), f) && Fits(TiersOf(globals, locals, hg, hl), f')
    ensures told == Recipients(TiersOf(globals, locals, hg, hl), f, f')
  {
    ghost var tiers := TiersOf(globals, locals, hg, hl);
    told := [];
    for n := 0 to |f|
      invariant told == Recipients(tiers[..n], f[..n], f'[..n])
    {
      RecipientsNext(tiers, f, f', n);
      assert tiers[n].servers == Order(globals[n], hg);
      var servers := TierRecipients(globals[n], hg, Larger(f[n].global, f'[n].global));
      told := told + servers;
    }
    assert tiers[..|f|] == tiers && f[..|f|] == f && f'[..|f|] == f';
  }

  /** For the owners that the rings determine: whoever owns the key before or after the change is told about it. */
  lemma {:induction false} RingRecipientsCoverOwners(globals: seq<Ring>, locals: seq<Ring>, hg: nat, hl: nat,
                                                     f: seq<Factor>, f': seq<Factor>, t: Thread)
    requires RingsOk(globals, locals)
    requires Fits(TiersOf(globals, locals, hg, hl), f) && Fits(TiersOf(globals, locals, hg, hl), f')
    requires t in Owners(TiersOf(globals, locals, hg, hl), f) || t in Owners(TiersOf(globals, locals, hg, hl), f')
    ensures Node(t.ip) in Recipients(TiersOf(globals, locals, hg, hl), f, f')
  {
    RingsGiveValidTiers(globals, locals, hg, hl);
    RecipientsCoverOwners(TiersOf(globals, locals, hg, hl), f, f', t);
  }

  // ---------------------------------------------------------------- the last replica

  lemma {:induction false} NoOwnersIff(tiers: seq<Tier>, f: seq<Factor>)
    requires ValidTiers(tiers) && Fits(tiers, f)
    ensures Owners(tiers, f) == [] <==> forall i | 0 <= i < |f| :: f[i].global == 0 || f[i].local == 0
  {
    if Owners(tiers, f) != [] {
      var t := Owners(tiers, f)[0];
      OwnersMembers(tiers, f, t);
      var i :| 0 <= i < |f| && OwnsIn(t, tiers[i], f[i]);
      assert f[i].global > 0 && f[i].local > 0;
    }
    if i :| 0 <= i < |f| && f[i].global > 0 && f[i].local > 0 {
      var t := Thread(tiers[i].servers[0].ip, tiers[i].tids[0]);
      assert tiers[i].servers[0] in tiers[i].servers;
      assert tiers[i].servers[..f[i].global][0] == Node(t.ip) && tiers[i].tids[..f[i].local][0] == t.tid;
      assert OwnsIn(t, tiers[i], f[i]);
      OwnersMembers(tiers, f, t);
    }
  }

  /** A thread drops a key without sending it to anybody if and only if the new factors ask for no replica at all. */
  lemma {:induction false} DroppedUnsentIff(tiers: seq<Tier>, f: seq<Factor>, f': seq<Factor>, wt: Thread)
    requires ValidTiers(tiers) && Fits(tiers, f) && Fits(tiers, f')
    ensures React(wt, Owners(tiers, f), Owners(tiers, f'), Lowered(f, f')) == Reaction({}, true) <==>
            forall i | 0 <= i < |f'| :: f'[i].global == 0 || f'[i].local == 0
  {
    NoOwnersIff(tiers, f');
    var now := Owners(tiers, f');
    if now != [] && wt !in now {
      assert now[0] in React(wt, Owners(tiers, f), now, Lowered(f, f')).sends;
    }
  }

  // ------------------------------------------------------------------ a server joins

  /** What a thread that stores the key does when server `x` joins its tier and `now` are the owners after that. */
  function JoinReact(wt: Thread, now: seq<Thread>, x: string, joinCount: int): Reaction {
    if joinCount > 0 then Reaction(set t | t in now && t.ip == x, false)
    else if joinCount == 0 && wt !in now then Reaction(set t | t in now, true)
    else Reaction({}, false)
  }

  /**
    A first-time join: `after` is the clockwise order with the new server `x`
    put in.  Either the owners stay the same, or exactly one server gives its
    place to `x`, and each of its threads hands the key to every new owner.
   */
  lemma {:induction false} JoinHandsOver(after: seq<Server>, x: Server, g: nat, tids: seq<nat>)
    requires NoRepeats(after) && (forall s | s in after :: s.tid == 0) && g <= |Except(after, x)|
    ensures g <= |after|
    ensures var orig, now := OnServers(Except(after, x)[..g], tids), OnServers(after[..g], tids);
            if x in after[..g] then
              && g > 0
              && (forall w | w in orig :: w !in now <==> w.ip == Except(after, x)[g - 1].ip)
              && (forall t | t in now && t !in orig :: t.ip == x.ip)
              && (forall w | w in orig && w.ip == Except(after, x)[g - 1].ip ::
                    JoinReact(w, now, x.ip, 0) == Reaction(set t | t in now, true))
              && (forall w | w in orig && w.ip != Except(after, x)[g - 1].ip ::
                    JoinReact(w, now, x.ip, 0) == Reaction({}, false))
            else
              now == orig
  {
    var before := Except(after, x);
    ExceptMembers(after, x);
    if x in after {
      Displaced(after, x, g);
      if x in after[..g] {
        JoinMembers(after, x, g, tids);
      }
    }
  }

  lemma {:induction false} JoinMembers(after: seq<Server>, x: Server, g: nat, tids: seq<nat>)
    requires NoRepeats(after) && (forall s | s in after :: s.tid == 0) && 0 < g <= |Except(after, x)| && g <= |after|
    requires x in after[..g]
    ensures var before := Except(after, x);
            var orig, now := OnServers(before[..g], tids), OnServers(after[..g], tids);
            && (forall w | w in orig :: w !in now <==> w.ip == before[g - 1].ip)
            && (forall t | t in now && t !in orig :: t.ip == x.ip)
  {
    var before := Except(after, x);
    Displaced(after, x, g);
    ExceptMembers(after, x);
    assert before[..g] == before[..g - 1] + [before[g - 1]];
    assert before[g - 1] in before;
    forall t ensures t in OnServers(before[..g], tids) <==> Node(t.ip) in before[..g] && t.tid in tids
             ensures t in OnServers(after[..g], tids) <==> Node(t.ip) in after[..g] && t.tid in tids
    {
      OnServersMembers(before[..g], tids, t);
      OnServersMembers(after[..g], tids, t);
    }
  }

  /** The join seen on the ring itself: `after` is the clockwise order once the new server's virtual nodes are in. */
  lemma {:induction false} RingJoinHandsOver(r: Ring, x: string, n: nat, hasher: (Server, nat) -> nat, h: nat, g: nat,
                                             tids: seq<nat>, after: seq<Server>)
    requires Sorted(r) && (forall s | s in r :: s.server.tid == 0) && Node(x) !in Servers(r)
    requires g <= |Order(r, h)| && after == Order(PutAll(r, Node(x), n, hasher), h)
    ensures g <= |after|
    ensures var orig, now := OnServers(Order(r, h)[..g], tids), OnServers(after[..g], tids);
            if Node(x) in after[..g] then
              && g > 0
              && (forall w | w in orig :: JoinReact(w, now, x, 0).drops <==> w.ip == Order(r, h)[g - 1].ip)
              && (forall w | w in orig && JoinReact(w, now, x, 0).drops :: JoinReact(w, now, x, 0).sends == set t | t in now)
              && (forall t | t in now && t !in orig :: t.ip == x)
            else
              now == orig
  {
    var r' := PutAll(r, Node(x), n, hasher);
    JoinInsertsOnly(r, Node(x), n, hasher, h);
    OrderIsExact(r', h);
    forall s | s in after ensures s.tid == 0 {
      var i :| 0 <= i < |r'| && Servers(r')[i] == s;
      PutAllMembers(r, Node(x), n, hasher, r'[i]);
    }
    JoinHandsOver(after, Node(x), g, tids);
  }

  lemma {:induction false} ExceptIsShorter(s: seq<Server>, x: Server)
    ensures |Except(s, x)| <= |s|
  {
    if s != [] {
      ExceptIsShorter(s[..|s| - 1], x);
    }
  }

  /** After a join a tier has room for as many replicas as before. */
  lemma {:induction false} JoinKeepsRoom(r: Ring, x: Server, n: nat, hasher: (Server, nat) -> nat, h: nat)
    requires Sorted(r) && x !in Servers(r)
    ensures |Order(r, h)| <= |Order(PutAll(r, x, n, hasher), h)|
  {
    JoinInsertsOnly(r, x, n, hasher, h);
    ExceptIsShorter(Order(PutAll(r, x, n, hasher), h), x);
  }
}
