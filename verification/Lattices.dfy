/**
  The lattices a store keeps its values in, the store itself, and what replicas of it that
  exchange their values by gossip agree on.
 */
module Lattices {

  type Key = string

  /**
    A type of values with its merge, the value a missing entry starts from, and the values that
    are in use.  The missing entry is only ever merged into, so `bottom` need not be in use.
   */
  datatype Lattice<!V> = Lattice(merge: (V, V) -> V, bottom: V, ok: V -> bool)

  ghost predicate Laws<V(!new)>(l: Lattice<V>) {
    && (forall x, y | l.ok(x) && l.ok(y) :: l.ok(l.merge(x, y)) && l.merge(x, y) == l.merge(y, x))
    && (forall x, y, z | l.ok(x) && l.ok(y) && l.ok(z) :: l.merge(l.merge(x, y), z) == l.merge(x, l.merge(y, z)))
    && (forall x | l.ok(x) :: l.merge(x, x) == x && l.merge(l.bottom, x) == x)
  }

  ghost predicate Below<V>(l: Lattice<V>, x: V, y: V) {
    l.merge(x, y) == y
  }

  ghost predicate Above<V>(l: Lattice<V>, s: set<V>, x: V) {
    forall v | v in s :: Below(l, v, x)
  }

  /** The least value above all of `s`. */
  ghost predicate IsJoin<V(!new)>(l: Lattice<V>, s: set<V>, x: V) {
    && l.ok(x) && Above(l, s, x)
    && forall y | l.ok(y) && Above(l, s, y) :: Below(l, x, y)
  }

  lemma BelowMerge<V(!new)>(l: Lattice<V>, v: V, x: V, y: V)
    requires Laws(l) && l.ok(v) && l.ok(x) && l.ok(y) && Below(l, v, x)
    ensures Below(l, v, l.merge(x, y)) && Below(l, v, l.merge(y, x))
  {
  }

  /** Merging two joins gives the join of everything in either. */
  lemma MergeOfJoins<V(!new)>(l: Lattice<V>, s: set<V>, t: set<V>, x: V, y: V)
    requires Laws(l) && IsJoin(l, s, x) && IsJoin(l, t, y)
    requires forall v | v in s + t :: l.ok(v)
    ensures IsJoin(l, s + t, l.merge(x, y))
  {
    forall v | v in s + t ensures Below(l, v, l.merge(x, y)) {
      if v in s {
        BelowMerge(l, v, x, y);
      } else {
        BelowMerge(l, v, y, x);
      }
    }
    forall u | l.ok(u) && Above(l, s + t, u) ensures Below(l, l.merge(x, y), u) {
      assert Above(l, s, u) && Above(l, t, u);
      assert Below(l, x, u) && Below(l, y, u);
      assert l.merge(l.merge(x, y), u) == l.merge(x, l.merge(y, u));
    }
  }

  // --------------------------------------------------------------------- the store

  /** A value is merged into the entry of its key. */
  function PutInto<V>(l: Lattice<V>, db: map<Key, V>, k: Key, v: V): map<Key, V> {
    db[k := l.merge(if k in db then db[k] else l.bottom, v)]
  }

  class KvStore<V> {
    const lattice: Lattice<V>
    var db: map<Key, V>

    constructor (l: Lattice<V>)
      ensures lattice == l && db == map[]
    {
      lattice, db := l, map[];
    }

    /** The entry of a key; reading a missing one reports it missing and leaves a fresh entry behind. */
    method Get(k: Key) returns (value: V, missing: bool)
      modifies this
      ensures missing <==> k !in old(db)
      ensures k in db && value == db[k]
      ensures db == if k in old(db) then old(db) else old(db)[k := lattice.bottom]
    {
      missing := k !in db;
      if k !in db {
        db := db[k := lattice.bottom];
      }
      value := db[k];
    }

    method Put(k: Key, v: V)
      modifies this
      ensures db == PutInto(lattice, old(db), k, v)
    {
      if k !in db {
        db := db[k := lattice.bottom];
      }
      db := db[k := lattice.merge(db[k], v)];
    }

    method Remove(k: Key)
      modifies this
      ensures db == old(db) - {k}
    {
      if k in db {
        db := db - {k};
      }
    }
  }

  // ---------------------------------------------------------------------- replicas

  /** A replica's entries, and for every key the client writes that have reached it. */
  datatype Replica<V> = Replica(db: map<Key, V>, seen: map<Key, set<V>>)

  /** A value of a key, and the client writes that went into it. */
  datatype Message<V> = Message(key: Key, value: V, seen: set<V>)

  type Id = string

  /** The replicas, and everything that any of them ever sent. */
  datatype Cluster<V> = Cluster(replicas: map<Id, Replica<V>>, sent: set<Message<V>>)

  /** A client writes, a replica sends its value of a key, or a message arrives, possibly late and not for the first time. */
  datatype Event<V> =
    | Write(at: Id, key: Key, value: V)
    | Gossip(at: Id, key: Key)
    | Arrive(at: Id, message: Message<V>)

  function SeenAt<V>(r: Replica<V>, k: Key): set<V> {
    if k in r.seen then r.seen[k] else {}
  }

  function Absorb<V>(l: Lattice<V>, r: Replica<V>, m: Message<V>): Replica<V> {
    Replica(PutInto(l, r.db, m.key, m.value), r.seen[m.key := SeenAt(r, m.key) + m.seen])
  }

  predicate Enabled<V(==)>(l: Lattice<V>, c: Cluster<V>, e: Event<V>) {
    && e.at in c.replicas
    && match e
       case Write(_, _, v) => l.ok(v)
       case Gossip(i, k) => k in c.replicas[i].db && k in c.replicas[i].seen
       case Arrive(_, m) => m in c.sent
  }

  function Step<V(==)>(l: Lattice<V>, c: Cluster<V>, e: Event<V>): Cluster<V>
    requires Enabled(l, c, e)
  {
    var r := c.replicas[e.at];
    match e
    case Write(i, k, v) => c.(replicas := c.replicas[i := Absorb(l, r, Message(k, v, {v}))])
    case Gossip(_, k) => c.(sent := c.sent + {Message(k, r.db[k], r.seen[k])})
    case Arrive(i, m) => c.(replicas := c.replicas[i := Absorb(l, r, m)])
  }

  /** `x` is the join of the writes in `s`, of which there is at least one. */
  ghost predicate Holds<V(!new)>(l: Lattice<V>, s: set<V>, x: V) {
    s != {} && (forall v | v in s :: l.ok(v)) && IsJoin(l, s, x)
  }

  ghost predicate ReplicaHolds<V(!new)>(l: Lattice<V>, r: Replica<V>) {
    r.db.Keys == r.seen.Keys && forall k | k in r.db :: Holds(l, r.seen[k], r.db[k])
  }

  ghost predicate Inv<V(!new)>(l: Lattice<V>, c: Cluster<V>) {
    && (forall i | i in c.replicas :: ReplicaHolds(l, c.replicas[i]))
    && forall m | m in c.sent :: Holds(l, m.seen, m.value)
  }

  lemma MergedHolds<V(!new)>(l: Lattice<V>, s: set<V>, t: set<V>, x: V, y: V)
    requires Laws(l) && Holds(l, s, x) && Holds(l, t, y)
    ensures Holds(l, s + t, l.merge(x, y))
  {
    MergeOfJoins(l, s, t, x, y);
  }

  lemma FirstHolds<V(!new)>(l: Lattice<V>, t: set<V>, y: V)
    requires Laws(l) && Holds(l, t, y)
    ensures Holds(l, {} + t, l.merge(l.bottom, y))
  {
    assert {} + t == t;
  }

  lemma WriteHolds<V(!new)>(l: Lattice<V>, v: V)
    requires Laws(l) && l.ok(v)
    ensures Holds(l, {v}, v)
  {
  }

  /** Only the entry of one key changes. */
  lemma EntryHolds<V(!new)>(l: Lattice<V>, r: Replica<V>, k: Key, s: set<V>, x: V)
    requires ReplicaHolds(l, r) && Holds(l, s, x)
    ensures ReplicaHolds(l, Replica(r.db[k := x], r.seen[k := s]))
  {
    var r' := Replica(r.db[k := x], r.seen[k := s]);
    assert r'.db.Keys == r'.seen.Keys;
  }

  lemma AbsorbHolds<V(!new)>(l: Lattice<V>, r: Replica<V>, m: Message<V>)
    requires Laws(l) && ReplicaHolds(l, r) && Holds(l, m.seen, m.value)
    ensures ReplicaHolds(l, Absorb(l, r, m))
  {
    var k := m.key;
    if k in r.db {
      MergedHolds(l, r.seen[k], m.seen, r.db[k], m.value);
    } else {
      FirstHolds(l, m.seen, m.value);
    }
    EntryHolds(l, r, k, SeenAt(r, k) + m.seen, PutInto(l, r.db, k, m.value)[k]);
  }

  lemma ReplacedKeepsInv<V(!new)>(l: Lattice<V>, c: Cluster<V>, i: Id, r: Replica<V>)
    requires Inv(l, c) && ReplicaHolds(l, r)
    ensures Inv(l, c.(replicas := c.replicas[i := r]))
  {
  }

  lemma SentKeepsInv<V(!new)>(l: Lattice<V>, c: Cluster<V>, m: Message<V>)
    requires Inv(l, c) && Holds(l, m.seen, m.value)
    ensures Inv(l, c.(sent := c.sent + {m}))
  {
  }

  lemma StepKeepsInv<V(!new)>(l: Lattice<V>, c: Cluster<V>, e: Event<V>)
    requires Laws(l) && Inv(l, c) && Enabled(l, c, e)
    ensures Inv(l, Step(l, c, e))
  {
    var r := c.replicas[e.at];
    assert ReplicaHolds(l, r);
    match e
    case Write(i, k, v) =>
      WriteHolds(l, v);
      AbsorbHolds(l, r, Message(k, v, {v}));
      ReplacedKeepsInv(l, c, i, Absorb(l, r, Message(k, v, {v})));
    case Gossip(_, k) =>
      SentKeepsInv(l, c, Message(k, r.db[k], r.seen[k]));
    case Arrive(i, m) =>
      AbsorbHolds(l, r, m);
      ReplacedKeepsInv(l, c, i, Absorb(l, r, m));
  }

  ghost predicate IsRun<V(!new)>(l: Lattice<V>, cs: seq<Cluster<V>>, es: seq<Event<V>>) {
    && |cs| == |es| + 1
    && (forall i | i in cs[0].replicas :: cs[0].replicas[i] == Replica(map[], map[])) && cs[0].sent == {}
    && forall n | 0 <= n < |es| :: Enabled(l, cs[n], es[n]) && cs[n + 1] == Step(l, cs[n], es[n])
  }

  lemma {:induction false} RunKeepsInv<V(!new)>(l: Lattice<V>, cs: seq<Cluster<V>>, es: seq<Event<V>>, n: nat)
    requires Laws(l) && IsRun(l, cs, es) && n < |cs|
    ensures Inv(l, cs[n])
  {
    if n > 0 {
      RunKeepsInv(l, cs, es, n - 1);
      StepKeepsInv(l, cs[n - 1], es[n - 1]);
    }
  }

  /** Replicas that the same client writes have reached are equal. */
  ghost predicate Agree<V(!new)>(c: Cluster<V>) {
    forall i, j | i in c.replicas && j in c.replicas && c.replicas[i].seen == c.replicas[j].seen ::
      c.replicas[i].db == c.replicas[j].db
  }

  /** In every run the replicas agree, however the writes got there, in whatever order and however often. */
  ghost predicate Convergent<V(!new)>(l: Lattice<V>) {
    forall cs, es, n | IsRun(l, cs, es) && 0 <= n < |cs| :: Agree(cs[n])
  }

  lemma SameSeenSameEntry<V(!new)>(l: Lattice<V>, a: Replica<V>, b: Replica<V>, k: Key)
    requires Laws(l) && ReplicaHolds(l, a) && ReplicaHolds(l, b) && a.seen == b.seen
    ensures k in a.db <==> k in b.db
    ensures k in a.db ==> a.db[k] == b.db[k]
  {
  }

  lemma InvAgrees<V(!new)>(l: Lattice<V>, c: Cluster<V>)
    requires Laws(l) && Inv(l, c)
    ensures Agree(c)
  {
    forall i, j, k | i in c.replicas && j in c.replicas && c.replicas[i].seen == c.replicas[j].seen
      ensures k in c.replicas[i].db <==> k in c.replicas[j].db
      ensures k in c.replicas[i].db ==> c.replicas[i].db[k] == c.replicas[j].db[k]
    {
      SameSeenSameEntry(l, c.replicas[i], c.replicas[j], k);
    }
  }

  /** Strong eventual consistency. */
  lemma LatticesConverge<V(!new)>(l: Lattice<V>)
    requires Laws(l)
    ensures Convergent(l)
  {
    forall cs: seq<Cluster<V>>, es, n | IsRun(l, cs, es) && 0 <= n < |cs| ensures Agree(cs[n]) {
      RunKeepsInv(l, cs, es, n);
      InvAgrees(l, cs[n]);
    }
  }

  // -------------------------------------------------------------- the value types

  method MergeSets(x: set<string>, y: set<string>) returns (r: set<string>)
    ensures r == SetLattice().merge(x, y)
  {
    r := x;
    var todo := y;
    while todo != {}
      invariant todo <= y && r == x + (y - todo)
      decreases todo
    {
      var e :| e in todo;
      r, todo := r + {e}, todo - {e};
    }
  }

  function SetLattice(): Lattice<set<string>> {
    Lattice((x: set<string>, y: set<string>) => x + y, {}, (x: set<string>) => true)
  }

  lemma SetsConverge()
    ensures Convergent(SetLattice())
  {
    var l := SetLattice();
    forall x, y, z ensures l.merge(l.merge(x, y), z) == l.merge(x, l.merge(y, z)) {
      assert (x + y) + z == x + (y + z);
    }
    forall x, y ensures l.merge(x, y) == l.merge(y, x) {
      assert x + y == y + x;
    }
    forall x ensures l.merge(x, x) == x && l.merge(l.bottom, x) == x {
      assert x + x == x && {} + x == x;
    }
    LatticesConverge(l);
  }

  /** Counters, which start from 0 and are never negative. */
  function MaxLattice(): Lattice<int> {
    Lattice((x: int, y: int) => if x < y then y else x, 0, (x: int) => x >= 0)
  }

  lemma CountersConverge()
    ensures Convergent(MaxLattice()) && Convergent(MapLattice(MaxLattice()))
  {
    assert Laws(MaxLattice());
    LatticesConverge(MaxLattice());
    MapsConverge(MaxLattice());
  }

  datatype Stamped = Stamped(timestamp: nat, value: string)

  /** The later write wins, and of two equally late ones the one that is merged in. */
  function LwwMerge(x: Stamped, y: Stamped): Stamped {
    if y.timestamp >= x.timestamp then y else x
  }

  class LwwPairLattice {
    var element: Stamped

    constructor ()
      ensures element == Stamped(0, "")
    {
      element := Stamped(0, "");
    }

    method Merge(p: Stamped)
      modifies this
      ensures element == LwwMerge(old(element), p)
    {
      if p.timestamp >= element.timestamp {
        element := p;
      }
    }
  }

  /** Last-writer-wins, when clients write only the values in `writes`. */
  function LwwLattice(writes: set<Stamped>): Lattice<Stamped> {
    Lattice((x: Stamped, y: Stamped) => LwwMerge(x, y), Stamped(0, ""), (x: Stamped) => x in writes)
  }

  /** No two different writes have the same timestamp. */
  ghost predicate DistinctStamps(writes: set<Stamped>) {
    forall x, y | x in writes && y in writes && x.timestamp == y.timestamp :: x == y
  }

  lemma LwwLaws(writes: set<Stamped>)
    requires DistinctStamps(writes)
    ensures Laws(LwwLattice(writes))
  {
  }

  /** The first write of a key, and a second one that is as late. */
  lemma LwwAbsorbs(writes: set<Stamped>, k: Key, x: Stamped, y: Stamped)
    requires x.timestamp == y.timestamp
    ensures var l := LwwLattice(writes);
            var first := Absorb(l, Replica(map[], map[]), Message(k, x, {x}));
            && first == Replica(map[k := x], map[k := {x}])
            && Absorb(l, first, Message(k, y, {y})) == Replica(map[k := y], map[k := {x, y}])
  {
    var l := LwwLattice(writes);
    assert {} + {x} == {x} && {x} + {y} == {x, y};
    assert l.merge(l.bottom, x) == x && l.merge(x, y) == y;
  }

  /** Two replicas are sent the same two writes in opposite orders. */
  lemma LwwRun(writes: set<Stamped>, x: Stamped, y: Stamped) returns (cs: seq<Cluster<Stamped>>, es: seq<Event<Stamped>>)
    requires x in writes && y in writes && x != y && x.timestamp == y.timestamp
    ensures IsRun(LwwLattice(writes), cs, es) && !Agree(cs[|cs| - 1])
  {
    var l := LwwLattice(writes);
    LwwAbsorbs(writes, "k", x, y);
    LwwAbsorbs(writes, "k", y, x);
    assert {x, y} == {y, x};
    var empty: Replica<Stamped> := Replica(map[], map[]);
    var mx, my := Message("k", x, {x}), Message("k", y, {y});
    var c0 := Cluster(map["a" := empty, "b" := empty], {});
    var c1 := Step(l, c0, Write("a", "k", x));
    var c2 := Step(l, c1, Write("b", "k", y));
    var c3 := Step(l, c2, Gossip("a", "k"));
    assert mx in c3.sent;
    var c4 := Step(l, c3, Gossip("b", "k"));
    assert mx in c4.sent && my in c4.sent;
    var c5 := Step(l, c4, Arrive("a", my));
    var c6 := Step(l, c5, Arrive("b", mx));
    cs := [c0, c1, c2, c3, c4, c5, c6];
    es := [Write("a", "k", x), Write("b", "k", y), Gossip("a", "k"), Gossip("b", "k"), Arrive("a", my), Arrive("b", mx)];
    assert c6.replicas["a"] == Replica(map["k" := y], map["k" := {x, y}]);
    assert c6.replicas["b"] == Replica(map["k" := x], map["k" := {x, y}]);
  }

  /** Last-writer-wins replicas agree in every run if and only if timestamps identify writes. */
  lemma LwwConvergesIff(writes: set<Stamped>)
    ensures Convergent(LwwLattice(writes)) <==> DistinctStamps(writes)
  {
    if DistinctStamps(writes) {
      LwwLaws(writes);
      LatticesConverge(LwwLattice(writes));
    } else {
      var x, y :| x in writes && y in writes && x.timestamp == y.timestamp && x != y;
      var cs, es := LwwRun(writes, x, y);
    }
  }

  /** Maps are merged entry by entry; an entry that only one side has is kept. */
  function MergeMaps<V>(l: Lattice<V>, a: map<Key, V>, b: map<Key, V>): map<Key, V> {
    map k | k in a.Keys + b.Keys :: if k in a && k in b then l.merge(a[k], b[k]) else if k in a then a[k] else b[k]
  }

  method InsertPairs<V>(l: Lattice<V>, a: map<Key, V>, b: map<Key, V>) returns (r: map<Key, V>)
    ensures r == MergeMaps(l, a, b)
  {
    r := a;
    var todo := b.Keys;
    while todo != {}
      invariant todo <= b.Keys && r.Keys == a.Keys + (b.Keys - todo)
      invariant forall k | k in r :: r[k] == if k in todo then a[k] else MergeMaps(l, a, b)[k]
      decreases todo
    {
      var k :| k in todo;
      r := r[k := if k in r then l.merge(r[k], b[k]) else b[k]];
      todo := todo - {k};
    }
  }

  function MapLattice<V>(l: Lattice<V>): Lattice<map<Key, V>> {
    Lattice((a: map<Key, V>, b: map<Key, V>) => MergeMaps(l, a, b), map[],
            (a: map<Key, V>) => forall k | k in a :: l.ok(a[k]))
  }

  lemma MapsCommute<V(!new)>(l: Lattice<V>, a: map<Key, V>, b: map<Key, V>)
    requires Laws(l) && MapLattice(l).ok(a) && MapLattice(l).ok(b)
    ensures MapLattice(l).ok(MergeMaps(l, a, b)) && MergeMaps(l, a, b) == MergeMaps(l, b, a)
  {
  }

  lemma MapsAssociate<V(!new)>(l: Lattice<V>, a: map<Key, V>, b: map<Key, V>, c: map<Key, V>)
    requires Laws(l) && MapLattice(l).ok(a) && MapLattice(l).ok(b) && MapLattice(l).ok(c)
    ensures MergeMaps(l, MergeMaps(l, a, b), c) == MergeMaps(l, a, MergeMaps(l, b, c))
  {
    var x, y := MergeMaps(l, MergeMaps(l, a, b), c), MergeMaps(l, a, MergeMaps(l, b, c));
    assert x.Keys == y.Keys;
    forall k | k in x ensures x[k] == y[k] {
      if k in a && k in b && k in c {
        assert l.merge(l.merge(a[k], b[k]), c[k]) == l.merge(a[k], l.merge(b[k], c[k]));
      }
    }
  }

  /** Maps of lattices are lattices, so replicas of them agree too. */
  lemma MapsConverge<V(!new)>(l: Lattice<V>)
    requires Laws(l)
    ensures Laws(MapLattice(l)) && Convergent(MapLattice(l))
  {
    var m := MapLattice(l);
    forall a, b | m.ok(a) && m.ok(b) ensures m.ok(m.merge(a, b)) && m.merge(a, b) == m.merge(b, a) {
      MapsCommute(l, a, b);
    }
    forall a, b, c | m.ok(a) && m.ok(b) && m.ok(c) ensures m.merge(m.merge(a, b), c) == m.merge(a, m.merge(b, c)) {
      MapsAssociate(l, a, b, c);
    }
    forall a | m.ok(a) ensures m.merge(a, a) == a && m.merge(m.bottom, a) == a {
      assert MergeMaps(l, a, a) == a && MergeMaps(l, map[], a) == a;
    }
    LatticesConverge(m);
  }
}
