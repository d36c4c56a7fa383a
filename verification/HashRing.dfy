/**
  Consistent hashing with virtual nodes.  The ring is an ordered map from hash
  values to servers, kept here as its entries in increasing order; a walk
  starts at the first entry at or after a hash and goes on clockwise.
 */
module HashRings {

  const VIRTUAL_THREADS: nat := 3000

  /** Two server threads are the same when address and thread number agree. */
  datatype Server = Server(ip: string, tid: nat)

  datatype Slot = Slot(hash: nat, server: Server)

  type Ring = seq<Slot>

  predicate Sorted(r: Ring) {
    forall i, j | 0 <= i < j < |r| :: r[i].hash < r[j].hash
  }

  // ------------------------------------------------------------- the ordered map

  /** The position of the first entry at or after `h`. */
  function LowerBound(r: Ring, h: nat): (i: nat)
    ensures i <= |r|
    ensures forall j | 0 <= j < i :: r[j].hash < h
    ensures i < |r| ==> r[i].hash >= h
  {
    if r == [] || r[0].hash >= h then 0 else 1 + LowerBound(r[1..], h)
  }

  predicate HasHash(r: Ring, h: nat) {
    var i := LowerBound(r, h);
    i < |r| && r[i].hash == h
  }

  /** Inserting never replaces an entry that already has this hash. */
  function Put(r: Ring, slot: Slot): Ring {
    var i := LowerBound(r, slot.hash);
    if HasHash(r, slot.hash) then r else r[..i] + [slot] + r[i..]
  }

  /** Erasing goes by hash alone, whoever owns the entry. */
  function Cut(r: Ring, h: nat): Ring {
    var i := LowerBound(r, h);
    if HasHash(r, h) then r[..i] + r[i + 1..] else r
  }

  lemma PutKeepsSorted(r: Ring, slot: Slot)
    requires Sorted(r)
    ensures Sorted(Put(r, slot))
  {
    var i := LowerBound(r, slot.hash);
    forall j | i <= j < |r| && !HasHash(r, slot.hash) ensures r[j].hash > slot.hash {
      if i < j { assert r[i].hash < r[j].hash; }
    }
  }

  lemma PutMember(r: Ring, slot: Slot, s: Slot)
    ensures s in Put(r, slot) <==> s in r || (s == slot && !HasHash(r, slot.hash))
  {
  }

  lemma CutKeepsSorted(r: Ring, h: nat)
    requires Sorted(r)
    ensures Sorted(Cut(r, h))
  {
  }

  /** Cutting takes out the entry with the hash, if there is one, and no other. */
  lemma CutMember(r: Ring, h: nat, s: Slot)
    requires Sorted(r)
    ensures s in Cut(r, h) <==> s in r && s.hash != h
  {
  }

  // ------------------------------------------------------------------- the walk

  /** The entries in clockwise order from `h`. */
  function Clockwise(r: Ring, h: nat): (c: Ring)
    ensures |c| == |r|
  {
    r[LowerBound(r, h)..] + r[..LowerBound(r, h)]
  }

  function Servers(r: Ring): (s: seq<Server>)
    ensures |s| == |r| && forall i | 0 <= i < |r| :: s[i] == r[i].server
  {
    seq(|r|, i requires 0 <= i < |r| => r[i].server)
  }

  function AddNew(known: seq<Server>, s: Server): seq<Server> {
    if s in known then known else known + [s]
  }

  /** The first occurrences, in order. */
  function Distinct(s: seq<Server>): seq<Server> {
    if s == [] then [] else AddNew(Distinct(s[..|s| - 1]), s[|s| - 1])
  }

  /** All servers of the ring, in the clockwise order of their first virtual nodes. */
  function Order(r: Ring, h: nat): seq<Server> {
    Distinct(Servers(Clockwise(r, h)))
  }

  predicate NoRepeats(s: seq<Server>) {
    forall i, j | 0 <= i < j < |s| :: s[i] != s[j]
  }

  lemma {:induction false} DistinctIsExact(s: seq<Server>)
    ensures NoRepeats(Distinct(s))
    ensures forall x :: x in Distinct(s) <==> x in s
  {
    if s != [] {
      var init, last := s[..|s| - 1], s[|s| - 1];
      DistinctIsExact(init);
      assert s == init + [last];
    }
  }

  /** Where an entry of the ring comes in the walk, and the other way round. */
  lemma ClockwiseMembers(r: Ring, h: nat, x: Server)
    ensures x in Servers(Clockwise(r, h)) <==> x in Servers(r)
  {
    var c, i := Clockwise(r, h), LowerBound(r, h);
    if x in Servers(r) {
      var j :| 0 <= j < |r| && Servers(r)[j] == x;
      assert Servers(c)[if j >= i then j - i else |r| - i + j] == x;
    }
    if x in Servers(c) {
      var j :| 0 <= j < |c| && Servers(c)[j] == x;
      assert Servers(r)[if j < |r| - i then i + j else j - (|r| - i)] == x;
    }
  }

  /** The clockwise order lists every server of the ring exactly once. */
  lemma OrderIsExact(r: Ring, h: nat)
    ensures NoRepeats(Order(r, h))
    ensures forall x :: x in Order(r, h) <==> x in Servers(r)
  {
    DistinctIsExact(Servers(Clockwise(r, h)));
    forall x ensures x in Order(r, h) <==> x in Servers(r) {
      ClockwiseMembers(r, h, x);
    }
  }

  // ------------------------------------------------------- what the order means

  /** Clockwise from `h`, the hash `a` comes before the hash `b`. */
  predicate Before(h: nat, a: nat, b: nat) {
    if a >= h then b < h || a < b else b < h && a < b
  }

  /** An entry of the server `x` comes before every entry of every server outside `nearer`. */
  ghost predicate ComesNext(r: Ring, h: nat, nearer: seq<Server>, x: Server) {
    exists s :: s in r && s.server == x && forall t | t in r && t.server !in nearer :: Before(h, s.hash, t.hash)
  }

  /** The servers in `order` are the nearest ones clockwise from `h`, the nearest first. */
  ghost predicate Nearest(r: Ring, h: nat, order: seq<Server>) {
    forall i | 0 <= i < |order| :: ComesNext(r, h, order[..i + 1], order[i])
  }

  lemma ClockwiseIsSorted(r: Ring, h: nat, i: nat, j: nat)
    requires Sorted(r) && i < j < |r|
    ensures Before(h, Clockwise(r, h)[i].hash, Clockwise(r, h)[j].hash)
  {
    SplitAt(r, h);
    var k := LowerBound(r, h);
    assert i < |r| - k ==> Clockwise(r, h)[i] == r[k..][i];
    assert j >= |r| - k ==> Clockwise(r, h)[j] == r[..k][j - (|r| - k)];
  }

  /** Where the walk meets the `i`th server for the first time. */
  lemma {:induction false} FirstMet(s: seq<Server>, i: nat) returns (p: nat)
    requires i < |Distinct(s)|
    ensures p < |s| && s[p] == Distinct(s)[i] && Distinct(s[..p]) == Distinct(s)[..i]
  {
    var n := |s| - 1;
    var init := Distinct(s[..n]);
    if i < |init| {
      p := FirstMet(s[..n], i);
      assert s[..n][..p] == s[..p];
    } else {
      p := n;
    }
  }

  /** An entry of a server that the walk meets later comes later. */
  lemma MetLater(r: Ring, h: nat, p: nat, t: Slot)
    requires Sorted(r) && p < |r| && t in r
    requires t.server !in Distinct(Servers(Clockwise(r, h))[..p]) && t.server != Clockwise(r, h)[p].server
    ensures Before(h, Clockwise(r, h)[p].hash, t.hash)
  {
    var c := Clockwise(r, h);
    ClockwiseSlots(r, h, t);
    var q :| 0 <= q < |c| && c[q] == t;
    DistinctIsExact(Servers(c)[..p]);
    forall k | 0 <= k < p ensures c[k].server != t.server {
      assert Servers(c)[..p][k] == c[k].server;
    }
    ClockwiseIsSorted(r, h, p, q);
  }

  lemma OrderComesNext(r: Ring, h: nat, i: nat)
    requires Sorted(r) && i < |Order(r, h)|
    ensures ComesNext(r, h, Order(r, h)[..i + 1], Order(r, h)[i])
  {
    var c, order := Clockwise(r, h), Order(r, h);
    var p := FirstMet(Servers(c), i);
    ClockwiseSlots(r, h, c[p]);
    assert order[..i + 1] == order[..i] + [order[i]];
    forall t | t in r && t.server !in order[..i + 1] ensures Before(h, c[p].hash, t.hash) {
      MetLater(r, h, p, t);
    }
  }

  /** The clockwise order of the servers is the order of their distances from the hash. */
  lemma OrderIsNearest(r: Ring, h: nat)
    requires Sorted(r)
    ensures Nearest(r, h, Order(r, h))
  {
    forall i | 0 <= i < |Order(r, h)| ensures ComesNext(r, h, Order(r, h)[..i + 1], Order(r, h)[i]) {
      OrderComesNext(r, h, i);
    }
  }

  lemma NearestPrefix(r: Ring, h: nat, order: seq<Server>, n: nat)
    requires Nearest(r, h, order) && NoRepeats(order) && n <= |order|
    ensures Nearest(r, h, order[..n]) && NoRepeats(order[..n])
  {
    forall i | 0 <= i < n ensures ComesNext(r, h, order[..n][..i + 1], order[..n][i]) {
      assert order[..n][..i + 1] == order[..i + 1];
      assert ComesNext(r, h, order[..i + 1], order[i]);
    }
  }

  lemma FirstAreNearest(r: Ring, h: nat, n: nat)
    requires Sorted(r) && n <= |Order(r, h)|
    ensures Nearest(r, h, Order(r, h)[..n]) && NoRepeats(Order(r, h)[..n])
  {
    OrderIsExact(r, h);
    OrderIsNearest(r, h);
    NearestPrefix(r, h, Order(r, h), n);
  }

  lemma ClockwiseSlots(r: Ring, h: nat, s: Slot)
    ensures s in Clockwise(r, h) <==> s in r
  {
    var i := LowerBound(r, h);
    assert r == r[..i] + r[i..];
  }

  /** Being nearest determines the servers and their order. */
  lemma {:induction false} NearestIsUnique(r: Ring, h: nat, a: seq<Server>, b: seq<Server>)
    requires Nearest(r, h, a) && Nearest(r, h, b) && NoRepeats(a) && NoRepeats(b) && |a| == |b|
    ensures a == b
  {
    if a != [] {
      var n := |a| - 1;
      NearestPrefix(r, h, a, n);
      NearestPrefix(r, h, b, n);
      NearestIsUnique(r, h, a[..n], b[..n]);
      LastComesNext(r, h, a);
      LastComesNext(r, h, b);
      NextIsUnique(r, h, a[..n], a[n], b[n]);
      SameAsInit(a, b);
    }
  }

  lemma SameAsInit(a: seq<Server>, b: seq<Server>)
    requires |a| == |b| > 0 && a[..|a| - 1] == b[..|b| - 1] && a[|a| - 1] == b[|b| - 1]
    ensures a == b
  {
    assert a == a[..|a| - 1] + [a[|a| - 1]] && b == b[..|b| - 1] + [b[|b| - 1]];
  }

  lemma LastComesNext(r: Ring, h: nat, order: seq<Server>)
    requires Nearest(r, h, order) && NoRepeats(order) && order != []
    ensures var n := |order| - 1;
            order[n] !in order[..n] && ComesNext(r, h, order[..n] + [order[n]], order[n])
  {
    var n := |order| - 1;
    assert ComesNext(r, h, order[..n + 1], order[n]);
    assert order[..n + 1] == order[..n] + [order[n]];
  }

  lemma NextIsUnique(r: Ring, h: nat, nearer: seq<Server>, x: Server, y: Server)
    requires x !in nearer && y !in nearer
    requires ComesNext(r, h, nearer + [x], x) && ComesNext(r, h, nearer + [y], y)
    ensures x == y
  {
    var s :| s in r && s.server == x && forall t | t in r && t.server !in nearer + [x] :: Before(h, s.hash, t.hash);
    var t :| t in r && t.server == y && forall s | s in r && s.server !in nearer + [y] :: Before(h, t.hash, s.hash);
    assert x != y ==> Before(h, s.hash, t.hash) && Before(h, t.hash, s.hash);
  }

  lemma DistinctPrefix(s: seq<Server>, j: nat)
    requires j < |s|
    ensures Distinct(s[..j + 1]) == AddNew(Distinct(s[..j]), s[j])
  {
    assert s[..j + 1][..j] == s[..j];
  }

  lemma {:induction false} DistinctGrows(s: seq<Server>, j: nat)
    requires j <= |s|
    ensures Distinct(s[..j]) <= Distinct(s)
    decreases |s| - j
  {
    if j < |s| {
      DistinctGrows(s, j + 1);
      DistinctPrefix(s, j);
    } else {
      assert s[..j] == s;
    }
  }

  /** The position `k` steps clockwise from the first entry at or after `h`. */
  function Position(r: Ring, h: nat, k: nat): (p: nat)
    requires k < |r|
    ensures p < |r|
  {
    var i := LowerBound(r, h) + k;
    if i < |r| then i else i - |r|
  }

  lemma WalkAt(r: Ring, h: nat, k: nat)
    requires k < |r|
    ensures Servers(Clockwise(r, h))[k] == r[Position(r, h, k)].server
  {
  }

  /**
    The servers responsible for a key: walk on from its hash, collecting
    servers not met before, until there are enough.
   */
  method Responsible(r: Ring, h: nat, rep: nat) returns (threads: seq<Server>)
    requires r == [] || rep <= |Order(r, h)|
    ensures r != [] ==> threads == Order(r, h)[..rep]
    ensures r == [] ==> threads == []
    ensures Sorted(r) ==> Nearest(r, h, threads) && NoRepeats(threads) && (r != [] ==> |threads| == rep)
  {
    threads := [];
    if r == [] { return; }
    var pos := LowerBound(r, h);
    if pos == |r| { pos := 0; }
    ghost var walk := Servers(Clockwise(r, h));
    ghost var steps := 0;
    while |threads| < rep
      invariant 0 <= pos < |r| && steps <= |r| && |threads| <= rep
      invariant steps < |r| ==> pos == Position(r, h, steps)
      invariant threads == Distinct(walk[..steps])
      decreases |r| - steps
    {
      assert steps < |r| by { assert walk[..|r|] == walk; }
      DistinctPrefix(walk, steps);
      WalkAt(r, h, steps);
      if r[pos].server !in threads {
        threads := threads + [r[pos].server];
      }
      pos := pos + 1;
      if pos == |r| { pos := 0; }
      steps := steps + 1;
    }
    DistinctGrows(walk, steps);
    if Sorted(r) {
      FirstAreNearest(r, h, rep);
    }
  }

  // ----------------------------------------------------------- minimal disruption

  /** The ring without the virtual nodes of server `x`. */
  function Without(r: Ring, x: Server): Ring {
    if r == [] then [] else Without(r[..|r| - 1], x) + if r[|r| - 1].server == x then [] else [r[|r| - 1]]
  }

  function Except(s: seq<Server>, x: Server): seq<Server> {
    if s == [] then [] else Except(s[..|s| - 1], x) + if s[|s| - 1] == x then [] else [s[|s| - 1]]
  }

  lemma {:induction false} WithoutConcat(a: Ring, b: Ring, x: Server)
    ensures Without(a + b, x) == Without(a, x) + Without(b, x)
  {
    if b == [] {
      assert a + b == a;
    } else {
      var init := b[..|b| - 1];
      WithoutConcat(a, init, x);
      assert (a + b)[..|a + b| - 1] == a + init;
    }
  }

  lemma {:induction false} WithoutMember(r: Ring, x: Server, s: Slot)
    ensures s in Without(r, x) <==> s in r && s.server != x
  {
    if r != [] {
      WithoutMember(r[..|r| - 1], x, s);
      assert r == r[..|r| - 1] + [r[|r| - 1]];
    }
  }

  lemma {:induction false} WithoutStranger(r: Ring, x: Server)
    requires forall i | 0 <= i < |r| :: r[i].server != x
    ensures Without(r, x) == r
  {
    if r != [] {
      WithoutStranger(r[..|r| - 1], x);
      assert r == r[..|r| - 1] + [r[|r| - 1]];
    }
  }

  lemma {:induction false} WithoutMembers(r: Ring, x: Server)
    ensures forall s :: s in Without(r, x) <==> s in r && s.server != x
  {
    forall s ensures s in Without(r, x) <==> s in r && s.server != x {
      WithoutMember(r, x, s);
    }
  }

  lemma {:induction false} LowerBoundSplit(a: Ring, b: Ring, h: nat)
    requires forall s | s in a :: s.hash < h
    requires forall s | s in b :: s.hash >= h
    ensures LowerBound(a + b, h) == |a|
  {
    if a == [] {
      assert a + b == b;
      if b != [] { assert b[0] in b; }
    } else {
      assert (a + b)[0] == a[0] && a[0] in a;
      assert (a + b)[1..] == a[1..] + b;
      LowerBoundSplit(a[1..], b, h);
    }
  }

  /** Walking and removing a server commute. */
  lemma {:induction false} ClockwiseWithout(r: Ring, x: Server, h: nat)
    requires Sorted(r)
    ensures Clockwise(Without(r, x), h) == Without(Clockwise(r, h), x)
  {
    var i := LowerBound(r, h);
    var a, b := r[..i], r[i..];
    assert r == a + b;
    WithoutConcat(a, b, x);
    WithoutConcat(b, a, x);
    SplitAt(r, h);
    WithoutMembers(a, x);
    WithoutMembers(b, x);
    Rotate(Without(a, x), Without(b, x), h);
  }

  lemma {:induction false} SplitAt(r: Ring, h: nat)
    requires Sorted(r)
    ensures forall s | s in r[..LowerBound(r, h)] :: s.hash < h
    ensures forall s | s in r[LowerBound(r, h)..] :: s.hash >= h
  {
  }

  lemma Rotate(a: Ring, b: Ring, h: nat)
    requires forall s | s in a :: s.hash < h
    requires forall s | s in b :: s.hash >= h
    ensures Clockwise(a + b, h) == b + a
  {
    LowerBoundSplit(a, b, h);
  }

  lemma {:induction false} ExceptConcat(a: seq<Server>, b: seq<Server>, x: Server)
    ensures Except(a + b, x) == Except(a, x) + Except(b, x)
  {
    if b == [] {
      assert a + b == a;
    } else {
      var init := b[..|b| - 1];
      ExceptConcat(a, init, x);
      assert (a + b)[..|a + b| - 1] == a + init;
    }
  }

  lemma {:induction false} ServersWithout(r: Ring, x: Server)
    ensures Servers(Without(r, x)) == Except(Servers(r), x)
  {
    if r != [] {
      ServersWithout(r[..|r| - 1], x);
      assert Servers(r)[..|r| - 1] == Servers(r[..|r| - 1]);
    }
  }

  lemma {:induction false} ExceptMembers(s: seq<Server>, x: Server)
    ensures forall y :: y in Except(s, x) <==> y in s && y != x
    ensures x !in s ==> Except(s, x) == s
  {
    if s != [] {
      ExceptMembers(s[..|s| - 1], x);
      assert s == s[..|s| - 1] + [s[|s| - 1]];
    }
  }

  lemma {:induction false} DistinctSnoc(s: seq<Server>, y: Server)
    ensures Distinct(s + [y]) == AddNew(Distinct(s), y)
  {
  }

  lemma {:induction false} ExceptSnoc(s: seq<Server>, y: Server, x: Server)
    ensures Except(s + [y], x) == Except(s, x) + if y == x then [] else [y]
  {
  }

  lemma {:induction false} DistinctExcept(s: seq<Server>, x: Server)
    ensures Distinct(Except(s, x)) == Except(Distinct(s), x)
  {
    if s != [] {
      var init, last := s[..|s| - 1], s[|s| - 1];
      DistinctExcept(init, x);
      var d := Distinct(init);
      ExceptSnoc(d, last, x);
      if last == x {
        assert Except(s, x) == Except(init, x);
      } else {
        DistinctSnoc(Except(init, x), last);
        ExceptMembers(d, x);
      }
    }
  }

  /** A server's virtual nodes influence nobody else: taking them out of the ring only takes that server out of the order. */
  lemma {:induction false} MinimalDisruption(r: Ring, x: Server, h: nat)
    requires Sorted(r)
    ensures Order(Without(r, x), h) == Except(Order(r, h), x)
  {
    ClockwiseWithout(r, x, h);
    ServersWithout(Clockwise(r, h), x);
    DistinctExcept(Servers(Clockwise(r, h)), x);
  }

  /** `l` is `s` without its entry at `p`. */
  ghost predicate WithoutAt(s: seq<Server>, p: nat, l: seq<Server>) {
    p < |s| == |l| + 1 && (forall i | 0 <= i < p :: l[i] == s[i]) && forall i | p <= i < |l| :: l[i] == s[i + 1]
  }

  /** A list without repeats is what remains without `x`, with `x` put in at one place. */
  lemma {:induction false} OnePlace(s: seq<Server>, x: Server, p: nat)
    requires NoRepeats(s) && p < |s| && s[p] == x
    ensures WithoutAt(s, p, Except(s, x))
  {
    var init := s[..|s| - 1];
    if p == |s| - 1 {
      assert x !in init;
      ExceptMembers(init, x);
      assert Except(s, x) == init;
    } else {
      OnePlace(init, x, p);
      assert Except(s, x) == Except(init, x) + [s[|s| - 1]];
    }
  }

  lemma DisplacedMember(s: seq<Server>, p: nat, l: seq<Server>, rep: nat, y: Server)
    requires WithoutAt(s, p, l) && p < rep <= |l|
    ensures y in s[..rep] <==> y == s[p] || y in l[..rep - 1]
  {
    if y in s[..rep] && y != s[p] {
      var i :| 0 <= i < rep && s[i] == y;
      var j := if i < p then i else i - 1;
      assert l[j] == y;
      assert l[..rep - 1][j] == y;
    }
    if y in l[..rep - 1] {
      var i :| 0 <= i < rep - 1 && l[i] == y;
      var j := if i < p then i else i + 1;
      assert s[j] == y;
      assert s[..rep][j] == y;
    }
    assert s[..rep][p] == s[p];
  }

  /** Who is displaced among the first `rep` servers when `x` is in the order. */
  lemma {:induction false} Displaced(s: seq<Server>, x: Server, rep: nat)
    requires NoRepeats(s) && x in s && rep <= |Except(s, x)|
    ensures rep < |s|
    ensures x !in s[..rep] ==> s[..rep] == Except(s, x)[..rep]
    ensures x in s[..rep] ==> rep > 0 && forall y :: y in s[..rep] <==> y == x || y in Except(s, x)[..rep - 1]
    ensures x in s[..rep] ==> Except(s, x)[rep - 1] !in s[..rep]
  {
    var p :| 0 <= p < |s| && s[p] == x;
    var l := Except(s, x);
    OnePlace(s, x, p);
    if p < rep {
      forall y ensures y in s[..rep] <==> y == x || y in l[..rep - 1] {
        DisplacedMember(s, p, l, rep, y);
      }
      assert l[rep - 1] == s[rep];
    } else {
      assert x !in s[..rep];
      assert s[..rep] == l[..rep];
    }
  }

  // ----------------------------------------------------------- joining and leaving

  /** The ring after the first `n` virtual nodes of `x` have been inserted. */
  function PutAll(r: Ring, x: Server, n: nat, hasher: (Server, nat) -> nat): Ring {
    if n == 0 then r else Put(PutAll(r, x, n - 1, hasher), Slot(hasher(x, n - 1), x))
  }

  function CutAll(r: Ring, x: Server, n: nat, hasher: (Server, nat) -> nat): Ring {
    if n == 0 then r else Cut(CutAll(r, x, n - 1, hasher), hasher(x, n - 1))
  }

  lemma {:induction false} PutWithout(r: Ring, slot: Slot)
    ensures Without(Put(r, slot), slot.server) == Without(r, slot.server)
  {
    var i, x := LowerBound(r, slot.hash), slot.server;
    if !HasHash(r, slot.hash) {
      WithoutConcat(r[..i] + [slot], r[i..], x);
      WithoutConcat(r[..i], [slot], x);
      WithoutConcat(r[..i], r[i..], x);
      assert r == r[..i] + r[i..];
      assert Without([slot], x) == [];
    }
  }

  lemma {:induction false} PutAllSorted(r: Ring, x: Server, n: nat, hasher: (Server, nat) -> nat)
    requires Sorted(r)
    ensures Sorted(PutAll(r, x, n, hasher))
  {
    if n > 0 {
      PutAllSorted(r, x, n - 1, hasher);
      PutKeepsSorted(PutAll(r, x, n - 1, hasher), Slot(hasher(x, n - 1), x));
    }
  }

  /** One more virtual node. */
  lemma {:induction false} OneMorePut(r: Ring, x: Server, n: nat, hasher: (Server, nat) -> nat)
    requires n > 0
    ensures Without(PutAll(r, x, n, hasher), x) == Without(PutAll(r, x, n - 1, hasher), x)
  {
    PutWithout(PutAll(r, x, n - 1, hasher), Slot(hasher(x, n - 1), x));
  }

  /** Inserting a server leaves the rest of the ring alone, even when some of its hashes are taken. */
  lemma {:induction false} PutAllExact(r: Ring, x: Server, n: nat, hasher: (Server, nat) -> nat)
    ensures Without(PutAll(r, x, n, hasher), x) == Without(r, x)
  {
    if n > 0 {
      PutAllExact(r, x, n - 1, hasher);
      OneMorePut(r, x, n, hasher);
    }
  }

  /** Which entries a join adds: those of the new server, at hashes of its virtual nodes. */
  lemma {:induction false} PutAllMembers(r: Ring, x: Server, n: nat, hasher: (Server, nat) -> nat, s: Slot)
    ensures s in r ==> s in PutAll(r, x, n, hasher)
    ensures s in PutAll(r, x, n, hasher) && s !in r ==> IsNodeOf(s, x, n, hasher)
  {
    if n > 0 {
      PutAllMembers(r, x, n - 1, hasher, s);
      var p, slot := PutAll(r, x, n - 1, hasher), Slot(hasher(x, n - 1), x);
      var q := Put(p, slot);
      assert q == PutAll(r, x, n, hasher);
      PutMember(p, slot, s);
      if s in q && s !in r {
        if s in p {
          var v :| 0 <= v < n - 1 && s.hash == hasher(x, v);
          assert IsNodeOf(s, x, n, hasher);
        } else {
          assert s.hash == hasher(x, n - 1);
        }
      }
    }
  }

  ghost predicate IsNodeOf(s: Slot, x: Server, n: nat, hasher: (Server, nat) -> nat) {
    s.server == x && exists v :: 0 <= v < n && s.hash == hasher(x, v)
  }

  /** The clockwise order after a join is the old order with the new server put in. */
  lemma {:induction false} JoinInsertsOnly(r: Ring, x: Server, n: nat, hasher: (Server, nat) -> nat, h: nat)
    requires Sorted(r) && x !in Servers(r)
    ensures Except(Order(PutAll(r, x, n, hasher), h), x) == Order(r, h)
  {
    PutAllSorted(r, x, n, hasher);
    PutAllExact(r, x, n, hasher);
    MinimalDisruption(PutAll(r, x, n, hasher), x, h);
    forall i | 0 <= i < |r| ensures r[i].server != x {
      assert Servers(r)[i] in Servers(r);
    }
    WithoutStranger(r, x);
  }

  /** The entry is at none of the hashes of the server's virtual nodes. */
  ghost predicate OffNodes(s: Slot, x: Server, n: nat, hasher: (Server, nat) -> nat) {
    forall v | 0 <= v < n :: s.hash != hasher(x, v)
  }

  lemma OffOneMoreNode(s: Slot, x: Server, n: nat, hasher: (Server, nat) -> nat)
    ensures OffNodes(s, x, n + 1, hasher) <==> OffNodes(s, x, n, hasher) && s.hash != hasher(x, n)
  {
  }

  lemma {:induction false} CutAllSorted(r: Ring, x: Server, n: nat, hasher: (Server, nat) -> nat)
    requires Sorted(r)
    ensures Sorted(CutAll(r, x, n, hasher))
  {
    if n > 0 {
      CutAllSorted(r, x, n - 1, hasher);
      CutKeepsSorted(CutAll(r, x, n - 1, hasher), hasher(x, n - 1));
    }
  }

  /** What remains after a server's virtual nodes have been erased: the entries at none of its hashes. */
  lemma {:induction false} CutAllMember(r: Ring, x: Server, n: nat, hasher: (Server, nat) -> nat, s: Slot)
    requires Sorted(r)
    ensures s in CutAll(r, x, n, hasher) <==> s in r && OffNodes(s, x, n, hasher)
  {
    if n > 0 {
      CutAllMember(r, x, n - 1, hasher, s);
      CutAllSorted(r, x, n - 1, hasher);
      CutMember(CutAll(r, x, n - 1, hasher), hasher(x, n - 1), s);
      OffOneMoreNode(s, x, n - 1, hasher);
    }
  }

  lemma {:induction false} CutAllExact(r: Ring, x: Server, n: nat, hasher: (Server, nat) -> nat)
    requires Sorted(r)
    ensures Sorted(CutAll(r, x, n, hasher))
    ensures forall s :: s in CutAll(r, x, n, hasher) <==> s in r && OffNodes(s, x, n, hasher)
  {
    CutAllSorted(r, x, n, hasher);
    forall s ensures s in CutAll(r, x, n, hasher) <==> s in r && OffNodes(s, x, n, hasher) {
      CutAllMember(r, x, n, hasher, s);
    }
  }

  /** Every entry sits at a hash of one of its server's virtual nodes. */
  ghost predicate Placed(r: Ring, n: nat, hasher: (Server, nat) -> nat) {
    forall s | s in r :: IsNodeOf(s, s.server, n, hasher)
  }

  /** A sorted ring is determined by its entries. */
  lemma {:induction false} SortedUnique(a: Ring, b: Ring)
    requires Sorted(a) && Sorted(b) && forall s :: s in a <==> s in b
    ensures a == b
  {
    EmptyOrInhabited(a);
    EmptyOrInhabited(b);
    if a != [] && b != [] {
      FirstIsLeast(a);
      FirstIsLeast(b);
      assert a[0] in b && b[0] in a;
      assert a[0] == b[0];
      assert a == [a[0]] + a[1..] && b == [b[0]] + b[1..];
      SortedUnique(a[1..], b[1..]);
    }
  }

  lemma EmptyOrInhabited(r: Ring)
    ensures r == [] || exists s :: s in r
  {
    if r != [] { assert r[0] in r; }
  }

  lemma FirstIsLeast(r: Ring)
    requires Sorted(r) && r != []
    ensures forall s | s in r :: s == r[0] || r[0].hash < s.hash
    ensures r[0] !in r[1..] && Sorted(r[1..])
  {
  }

  lemma {:induction false} WithoutSorted(r: Ring, x: Server)
    requires Sorted(r)
    ensures Sorted(Without(r, x))
  {
    if r != [] {
      var init, last := r[..|r| - 1], r[|r| - 1];
      WithoutSorted(init, x);
      WithoutMembers(init, x);
      forall s | s in init ensures s.hash < last.hash {}
      SortedSnoc(Without(init, x), last);
      assert Without(init, x) + [] == Without(init, x);
    }
  }

  lemma SortedSnoc(r: Ring, last: Slot)
    requires Sorted(r) && forall s | s in r :: s.hash < last.hash
    ensures Sorted(r + [last])
  {
  }

  /** No entry of another server sits at a hash of a virtual node of `x`. */
  ghost predicate Unshared(r: Ring, x: Server, n: nat, hasher: (Server, nat) -> nat) {
    forall s, v | s in r && 0 <= v < n && s.hash == hasher(x, v) :: s.server == x
  }

  /**
    Removing a server takes out its own entries and nothing else exactly when
    no entry of another server sits at one of its hashes.
   */
  lemma {:induction false} LeaveRemovesOnly(r: Ring, x: Server, n: nat, hasher: (Server, nat) -> nat)
    requires Sorted(r) && Placed(r, n, hasher)
    ensures CutAll(r, x, n, hasher) == Without(r, x) <==> Unshared(r, x, n, hasher)
  {
    CutAllExact(r, x, n, hasher);
    WithoutMembers(r, x);
    WithoutSorted(r, x);
    if Unshared(r, x, n, hasher) {
      forall s ensures s in CutAll(r, x, n, hasher) <==> s in Without(r, x) {}
      SortedUnique(CutAll(r, x, n, hasher), Without(r, x));
    }
  }

  /** The clockwise order after a leave is the old order with that server taken out. */
  lemma {:induction false} LeaveDeletesOnly(r: Ring, x: Server, n: nat, hasher: (Server, nat) -> nat, h: nat)
    requires Sorted(r) && Placed(r, n, hasher) && Unshared(r, x, n, hasher)
    ensures Order(CutAll(r, x, n, hasher), h) == Except(Order(r, h), x)
  {
    LeaveRemovesOnly(r, x, n, hasher);
    MinimalDisruption(r, x, h);
  }

  /** A virtual node whose hash nobody else has is in the ring after the join. */
  lemma {:induction false} JoinedNode(r: Ring, x: Server, n: nat, hasher: (Server, nat) -> nat, v: nat)
    requires v < n && forall s | s in r :: s.hash != hasher(x, v)
    ensures Slot(hasher(x, v), x) in PutAll(r, x, n, hasher)
  {
    var p, slot := PutAll(r, x, n - 1, hasher), Slot(hasher(x, n - 1), x);
    if v < n - 1 {
      JoinedNode(r, x, n - 1, hasher, v);
    } else if HasHash(p, slot.hash) {
      var t := Holder(p, slot.hash);
      PutAllMembers(r, x, n - 1, hasher, t);
      assert t == slot;
    }
    assert PutAll(r, x, n, hasher) == Put(p, slot);
    PutMember(p, slot, Slot(hasher(x, v), x));
  }

  lemma Holder(r: Ring, h: nat) returns (t: Slot)
    requires HasHash(r, h)
    ensures t in r && t.hash == h
  {
    t := r[LowerBound(r, h)];
  }

  /**
    Two servers share a hash: the second to join leaves the entry to the first, and takes it
    away when it leaves.
   */
  lemma {:induction false} SharedHashIsLost(r: Ring, y: Server, x: Server, n: nat, hasher: (Server, nat) -> nat, u: nat, v: nat)
    requires Sorted(r) && x != y && u < n && v < n && hasher(y, u) == hasher(x, v)
    requires forall s | s in r :: s.hash != hasher(y, u)
    ensures var joined := PutAll(PutAll(r, y, n, hasher), x, n, hasher);
            var entry := Slot(hasher(y, u), y);
            && entry in joined && entry !in CutAll(joined, x, n, hasher)
            && !Unshared(joined, x, n, hasher)
  {
    var first := PutAll(r, y, n, hasher);
    var joined, entry := PutAll(first, x, n, hasher), Slot(hasher(y, u), y);
    JoinedNode(r, y, n, hasher, u);
    PutAllMembers(first, x, n, hasher, entry);
    PutAllSorted(r, y, n, hasher);
    PutAllSorted(first, x, n, hasher);
    CutAllMember(joined, x, n, hasher, entry);
    assert entry.hash == hasher(x, v);
  }

  // ----------------------------------------------------------------- the hash ring

  /** A ring with the servers it knows and how often each has joined. */
  class HashRing {
    const hasher: (Server, nat) -> nat
    var nodes: Ring
    var uniqueServers: set<Server>
    var joinCount: map<string, int>

    ghost predicate Valid()
      reads this
    {
      && Sorted(nodes) && Placed(nodes, VIRTUAL_THREADS, hasher)
      && (forall s | s in nodes :: s.server in uniqueServers)
    }

    constructor (hasher: (Server, nat) -> nat)
      ensures Valid() && nodes == [] && uniqueServers == {} && this.hasher == hasher
    {
      this.hasher := hasher;
      nodes, uniqueServers, joinCount := [], {}, map[];
    }

    function CountOf(ip: string): int
      reads this
    {
      if ip in joinCount then joinCount[ip] else 0
    }

    /** A server joins; returns whether that is news. */
    method Insert(x: Server, count: int) returns (changed: bool)
      requires Valid()
      modifies this
      ensures Valid() && uniqueServers == old(uniqueServers) + {x}
      ensures changed <==> x !in old(uniqueServers) || old(CountOf(x.ip)) < count
      ensures joinCount == if changed then old(joinCount)[x.ip := count] else old(joinCount)
      ensures nodes == if x in old(uniqueServers) then old(nodes) else PutAll(old(nodes), x, VIRTUAL_THREADS, hasher)
      ensures x !in old(uniqueServers) ==> forall h :: Except(Order(nodes, h), x) == Order(old(nodes), h)
    {
      if x in uniqueServers {
        changed := CountOf(x.ip) < count;
        if changed {
          joinCount := joinCount[x.ip := count];
        }
        return;
      }
      uniqueServers := uniqueServers + {x};
      joinCount := joinCount[x.ip := count];
      for v := 0 to VIRTUAL_THREADS
        invariant nodes == PutAll(old(nodes), x, v, hasher)
        invariant uniqueServers == old(uniqueServers) + {x} && joinCount == old(joinCount)[x.ip := count]
      {
        nodes := Put(nodes, Slot(hasher(x, v), x));
      }
      changed := true;
      JoinKeepsValid(old(nodes), x, VIRTUAL_THREADS, hasher);
      forall h ensures Except(Order(nodes, h), x) == Order(old(nodes), h) {
        JoinInsertsOnly(old(nodes), x, VIRTUAL_THREADS, hasher, h);
      }
    }

    /** A server leaves. */
    method Remove(x: Server)
      requires Valid()
      modifies this
      ensures uniqueServers == old(uniqueServers) - {x} && joinCount == old(joinCount) - {x.ip}
      ensures nodes == CutAll(old(nodes), x, VIRTUAL_THREADS, hasher)
      ensures Valid()
      ensures nodes == Without(old(nodes), x) <==> Unshared(old(nodes), x, VIRTUAL_THREADS, hasher)
      ensures Unshared(old(nodes), x, VIRTUAL_THREADS, hasher) ==>
                forall h :: Order(nodes, h) == Except(Order(old(nodes), h), x)
    {
      for v := 0 to VIRTUAL_THREADS
        invariant nodes == CutAll(old(nodes), x, v, hasher)
        invariant uniqueServers == old(uniqueServers) && joinCount == old(joinCount)
      {
        nodes := Cut(nodes, hasher(x, v));
      }
      uniqueServers := uniqueServers - {x};
      joinCount := joinCount - {x.ip};
      CutAllExact(old(nodes), x, VIRTUAL_THREADS, hasher);
      LeaveRemovesOnly(old(nodes), x, VIRTUAL_THREADS, hasher);
      forall h | Unshared(old(nodes), x, VIRTUAL_THREADS, hasher) ensures Order(nodes, h) == Except(Order(old(nodes), h), x) {
        LeaveDeletesOnly(old(nodes), x, VIRTUAL_THREADS, hasher, h);
      }
    }
  }

  lemma {:induction false} JoinKeepsValid(r: Ring, x: Server, n: nat, hasher: (Server, nat) -> nat)
    requires Sorted(r) && Placed(r, n, hasher)
    ensures Sorted(PutAll(r, x, n, hasher)) && Placed(PutAll(r, x, n, hasher), n, hasher)
    ensures forall s | s in PutAll(r, x, n, hasher) :: s in r || s.server == x
  {
    PutAllSorted(r, x, n, hasher);
    forall s | s in PutAll(r, x, n, hasher)
      ensures s in r || s.server == x
      ensures IsNodeOf(s, s.server, n, hasher)
    {
      PutAllMembers(r, x, n, hasher, s);
    }
  }
}
