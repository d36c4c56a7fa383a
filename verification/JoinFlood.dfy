/**
  How storage servers learn about each other.  A starting server takes a
  membership list, records itself and announces itself to the list; whoever
  learns of a server answers with its own address and forwards the news.
 */
module JoinFlood {

  type Node = string

  /** To `to`: server `about` has joined for the `count`-th time. */
  datatype Announcement = Announcement(to: Node, about: Node, count: nat)

  /**
    The running servers with their own join counts, what each has recorded, the membership list
    each started with, and the messages in flight.
   */
  datatype Net = Net(up: map<Node, nat>, known: map<Node, map<Node, nat>>, lists: map<Node, set<Node>>,
                     flight: multiset<Announcement>)

  const QUIET := Net(map[], map[], map[], multiset{})

  /** The messages `to` each server in `targets`; one each. */
  function Broadcast(targets: set<Node>, about: Node, count: nat): (ms: multiset<Announcement>)
    ensures forall m :: m in ms <==> m.to in targets && m.about == about && m.count == count
  {
    multiset(set t | t in targets :: Announcement(t, about, count))
  }

  /** Server `p` starts with the membership list `seed`; listed servers are recorded with count 0. */
  function Start(net: Net, p: Node, count: nat, seed: set<Node>): Net {
    var mine: map<Node, nat> := (map q | q in seed :: 0)[p := count];
    Net(net.up[p := count], net.known[p := mine], net.lists[p := seed], net.flight + Broadcast(seed, p, count))
  }

  predicate IsNews(net: Net, m: Announcement)
    requires m.to in net.known
  {
    m.about !in net.known[m.to] || net.known[m.to][m.about] < m.count
  }

  /** Server `m.to` handles `m`: old news is dropped, news is recorded, answered and forwarded. */
  function Deliver(net: Net, m: Announcement): Net
    requires m.to in net.known && m.to in net.up
  {
    var p := m.to;
    var rest := net.flight - multiset{m};
    if !IsNews(net, m) then net.(flight := rest)
    else
      var mine: map<Node, nat> := net.known[p][m.about := m.count];
      var answer := Announcement(m.about, p, net.up[p]);
      net.(known := net.known[p := mine],
           flight := rest + multiset{answer} + Broadcast(mine.Keys - {p, m.about}, m.about, m.count))
  }

  predicate Knows(net: Net, p: Node, q: Node) {
    p in net.known && q in net.known[p]
  }

  /** A message in flight will tell `p` about `q`. */
  ghost predicate WillHear(net: Net, p: Node, q: Node) {
    exists m :: m in net.flight && m.to == p && m.about == q
  }

  ghost predicate Consistent(net: Net) {
    && net.known.Keys == net.up.Keys
    && (forall p, q | Knows(net, p, q) :: q in net.up && net.known[p][q] <= net.up[q])
    && (forall m | m in net.flight :: m.to in net.up && m.about in net.up && m.to != m.about && m.count == net.up[m.about])
  }

  /** Whoever knows a server is known to it, or will be. */
  ghost predicate Reciprocal(net: Net) {
    forall p, q | Knows(net, p, q) && p != q :: Knows(net, q, p) || WillHear(net, q, p)
  }

  /** One of two servers knows the other, or will. */
  ghost predicate Acquainted(net: Net, p: Node, r: Node) {
    Knows(net, p, r) || Knows(net, r, p) || WillHear(net, p, r) || WillHear(net, r, p)
  }

  /** Whom a server learned of, it has introduced to everybody it knows; only names on its own list come without. */
  ghost predicate Introduced(net: Net) {
    net.lists.Keys == net.up.Keys && forall q, p, r | Meets(net, q, p, r) :: Acquainted(net, p, r)
  }

  ghost predicate Meets(net: Net, q: Node, p: Node, r: Node) {
    && q in net.lists && Knows(net, q, p) && Knows(net, q, r)
    && p != q && r != q && p != r && !(p in net.lists[q] && r in net.lists[q])
  }

  /** Lists are recorded: a server knows whom it started with. */
  ghost predicate KnowsList(net: Net) {
    forall p, q | p in net.lists && q in net.lists[p] :: Knows(net, p, q)
  }

  /** A record that is behind belongs to a server that has yet to learn of the other one, or a message will correct it. */
  ghost predicate Counted(net: Net) {
    forall p, q | Knows(net, p, q) && !UpToDate(net, p, q) :: p != q && (!Knows(net, q, p) || WillHear(net, p, q))
  }

  ghost predicate UpToDate(net: Net, p: Node, q: Node) {
    Knows(net, p, q) && q in net.up && net.known[p][q] == net.up[q]
  }

  ghost predicate Inv(net: Net) {
    Consistent(net) && Reciprocal(net) && Introduced(net) && KnowsList(net) && Counted(net)
  }

  lemma StartKeepsInv(net: Net, p: Node, count: nat, seed: set<Node>)
    requires Inv(net) && p !in net.up && seed <= net.up.Keys
    ensures Inv(Start(net, p, count, seed))
  {
    var net' := Start(net, p, count, seed);
    assert net'.flight == net.flight + Broadcast(seed, p, count);
    forall a, b | Knows(net', a, b) && a != b ensures Knows(net', b, a) || WillHear(net', b, a) {
      if a == p {
        assert Announcement(b, p, count) in Broadcast(seed, p, count);
        assert Announcement(b, p, count) in net'.flight;
      } else {
        assert Knows(net, a, b);
        StartKeepsMessages(net, p, count, seed, b, a);
        if Knows(net, b, a) { assert Knows(net', b, a); }
      }
    }
    StartKeepsConsistent(net, p, count, seed);
    StartKeepsIntroduced(net, p, count, seed);
    StartKeepsLists(net, p, count, seed);
    StartKeepsCounted(net, p, count, seed);
  }

  lemma StartKeepsCounted(net: Net, p: Node, count: nat, seed: set<Node>)
    requires Consistent(net) && Counted(net) && p !in net.up && seed <= net.up.Keys
    ensures Counted(Start(net, p, count, seed))
  {
    var net' := Start(net, p, count, seed);
    forall a, b | Knows(net', a, b) && !UpToDate(net', a, b) ensures a != b && (!Knows(net', b, a) || WillHear(net', a, b)) {
      if a == p {
        assert b != p;
        assert Knows(net', b, p) ==> Knows(net, b, p);
      } else {
        assert Knows(net, a, b) && !UpToDate(net, a, b);
        StartKeepsMessages(net, p, count, seed, a, b);
        assert b != p;
      }
    }
  }

  /** Starting sends one announcement to every server on the list, and nothing else. */
  lemma StartSends(net: Net, p: Node, count: nat, seed: set<Node>, m: Announcement)
    ensures Start(net, p, count, seed).flight[m] ==
            net.flight[m] + if m.to in seed && m.about == p && m.count == count then 1 else 0
  {
    OneEach(seed, p, count, m);
  }

  lemma OneEach(targets: set<Node>, about: Node, count: nat, m: Announcement)
    ensures Broadcast(targets, about, count)[m] == if m.to in targets && m.about == about && m.count == count then 1 else 0
  {
    assert m in Broadcast(targets, about, count) <==> m.to in targets && m.about == about && m.count == count;
  }

  /**
    A handled message is gone.  News is answered once, with the server's own join count, and
    forwarded once to every other server it knows; nothing else is sent.
   */
  lemma DeliverSends(net: Net, m: Announcement, w: Announcement)
    requires Consistent(net) && m in net.flight
    ensures var handled, answered, forwarded :=
              w == m,
              IsNews(net, m) && w == Announcement(m.about, m.to, net.up[m.to]),
              IsNews(net, m) && w.about == m.about && w.count == m.count && w.to != m.to && w.to != m.about &&
              Knows(net, m.to, w.to);
            Deliver(net, m).flight[w] ==
              net.flight[w] - (if handled then 1 else 0) + (if answered then 1 else 0) + if forwarded then 1 else 0
  {
    if IsNews(net, m) {
      OneEach(net.known[m.to][m.about := m.count].Keys - {m.to, m.about}, m.about, m.count, w);
    }
  }

  lemma StartKeepsLists(net: Net, p: Node, count: nat, seed: set<Node>)
    requires KnowsList(net)
    ensures KnowsList(Start(net, p, count, seed))
  {
    var net' := Start(net, p, count, seed);
    forall a, b | a in net'.lists && b in net'.lists[a] ensures Knows(net', a, b) {
      assert a != p ==> Knows(net, a, b);
    }
  }

  lemma StartKeepsIntroduced(net: Net, p: Node, count: nat, seed: set<Node>)
    requires Consistent(net) && Introduced(net) && p !in net.up && seed <= net.up.Keys
    ensures Introduced(Start(net, p, count, seed))
  {
    var net' := Start(net, p, count, seed);
    forall q, a, b | Meets(net', q, a, b) ensures Acquainted(net', a, b) {
      assert q != p;
      assert Meets(net, q, a, b);
      StartKeepsMessages(net, p, count, seed, a, b);
      StartKeepsMessages(net, p, count, seed, b, a);
      assert a != p && b != p;
    }
  }

  lemma StartKeepsMessages(net: Net, p: Node, count: nat, seed: set<Node>, a: Node, b: Node)
    ensures WillHear(net, a, b) ==> WillHear(Start(net, p, count, seed), a, b)
  {
  }

  lemma StartKeepsConsistent(net: Net, p: Node, count: nat, seed: set<Node>)
    requires Consistent(net) && p !in net.up && seed <= net.up.Keys
    ensures Consistent(Start(net, p, count, seed))
  {
    var net' := Start(net, p, count, seed);
    forall a, b | Knows(net', a, b) ensures b in net'.up && net'.known[a][b] <= net'.up[b] {
      if a != p { assert Knows(net, a, b); }
    }
    forall m | m in net'.flight
      ensures m.to in net'.up && m.about in net'.up && m.to != m.about && m.count == net'.up[m.about]
    {
      if m !in net.flight { assert m in Broadcast(seed, p, count); }
    }
  }

  lemma DeliverKeepsConsistent(net: Net, m: Announcement)
    requires Consistent(net) && m in net.flight
    ensures Consistent(Deliver(net, m))
  {
    var net' := Deliver(net, m);
    forall a, b | Knows(net', a, b) ensures b in net'.up && net'.known[a][b] <= net'.up[b] {
      if !(a == m.to && b == m.about) { assert Knows(net, a, b); }
    }
    forall w | w in net'.flight
      ensures w.to in net'.up && w.about in net'.up && w.to != w.about && w.count == net'.up[w.about]
    {
      DeliveredMessages(net, m, w);
    }
  }

  /** What is in flight after a delivery. */
  lemma DeliveredMessages(net: Net, m: Announcement, w: Announcement)
    requires Consistent(net) && m in net.flight && w in Deliver(net, m).flight
    ensures w in net.flight || w == Announcement(m.about, m.to, net.up[m.to]) ||
            (w.to in net.up && w.to != m.about && w.about == m.about && w.count == m.count)
  {
    if IsNews(net, m) {
      var mine: map<Node, nat> := net.known[m.to][m.about := m.count];
      var forward := Broadcast(mine.Keys - {m.to, m.about}, m.about, m.count);
      var answer := Announcement(m.about, m.to, net.up[m.to]);
      assert Deliver(net, m).flight == net.flight - multiset{m} + multiset{answer} + forward;
      if w in forward && w.to != m.to { assert Knows(net, m.to, w.to); }
    }
  }

  /** A delivery only removes the delivered message. */
  lemma DeliverKeepsMessages(net: Net, m: Announcement, a: Node, b: Node)
    requires Consistent(net) && m in net.flight && WillHear(net, a, b) && !(a == m.to && b == m.about)
    ensures WillHear(Deliver(net, m), a, b)
  {
  }

  /** Who learns of a server has answered it. */
  lemma NewsIsAnswered(net: Net, m: Announcement)
    requires Consistent(net) && m in net.flight && !Knows(net, m.to, m.about)
    ensures WillHear(Deliver(net, m), m.about, m.to)
  {
  }

  /** What is known stays known, and the delivered message is known. */
  lemma DeliverKnows(net: Net, m: Announcement, a: Node, b: Node)
    requires Consistent(net) && m in net.flight
    ensures Knows(Deliver(net, m), a, b) <==> Knows(net, a, b) || (a == m.to && b == m.about)
  {
  }

  lemma DeliverKeepsReciprocal(net: Net, m: Announcement)
    requires Inv(net) && m in net.flight
    ensures Reciprocal(Deliver(net, m))
  {
    var net' := Deliver(net, m);
    forall a, b | Knows(net', a, b) && a != b ensures Knows(net', b, a) || WillHear(net', b, a) {
      DeliverKnows(net, m, a, b);
      DeliverKnows(net, m, b, a);
      if !Knows(net, a, b) {
        NewsIsAnswered(net, m);
      } else if !Knows(net', b, a) {
        DeliverKeepsMessages(net, m, b, a);
      }
    }
  }

  /** A delivery keeps two servers acquainted. */
  lemma DeliverKeepsAcquainted(net: Net, m: Announcement, a: Node, b: Node)
    requires Consistent(net) && m in net.flight && Acquainted(net, a, b)
    ensures Acquainted(Deliver(net, m), a, b)
  {
    DeliverKnows(net, m, a, b);
    DeliverKnows(net, m, b, a);
    if WillHear(net, a, b) && !(a == m.to && b == m.about) {
      DeliverKeepsMessages(net, m, a, b);
    }
    if WillHear(net, b, a) && !(b == m.to && a == m.about) {
      DeliverKeepsMessages(net, m, b, a);
    }
  }

  /** News is forwarded to everybody the server knew before. */
  lemma NewsIsForwarded(net: Net, m: Announcement, p: Node)
    requires Consistent(net) && m in net.flight && !Knows(net, m.to, m.about)
    requires Knows(net, m.to, p) && p != m.to && p != m.about
    ensures WillHear(Deliver(net, m), p, m.about)
  {
    var mine: map<Node, nat> := net.known[m.to][m.about := m.count];
    var forward := Broadcast(mine.Keys - {m.to, m.about}, m.about, m.count);
    assert Announcement(p, m.about, m.count) in forward;
    assert Announcement(p, m.about, m.count) in Deliver(net, m).flight;
  }

  lemma DeliverKeepsIntroduced(net: Net, m: Announcement)
    requires Consistent(net) && Introduced(net) && m in net.flight
    ensures Introduced(Deliver(net, m))
  {
    var net' := Deliver(net, m);
    forall q, a, b | Meets(net', q, a, b) ensures Acquainted(net', a, b) {
      DeliverKnows(net, m, q, a);
      DeliverKnows(net, m, q, b);
      if Meets(net, q, a, b) {
        DeliverKeepsAcquainted(net, m, a, b);
      } else if !Knows(net, q, a) {
        NewsIsForwarded(net, m, b);
      } else {
        NewsIsForwarded(net, m, a);
      }
    }
  }

  lemma DeliverKeepsCounted(net: Net, m: Announcement)
    requires Consistent(net) && Counted(net) && m in net.flight
    ensures Counted(Deliver(net, m))
  {
    var net' := Deliver(net, m);
    forall a, b | Knows(net', a, b) && !UpToDate(net', a, b) ensures a != b && (!Knows(net', b, a) || WillHear(net', a, b)) {
      DeliverKnows(net, m, a, b);
      DeliverKnows(net, m, b, a);
      assert a != m.to || b != m.about;
      assert Knows(net, a, b) && !UpToDate(net, a, b);
      if WillHear(net, a, b) {
        DeliverKeepsMessages(net, m, a, b);
      } else if Knows(net', b, a) {
        NewsIsAnswered(net, m);
      }
    }
  }

  lemma DeliverKeepsInv(net: Net, m: Announcement)
    requires Inv(net) && m in net.flight
    ensures Inv(Deliver(net, m))
  {
    DeliverKeepsConsistent(net, m);
    DeliverKeepsReciprocal(net, m);
    DeliverKeepsIntroduced(net, m);
    DeliverKeepsCounted(net, m);
    var net' := Deliver(net, m);
    forall p, q | p in net'.lists && q in net'.lists[p] ensures Knows(net', p, q) {
      assert Knows(net, p, q);
    }
  }

  // -------------------------------------------------------------------- quiescence

  /** Pairs of servers where the first has not yet recorded the second's join count. */
  ghost function Stale(net: Net): set<(Node, Node)> {
    set p, q | p in net.up && q in net.up && !(p in net.known && q in net.known[p] && net.known[p][q] >= net.up[q]) :: (p, q)
  }

  /** Handling a message leaves fewer stale records, or sends nothing and leaves fewer messages. */
  lemma DeliverMakesProgress(net: Net, m: Announcement)
    requires Consistent(net) && m in net.flight
    ensures Stale(Deliver(net, m)) < Stale(net) ||
            (Stale(Deliver(net, m)) == Stale(net) && Deliver(net, m).flight == net.flight - multiset{m})
  {
    var net' := Deliver(net, m);
    if IsNews(net, m) {
      assert (m.to, m.about) in Stale(net) && (m.to, m.about) !in Stale(net');
      forall x | x in Stale(net') ensures x in Stale(net) {}
    } else {
      forall x ensures x in Stale(net') <==> x in Stale(net) {}
    }
  }

  /** A server that is to start, and the membership list it will be given. */
  datatype Joiner = Joiner(name: Node, count: nat, seed: set<Node>)

  /** The servers that run after the first `n` joiners have had their turn: one starts if its whole list runs. */
  function Running(up: set<Node>, joiners: seq<Joiner>, n: nat): set<Node>
    requires n <= |joiners|
  {
    if n == 0 then up
    else
      var before, j := Running(up, joiners, n - 1), joiners[n - 1];
      if j.seed <= before then before + {j.name} else before
  }

  /** Joiner `i` starts: whoever is on its list runs when its turn comes. */
  predicate Starts(up: set<Node>, joiners: seq<Joiner>, i: nat) {
    i < |joiners| && joiners[i].seed <= Running(up, joiners, i)
  }

  lemma {:induction false} RunningMembers(up: set<Node>, joiners: seq<Joiner>, n: nat, p: Node)
    requires n <= |joiners|
    ensures p in Running(up, joiners, n) <==>
            p in up || exists i: nat :: i < n && joiners[i].name == p && Starts(up, joiners, i)
  {
    if n > 0 {
      RunningMembers(up, joiners, n - 1, p);
      if p in Running(up, joiners, n) && p !in Running(up, joiners, n - 1) {
        assert joiners[n - 1].name == p && Starts(up, joiners, n - 1);
      }
    }
  }

  /** Every server but the hub started with the hub on its list, and the hub started alone. */
  ghost predicate HasHub(net: Net, hub: Node) {
    hub in net.lists && net.lists[hub] == {} && forall p | p in net.lists && p != hub :: hub in net.lists[p]
  }

  /** When nothing is in flight, knowledge is mutual, and everybody has the current join count of whom they know. */
  lemma QuietIsMutual(net: Net)
    requires Inv(net) && net.flight == multiset{}
    ensures forall p, q | p != q :: Knows(net, p, q) <==> Knows(net, q, p)
    ensures forall p, q | Knows(net, p, q) :: UpToDate(net, p, q)
  {
  }

  /** When nothing is in flight, two servers that a third one introduced know each other. */
  lemma QuietIsTransitive(net: Net, q: Node, p: Node, r: Node)
    requires Inv(net) && net.flight == multiset{} && Meets(net, q, p, r)
    ensures Knows(net, p, r) && Knows(net, r, p)
  {
    assert Acquainted(net, p, r);
  }

  /** When nothing is in flight and all lists name one first server, everybody knows everybody. */
  lemma HubMakesComplete(net: Net, hub: Node, p: Node, r: Node)
    requires Inv(net) && net.flight == multiset{} && HasHub(net, hub)
    requires p in net.up && r in net.up && p != r
    ensures Knows(net, p, r)
  {
    if p == hub {
      assert Knows(net, r, hub);
    } else if r == hub {
      assert Knows(net, p, hub);
    } else {
      assert Knows(net, p, hub) && Knows(net, r, hub);
      assert Knows(net, hub, p) && Knows(net, hub, r);
      QuietIsTransitive(net, hub, p, r);
    }
  }

  /**
    Any run with finitely many joins, in which joins and deliveries interleave
    in any order, ends; and then knowledge is mutual, and complete if all lists
    name one first server.
   */
  method Run(net0: Net, joiners: seq<Joiner>) returns (net: Net)
    requires Inv(net0)
    ensures Inv(net) && net.flight == multiset{}
    ensures forall p, q | p != q :: Knows(net, p, q) <==> Knows(net, q, p)
    ensures forall p, q | Knows(net, p, q) :: UpToDate(net, p, q)
    ensures net.up.Keys == Running(net0.up.Keys, joiners, |joiners|)
    ensures forall hub, p, r | HasHub(net, hub) && p in net.up && r in net.up && p != r :: Knows(net, p, r)
  {
    net := net0;
    var next := 0;
    while net.flight != multiset{} || next < |joiners|
      invariant next <= |joiners| && Inv(net) && net.up.Keys == Running(net0.up.Keys, joiners, next)
      decreases |joiners| - next, Stale(net), |net.flight|
    {
      var startNext: bool := *;
      if next < |joiners| && (startNext || net.flight == multiset{}) {
        var j := joiners[next];
        if j.name !in net.up && j.seed <= net.up.Keys {
          StartKeepsInv(net, j.name, j.count, j.seed);
          net := Start(net, j.name, j.count, j.seed);
        }
        next := next + 1;
      } else {
        var m :| m in net.flight;
        DeliverKeepsInv(net, m);
        DeliverMakesProgress(net, m);
        net := Deliver(net, m);
      }
    }
    QuietIsMutual(net);
    forall hub, p, r | HasHub(net, hub) && p in net.up && r in net.up && p != r ensures Knows(net, p, r) {
      HubMakesComplete(net, hub, p, r);
    }
  }

  /** A cluster that boots from nothing settles in the same way. */
  method Boot(joiners: seq<Joiner>) returns (net: Net)
    ensures net.flight == multiset{} && net.up.Keys == Running({}, joiners, |joiners|)
    ensures forall p, q | p != q :: Knows(net, p, q) <==> Knows(net, q, p)
    ensures forall p, q | Knows(net, p, q) :: UpToDate(net, p, q)
    ensures forall hub, p, r | HasHub(net, hub) && p in net.up && r in net.up && p != r :: Knows(net, p, r)
  {
    assert Inv(QUIET) && QUIET.up.Keys == {};
    net := Run(QUIET, joiners);
  }
}
