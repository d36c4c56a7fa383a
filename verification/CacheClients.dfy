/**
  The clients of a causal cache: who waits for a chain, who waits for other
  caches, and what is answered when.
 */
module CacheClients {
  import opened Clocks
  import opened CausalLattices
  import opened CacheModel
  import opened CacheInvariants
  import opened CausalFrontiers
  import opened CacheReads

  /**
    The client side of the cache: open requests, the addresses that wait for other caches, what
    other caches have been asked, and the answers sent; `here` are the keys of the cut.  Requests at
    the addresses in `busy` are being admitted; `repeated` are the addresses that have sent a request
    while an earlier one was open, and `blank` the keys that were written or reported without a version.
   */
  datatype Desk = Desk(pending: map<Address, Pending>, clients: map<string, set<Address>>, sent: set<Ask>,
                       replies: seq<Reply>, here: set<Key>, busy: set<Address>, repeated: set<Address>, blank: set<Key>)

  // --------------------------------------------------------- telling clients

  function ListedFor(clients: map<string, set<Address>>, id: string): set<Address> {
    if id in clients then clients[id] else {}
  }

  function Enlist(clients: map<string, set<Address>>, id: string, a: Address): map<string, set<Address>> {
    clients[id := ListedFor(clients, id) + {a}]
  }

  /** The address of a pending request is listed under the request's client. */
  ghost predicate Enlisted(d: Desk, a: Address)
    requires a in d.pending
  {
    a in ListedFor(d.clients, d.pending[a].clientId)
  }

  function Covered(m: Pending, key: Key, gone: set<Key>): Pending {
    m.(toCover := m.toCover - {key}, missing := m.missing + gone)
  }

  /** A client that is not answered yet: `key` is covered, and when nothing is left to cover other caches are asked. */
  ghost predicate Advanced(m: Pending, m': Pending, key: Key, gone: set<Key>, cut: Store) {
    var c := Covered(m, key, gone);
    if c.toCover != {} then m' == c else RemoteKeys(cut, c) != {} && m' == Fired(cut, c)
  }

  /**
    What completing chain `key` does to the clients in `told`: each is answered, or has moved on.
    The keys in `gone` have turned out not to exist.
   */
  ghost predicate Notified(d: Desk, d': Desk, told: set<Address>, key: Key, gone: set<Key>, cut: Store) {
    && PendingMoved(d, d', told, key, gone, cut) && ClientsMoved(d, d', told) && RepliesAdded(d, d', told, key, gone, cut)
    && AsksMoved(d, d', told, key, gone, cut)
    && d'.busy == d.busy && d'.repeated == d.repeated && d'.blank == d.blank
  }

  /** Whoever must now read from other caches has them asked. */
  ghost predicate AsksMoved(d: Desk, d': Desk, told: set<Address>, key: Key, gone: set<Key>, cut: Store) {
    && d.sent <= d'.sent && d.here <= d'.here
    && (forall a | a in told && a in d.pending && a in d'.pending && d'.pending[a].toCover == {} ::
          AskedAll(cut, Covered(d.pending[a], key, gone), d'.sent))
  }

  ghost predicate PendingMoved(d: Desk, d': Desk, told: set<Address>, key: Key, gone: set<Key>, cut: Store) {
    && (forall a | a in d'.pending ::
          && a in d.pending
          && if a in told then Advanced(d.pending[a], d'.pending[a], key, gone, cut) else d'.pending[a] == d.pending[a])
    && (forall a | a in d.pending && a !in d'.pending :: a in told && d.pending[a].toCover <= {key})
  }

  /** Whoever must now read from other caches is listed, and nobody else is. */
  ghost predicate ClientsMoved(d: Desk, d': Desk, told: set<Address>) {
    && (forall id, a :: a in ListedFor(d.clients, id) ==> a in ListedFor(d'.clients, id))
    && (forall id, a | a in ListedFor(d'.clients, id) && a !in ListedFor(d.clients, id) ::
          a in told && WaitsElsewhere(d', a, id))
    && (forall a | a in told && a in d'.pending && d'.pending[a].toCover == {} :: Enlisted(d', a))
  }

  /** The request at `a`, of client `id`, waits for other caches only. */
  ghost predicate WaitsElsewhere(d: Desk, a: Address, id: string) {
    a in d.pending && d.pending[a].toCover == {} && d.pending[a].clientId == id
  }

  /** Exactly the clients of `told` that are no longer pending get a reply. */
  ghost predicate RepliesAdded(d: Desk, d': Desk, told: set<Address>, key: Key, gone: set<Key>, cut: Store) {
    && d.replies <= d'.replies
    && (forall i | |d.replies| <= i < |d'.replies| :: GoodReply(d'.replies[i], d.pending, told, key, gone, cut))
    && (forall a | a in d.pending && a !in d'.pending ::
          Replied(d.replies, d'.replies, a, Covered(d.pending[a], key, gone), cut))
  }

  ghost predicate GoodReply(r: Reply, p: map<Address, Pending>, told: set<Address>, key: Key, gone: set<Key>, cut: Store) {
    && r.to in told && r.to in p && p[r.to].toCover <= {key}
    && Answers(r, r.to, Covered(p[r.to], key, gone), cut)
  }

  ghost predicate Replied(rs: seq<Reply>, rs': seq<Reply>, a: Address, m: Pending, cut: Store) {
    exists i :: |rs| <= i < |rs'| && Answers(rs'[i], a, m, cut)
  }

  lemma NotifiedOneMore(d: Desk, e: Desk, d': Desk, told: set<Address>, a: Address, key: Key, gone: set<Key>, cut: Store)
    requires a !in told && Notified(d, e, told, key, gone, cut) && Notified(e, d', {a}, key, gone, cut)
    ensures Notified(d, d', told + {a}, key, gone, cut)
  {
    MovedOneMore(d, e, d', told, a, key, gone, cut);
    ListedOneMore(d, e, d', told, a, key, gone, cut);
    AskedOneMore(d, e, d', told, a, key, gone, cut);
    RepliedOneMore(d, e, d', told, a, key, gone, cut);
  }

  /** More keys in the cut beforehand make no difference. */
  lemma NotifiedSince(d: Desk, e: Desk, d': Desk, told: set<Address>, key: Key, gone: set<Key>, cut: Store)
    requires e == d.(here := e.here) && d.here <= e.here && Notified(e, d', told, key, gone, cut)
    ensures Notified(d, d', told, key, gone, cut)
  {
  }

  lemma AskedOneMore(d: Desk, e: Desk, d': Desk, told: set<Address>, a: Address, key: Key, gone: set<Key>, cut: Store)
    requires a !in told && PendingMoved(d, e, told, key, gone, cut) && PendingMoved(e, d', {a}, key, gone, cut)
    requires AsksMoved(d, e, told, key, gone, cut) && AsksMoved(e, d', {a}, key, gone, cut)
    ensures AsksMoved(d, d', told + {a}, key, gone, cut)
  {
    forall b | b in told + {a} && b in d.pending && b in d'.pending && d'.pending[b].toCover == {}
      ensures AskedAll(cut, Covered(d.pending[b], key, gone), d'.sent)
    {
      if b == a {
        assert e.pending[b] == d.pending[b];
      } else {
        assert d'.pending[b] == e.pending[b];
        AskedAllGrows(cut, Covered(d.pending[b], key, gone), e.sent, d'.sent);
      }
    }
  }

  lemma AskedAllGrows(cut: Store, m: Pending, sent: set<Ask>, sent': set<Ask>)
    requires AskedAll(cut, m, sent) && sent <= sent'
    ensures AskedAll(cut, m, sent')
  {
    forall k | k in RemoteKeys(cut, m) && (k in cut || SeenNewer(m.prior, k, map[]))
      ensures exists q :: q in sent' && q.id == m.clientId && q.key == k
    {
      var q :| q in sent && q.id == m.clientId && q.key == k;
    }
  }

  lemma MovedOneMore(d: Desk, e: Desk, d': Desk, told: set<Address>, a: Address, key: Key, gone: set<Key>, cut: Store)
    requires a !in told && PendingMoved(d, e, told, key, gone, cut) && PendingMoved(e, d', {a}, key, gone, cut)
    ensures PendingMoved(d, d', told + {a}, key, gone, cut)
  {
    forall b | b in d'.pending
      ensures b in d.pending
      ensures if b in told + {a} then Advanced(d.pending[b], d'.pending[b], key, gone, cut) else d'.pending[b] == d.pending[b]
    {
      assert b in e.pending;
    }
  }

  lemma ListedOneMore(d: Desk, e: Desk, d': Desk, told: set<Address>, a: Address, key: Key, gone: set<Key>, cut: Store)
    requires a !in told && PendingMoved(d, e, told, key, gone, cut) && PendingMoved(e, d', {a}, key, gone, cut)
    requires ClientsMoved(d, e, told) && ClientsMoved(e, d', {a})
    ensures ClientsMoved(d, d', told + {a})
  {
    forall id, b | b in ListedFor(d'.clients, id) && b !in ListedFor(d.clients, id)
      ensures b in told + {a} && WaitsElsewhere(d', b, id)
    {
      if b in ListedFor(e.clients, id) {
        assert b in told && WaitsElsewhere(e, b, id);
        assert b in d'.pending;
      }
    }
    forall b | b in told + {a} && b in d'.pending && d'.pending[b].toCover == {} ensures Enlisted(d', b) {
      if b != a { assert d'.pending[b] == e.pending[b] && Enlisted(e, b); }
    }
  }

  lemma RepliedOneMore(d: Desk, e: Desk, d': Desk, told: set<Address>, a: Address, key: Key, gone: set<Key>, cut: Store)
    requires a !in told && PendingMoved(d, e, told, key, gone, cut) && PendingMoved(e, d', {a}, key, gone, cut)
    requires RepliesAdded(d, e, told, key, gone, cut) && RepliesAdded(e, d', {a}, key, gone, cut)
    ensures RepliesAdded(d, d', told + {a}, key, gone, cut)
  {
    forall i | |d.replies| <= i < |d'.replies| ensures GoodReply(d'.replies[i], d.pending, told + {a}, key, gone, cut) {
      if i < |e.replies| {
        assert GoodReply(e.replies[i], d.pending, told, key, gone, cut);
      } else {
        assert GoodReply(d'.replies[i], e.pending, {a}, key, gone, cut);
        assert e.pending[a] == d.pending[a];
      }
    }
    forall b | b in d.pending && b !in d'.pending
      ensures Replied(d.replies, d'.replies, b, Covered(d.pending[b], key, gone), cut)
    {
      if b in e.pending {
        assert b == a && e.pending[b] == d.pending[b];
        assert Replied(e.replies, d'.replies, b, Covered(e.pending[b], key, gone), cut);
      } else {
        assert Replied(d.replies, e.replies, b, Covered(d.pending[b], key, gone), cut);
      }
      StillReplied(d.replies, e.replies, d'.replies, b, Covered(d.pending[b], key, gone), cut);
    }
  }

  lemma StillReplied(rs: seq<Reply>, es: seq<Reply>, rs': seq<Reply>, a: Address, m: Pending, cut: Store)
    requires rs <= es <= rs' && (Replied(rs, es, a, m, cut) || Replied(es, rs', a, m, cut))
    ensures Replied(rs, rs', a, m, cut)
  {
    if Replied(rs, es, a, m, cut) {
      var i :| |rs| <= i < |es| && Answers(es[i], a, m, cut);
      assert rs'[i] == es[i];
    }
  }

  /** Telling nobody changes nothing. */
  lemma NobodyTold(d: Desk, d': Desk, key: Key, gone: set<Key>, cut: Store)
    requires Notified(d, d', {}, key, gone, cut)
    ensures d'.pending == d.pending && d'.replies == d.replies
  {
    var i := |d.replies|;
    assert i < |d'.replies| ==> GoodReply(d'.replies[i], d.pending, {}, key, gone, cut);
  }

  /** The client of request `m` has pinned what it may read later. */
  ghost predicate PinsFor(versions: map<string, Store>, m: Pending, cut: Store) {
    PinsAll(versions, m.clientId, cut, LocalKeys(cut, m), m.futureReadSet)
  }

  /** Whoever in `told` waits for no chain any more has pinned what it may read later, and nothing is unpinned. */
  ghost predicate NotifiedPins(p: map<Address, Pending>, v: map<string, Store>, v': map<string, Store>, told: set<Address>,
                               key: Key, gone: set<Key>, cut: Store) {
    && PinsGrow(v, v', cut)
    && forall a | a in told && a in p && p[a].toCover <= {key} :: PinsFor(v', Covered(p[a], key, gone), cut)
  }

  lemma NotifiedPinsOneMore(p: map<Address, Pending>, p1: map<Address, Pending>, v: map<string, Store>, v1: map<string, Store>,
                            v': map<string, Store>, told: set<Address>, a: Address, key: Key, gone: set<Key>, cut: Store)
    requires NotifiedPins(p, v, v1, told, key, gone, cut) && NotifiedPins(p1, v1, v', {a}, key, gone, cut)
    requires a in p ==> a in p1 && p1[a] == p[a]
    ensures NotifiedPins(p, v, v', told + {a}, key, gone, cut)
  {
    PinsGrowTransitive(v, v1, v', cut);
    forall b | b in told + {a} && b in p && p[b].toCover <= {key} ensures PinsFor(v', Covered(p[b], key, gone), cut) {
      var c := Covered(p[b], key, gone);
      if b in told {
        assert PinsFor(v1, c, cut);
        PinsAllStays(v1, v', c.clientId, cut, LocalKeys(cut, c), c.futureReadSet);
      }
    }
  }

  /** A reply to the whole request has been sent after the replies in `rs`. */
  ghost predicate RepliedSince(rs: seq<Reply>, rs': seq<Reply>, a: Address, readSet: set<Key>) {
    exists i :: |rs| <= i < |rs'| && rs'[i].to == a && rs'[i].readSet == readSet &&
                readSet <= rs'[i].found.Keys + rs'[i].missing
  }

  /** Nobody new waits, nobody waits for more chains than before, and whoever no longer waits has been answered. */
  ghost predicate Fewer(p: map<Address, Pending>, rs: seq<Reply>, p': map<Address, Pending>, rs': seq<Reply>) {
    && rs <= rs'
    && (forall a | a in p' :: a in p && p'[a].readSet == p[a].readSet && p'[a].toCover <= p[a].toCover)
    && (forall a | a in p && a !in p' :: RepliedSince(rs, rs', a, p[a].readSet))
  }

  lemma FewerTransitive(p: map<Address, Pending>, rs: seq<Reply>, p1: map<Address, Pending>, rs1: seq<Reply>,
                        p2: map<Address, Pending>, rs2: seq<Reply>)
    requires Fewer(p, rs, p1, rs1) && Fewer(p1, rs1, p2, rs2)
    ensures Fewer(p, rs, p2, rs2)
  {
    forall a | a in p && a !in p2 ensures RepliedSince(rs, rs2, a, p[a].readSet) {
      if a in p1 {
        assert RepliedSince(rs1, rs2, a, p[a].readSet);
      } else {
        assert RepliedSince(rs, rs1, a, p[a].readSet);
      }
      StillAnswered(rs, rs1, rs2, a, p[a].readSet);
    }
  }

  lemma StillAnswered(rs: seq<Reply>, rs1: seq<Reply>, rs2: seq<Reply>, a: Address, readSet: set<Key>)
    requires rs <= rs1 <= rs2 && (RepliedSince(rs, rs1, a, readSet) || RepliedSince(rs1, rs2, a, readSet))
    ensures RepliedSince(rs, rs2, a, readSet)
  {
    if RepliedSince(rs, rs1, a, readSet) {
      var i :| |rs| <= i < |rs1| && rs1[i].to == a && rs1[i].readSet == readSet && readSet <= rs1[i].found.Keys + rs1[i].missing;
      assert rs2[i] == rs1[i];
    }
  }

  lemma NotifiedLeavesFewer(d: Desk, d': Desk, told: set<Address>, key: Key, gone: set<Key>, cut: Store)
    requires Notified(d, d', told, key, gone, cut)
    ensures Fewer(d.pending, d.replies, d'.pending, d'.replies)
  {
    forall a | a in d.pending && a !in d'.pending ensures RepliedSince(d.replies, d'.replies, a, d.pending[a].readSet) {
      var c := Covered(d.pending[a], key, gone);
      assert Replied(d.replies, d'.replies, a, c, cut);
      var i :| |d.replies| <= i < |d'.replies| && Answers(d'.replies[i], a, c, cut);
    }
  }

  /** The request that was open has been answered, or waits for other caches only. */
  ghost predicate MovedOn(d: Desk, d': Desk, a: Address)
    requires a in d.pending
  {
    if a in d'.pending then d'.pending[a].toCover == {} && d'.pending[a].remoteReadSet != {} && Enlisted(d', a)
    else RepliedSince(d.replies, d'.replies, a, d.pending[a].readSet)
  }

  /** Whoever waited for the chain of `key` only has moved on. */
  ghost predicate AllMovedOn(d: Desk, d': Desk, key: Key) {
    forall a | a in d.pending && d.pending[a].toCover <= {key} :: MovedOn(d, d', a)
  }

  lemma FewerMovedOn(d: Desk, d': Desk, chains: map<Key, Chain>, key: Key)
    requires Fewer(d.pending, d.replies, d'.pending, d'.replies) && ClientsOk(d', chains) && key !in chains
    ensures AllMovedOn(d, d', key)
  {
    forall a | a in d.pending && d.pending[a].toCover <= {key} ensures MovedOn(d, d', a) {
      if a in d'.pending {
        assert d'.pending[a].toCover <= {key};
        assert ClientOk(d', a);
        assert key !in d'.pending[a].toCover;
      }
    }
  }

  // ------------------------------------------------------------ waiting clients

  /** Whoever waits for a key is listed by the chain of that key. */
  ghost predicate Served(p: map<Address, Pending>, chains: map<Key, Chain>) {
    forall a, k | a in p && k in p[a].toCover :: k in chains && a in chains[k].waiting
  }

  /** An unanswered client waits for a chain, or for other caches whose responses will find it. */
  ghost predicate NotForgotten(d: Desk, a: Address)
    requires a in d.pending
  {
    d.pending[a].toCover == {} ==> d.pending[a].remoteReadSet != {} && Enlisted(d, a)
  }

  /** Every key of a request is awaited, missing, in the cut, or remembered with a version; or it is blank. */
  ghost predicate Placed(d: Desk, m: Pending) {
    forall k | k in m.readSet ::
      k in m.toCover || k in m.missing || k in d.here || k in d.blank || SeenNewer(m.prior, k, map[])
  }

  /** Some cache has been asked for the key, on behalf of the request's client if the address waits for its answers. */
  ghost predicate AskedFor(d: Desk, a: Address, m: Pending, k: Key) {
    exists q :: q in d.sent && q.key == k && (a in d.repeated || q.id == m.clientId)
  }

  /** Other caches have been asked for every key that the request waits for elsewhere, unless it is blank. */
  ghost predicate Asked(d: Desk, a: Address, m: Pending) {
    forall k | k in m.remoteReadSet :: k in d.blank || AskedFor(d, a, m, k)
  }

  ghost predicate ClientOk(d: Desk, a: Address)
    requires a in d.pending
  {
    NotForgotten(d, a) && ReadOk(d.pending[a]) && Placed(d, d.pending[a]) && Asked(d, a, d.pending[a])
  }

  /** More keys in the cut, more requests sent, more addresses and keys marked. */
  ghost predicate DeskGrows(d: Desk, d': Desk) {
    d.sent <= d'.sent && d.here <= d'.here && d.repeated <= d'.repeated && d.blank <= d'.blank
  }

  lemma AskedGrows(d: Desk, d': Desk, a: Address, m: Pending)
    requires Asked(d, a, m) && DeskGrows(d, d')
    ensures Asked(d', a, m)
  {
    forall k | k in m.remoteReadSet ensures k in d'.blank || AskedFor(d', a, m, k) {
      if k !in d.blank {
        assert AskedFor(d, a, m, k);
        var q :| q in d.sent && q.key == k && (a in d.repeated || q.id == m.clientId);
        assert q in d'.sent;
      }
    }
  }

  ghost predicate PendingOk(d: Desk) {
    forall a | a in d.pending :: ClientOk(d, a)
  }

  /** A request that stays as it is stays in order, as long as nobody is delisted. */
  lemma SameClient(d: Desk, d': Desk, a: Address)
    requires a in d.pending && a in d'.pending && d'.pending[a] == d.pending[a] && ClientOk(d, a)
    requires ListedFor(d.clients, d.pending[a].clientId) <= ListedFor(d'.clients, d.pending[a].clientId)
    requires DeskGrows(d, d')
    ensures ClientOk(d', a)
  {
    AskedGrows(d, d', a, d.pending[a]);
  }

  /**
    An address with one request at a time: chains list it only while its request awaits them, and
    a client lists it only while its request waits for other caches alone.
   */
  ghost predicate TidyAt(d: Desk, chains: map<Key, Chain>, a: Address) {
    && (a in d.busy ==> a !in d.pending)
    && (forall k | k in chains && a in chains[k].waiting :: a in d.busy || (a in d.pending && k in d.pending[a].toCover))
    && (forall id | a in ListedFor(d.clients, id) :: WaitsElsewhere(d, a, id))
  }

  ghost predicate Tidy(d: Desk, chains: map<Key, Chain>) {
    forall a | a !in d.repeated :: TidyAt(d, chains, a)
  }

  /** No answer to an address with one request at a time was sent early. */
  ghost predicate Punctual(d: Desk) {
    forall i | 0 <= i < |d.replies| && d.replies[i].to !in d.repeated :: d.replies[i].uncovered == {}
  }

  ghost predicate ClientsOk(d: Desk, chains: map<Key, Chain>) {
    Served(d.pending, chains) && PendingOk(d) && RepliesOk(d.replies) && Tidy(d, chains) && Punctual(d)
  }

  /** Every answer is sound, unless it was sent early to an address that did not wait for its answers. */
  ghost predicate AnswersSound(d: Desk) {
    forall i | 0 <= i < |d.replies| && (d.replies[i].to !in d.repeated || d.replies[i].uncovered == {}) :: Sound(d.replies[i])
  }

  /**
    Every open request waits for a chain that lists it, or for other caches whose responses will
    find it; and some cache has been asked for every key awaited elsewhere, except for blank keys.
   */
  ghost predicate NobodyForgotten(d: Desk, chains: map<Key, Chain>) {
    && (forall a | a in d.pending ::
          || (exists k :: k in d.pending[a].toCover && k in chains && a in chains[k].waiting)
          || (d.pending[a].remoteReadSet != {} && Enlisted(d, a)))
    && (forall a, k | a in d.pending && k in d.pending[a].remoteReadSet && k !in d.blank :: AskedFor(d, a, d.pending[a], k))
  }

  lemma ClientsAreServed(d: Desk, chains: map<Key, Chain>)
    requires ClientsOk(d, chains)
    ensures AnswersSound(d) && NobodyForgotten(d, chains)
  {
    forall i | 0 <= i < |d.replies| && (d.replies[i].to !in d.repeated || d.replies[i].uncovered == {})
      ensures Sound(d.replies[i])
    {
      assert ReplyOk(d.replies[i]);
    }
    forall a | a in d.pending
      ensures (exists k :: k in d.pending[a].toCover && k in chains && a in chains[k].waiting)
           || (d.pending[a].remoteReadSet != {} && Enlisted(d, a))
      ensures Asked(d, a, d.pending[a])
    {
      assert ClientOk(d, a);
      if k :| k in d.pending[a].toCover {
        assert k in chains && a in chains[k].waiting;
      }
    }
  }

  /** Every chain is still in preparation, with at least its clients. */
  ghost predicate ChainsKept(chains: map<Key, Chain>, chains': map<Key, Chain>) {
    forall k | k in chains :: k in chains' && chains[k].waiting <= chains'[k].waiting
  }

  /** Chains list nobody new. */
  ghost predicate NobodyNew(chains: map<Key, Chain>, chains': map<Key, Chain>) {
    forall k, a | k in chains' && a in chains'[k].waiting :: k in chains && a in chains[k].waiting
  }

  lemma SameWaiting(d: Desk, chains: map<Key, Chain>, chains': map<Key, Chain>)
    requires ClientsOk(d, chains) && ChainsKept(chains, chains') && NobodyNew(chains, chains')
    ensures ClientsOk(d, chains')
  {
    forall a | a !in d.repeated ensures TidyAt(d, chains', a) {
      assert TidyAt(d, chains, a);
    }
  }

  /** Completing chain `key` keeps every remaining client served. */
  lemma NotifiedClientsOk(d: Desk, d': Desk, chains: map<Key, Chain>, key: Key, gone: set<Key>, cut: Store)
    requires ClientsOk(d, chains) && Closed(cut) && d'.here == cut.Keys && (key in chains ==> key in cut || key in gone)
    requires Notified(d, d', if key in chains then chains[key].waiting else {}, key, gone, cut)
    ensures ClientsOk(d', chains - {key})
  {
    var told := if key in chains then chains[key].waiting else {};
    NotifiedServed(d, d', chains, key, gone, cut);
    forall a | a in d'.pending ensures ClientOk(d', a) {
      NotifiedPendingOk(d, d', told, key, gone, cut, a);
    }
    forall a | a !in d'.repeated ensures TidyAt(d', chains - {key}, a) {
      NotifiedTidy(d, d', chains, key, gone, cut, a);
    }
    NotifiedReplies(d, d', told, key, gone, cut);
  }

  /** Completing chain `key` answers whoever stops waiting, and keeps the others served. */
  lemma ChainFinished(d: Desk, d': Desk, chains: map<Key, Chain>, key: Key, gone: set<Key>, cut: Store)
    requires Notified(d, d', if key in chains then chains[key].waiting else {}, key, gone, cut)
    requires Closed(cut) && d'.here == cut.Keys && (key in chains ==> key in cut || key in gone)
    ensures Fewer(d.pending, d.replies, d'.pending, d'.replies) && d.sent <= d'.sent
    ensures ClientsOk(d, chains) ==> ClientsOk(d', chains - {key})
  {
    NotifiedLeavesFewer(d, d', if key in chains then chains[key].waiting else {}, key, gone, cut);
    if ClientsOk(d, chains) {
      NotifiedClientsOk(d, d', chains, key, gone, cut);
    }
  }

  lemma NotifiedServed(d: Desk, d': Desk, chains: map<Key, Chain>, key: Key, gone: set<Key>, cut: Store)
    requires Served(d.pending, chains)
    requires PendingMoved(d, d', if key in chains then chains[key].waiting else {}, key, gone, cut)
    ensures Served(d'.pending, chains - {key})
  {
    forall a, k | a in d'.pending && k in d'.pending[a].toCover
      ensures k in chains - {key} && a in (chains - {key})[k].waiting
    {
      assert k in d.pending[a].toCover;
    }
  }

  lemma NotifiedPendingOk(d: Desk, d': Desk, told: set<Address>, key: Key, gone: set<Key>, cut: Store, a: Address)
    requires PendingOk(d) && Closed(cut) && Notified(d, d', told, key, gone, cut) && d'.here == cut.Keys
    requires a in d'.pending && (a in told ==> key in cut || key in gone)
    ensures ClientOk(d', a)
  {
    assert ClientOk(d, a);
    if a in told {
      CoveredOk(d, d', a, key, gone);
      var c := Covered(d.pending[a], key, gone);
      if c.toCover == {} {
        assert c == c.(toCover := {});
        FiredIsOk(d', a, c, cut);
      }
    } else {
      SameClient(d, d', a);
    }
  }

  /** A key whose chain is complete is in the cut or missing. */
  lemma CoveredOk(d: Desk, d': Desk, a: Address, key: Key, gone: set<Key>)
    requires a in d.pending && ClientOk(d, a) && DeskGrows(d, d') && (key in d'.here || key in gone)
    ensures var c := Covered(d.pending[a], key, gone);
            Guarded(c) && Placed(d', c) && Asked(d', a, c)
  {
    AskedGrows(d, d', a, d.pending[a]);
    var c := Covered(d.pending[a], key, gone);
    forall k | k in c.remoteReadSet ensures k in d'.blank || AskedFor(d', a, c, k) {
      assert k in d'.blank || AskedFor(d', a, d.pending[a], k);
    }
  }

  lemma NotifiedTidy(d: Desk, d': Desk, chains: map<Key, Chain>, key: Key, gone: set<Key>, cut: Store, a: Address)
    requires TidyAt(d, chains, a)
    requires Notified(d, d', if key in chains then chains[key].waiting else {}, key, gone, cut)
    ensures TidyAt(d', chains - {key}, a)
  {
    var told := if key in chains then chains[key].waiting else {};
    forall k | k in chains - {key} && a in (chains - {key})[k].waiting && a !in d'.busy
      ensures a in d'.pending && k in d'.pending[a].toCover
    {
      assert k in d.pending[a].toCover && k != key;
    }
    forall id | a in ListedFor(d'.clients, id) ensures WaitsElsewhere(d', a, id) {
      if a in ListedFor(d.clients, id) {
        assert WaitsElsewhere(d, a, id);
        assert a !in told;
      }
    }
  }

  /** Replies read from a closed cut are sound. */
  lemma NotifiedReplies(d: Desk, d': Desk, told: set<Address>, key: Key, gone: set<Key>, cut: Store)
    requires PendingOk(d) && RepliesAdded(d, d', told, key, gone, cut) && Closed(cut) && RepliesOk(d.replies)
    requires Punctual(d) && d'.repeated == d.repeated
    ensures RepliesOk(d'.replies) && Punctual(d')
  {
    forall i | 0 <= i < |d'.replies|
      ensures ReplyOk(d'.replies[i]) && (d'.replies[i].to !in d'.repeated ==> d'.replies[i].uncovered == {})
    {
      if i < |d.replies| {
        assert d'.replies[i] == d.replies[i];
      } else {
        var r := d'.replies[i];
        assert GoodReply(r, d.pending, told, key, gone, cut);
        assert ClientOk(d, r.to);
        AnswersAreSound(r, r.to, Covered(d.pending[r.to], key, gone), cut);
      }
    }
  }

  /** A dependency check changes versions in chains, not the clients that wait for them. */
  lemma ChecksKeepClients(unmerged: Store, head: Key, w: Work, w': Work, d: Desk)
    requires Grows(unmerged, head, w, w')
    ensures ClientsOk(d, w.chains) ==> ClientsOk(d, w'.chains)
  {
    forall k | k in w.chains ensures k in w'.chains && w.chains[k].waiting == w'.chains[k].waiting {
      if k != head { assert SameFor(k, w, w'); }
    }
    forall k, a | k in w'.chains && a in w'.chains[k].waiting ensures k in w.chains && a in w.chains[k].waiting {
      if k != head { assert SameFor(k, w, w'); }
    }
    if ClientsOk(d, w.chains) {
      SameWaiting(d, w.chains, w'.chains);
    }
  }

  /** What becomes of a request without anything left to cover: other caches are asked, or it is answered. */
  ghost predicate Finished(d: Desk, d': Desk, a: Address, m: Pending, cut: Store) {
    if a in d'.pending then
      && RemoteKeys(cut, m) != {} && d.sent <= d'.sent && AskedAll(cut, m, d'.sent)
      && d' == d.(pending := d.pending[a := Fired(cut, m)], clients := Enlist(d.clients, m.clientId, a), sent := d'.sent)
    else
      && d' == d.(pending := d.pending - {a}, replies := d'.replies)
      && |d'.replies| == |d.replies| + 1 && d.replies <= d'.replies && Answers(d'.replies[|d.replies|], a, m, cut)
  }

  /** A request is finished when it has been told of its last chain. */
  lemma FinishedIsNotified(d: Desk, d': Desk, a: Address, key: Key, gone: set<Key>, cut: Store)
    requires a in d.pending && Covered(d.pending[a], key, gone).toCover == {}
    requires Finished(d, d', a, Covered(d.pending[a], key, gone), cut)
    ensures Notified(d, d', {a}, key, gone, cut)
  {
    var c := Covered(d.pending[a], key, gone);
    assert d.pending[a].toCover <= {key} by {
      forall k | k in d.pending[a].toCover ensures k == key { assert k !in c.toCover; }
    }
    if a in d'.pending {
      EnlistGrows(d.clients, c.clientId, a);
    } else {
      FinishedIsReplied(d, d', a, key, gone, cut);
    }
  }

  lemma FinishedIsReplied(d: Desk, d': Desk, a: Address, key: Key, gone: set<Key>, cut: Store)
    requires a in d.pending && d.pending[a].toCover <= {key} && d'.pending == d.pending - {a}
    requires |d'.replies| == |d.replies| + 1 && d.replies <= d'.replies
    requires Answers(d'.replies[|d.replies|], a, Covered(d.pending[a], key, gone), cut)
    ensures RepliesAdded(d, d', {a}, key, gone, cut)
  {
    var i := |d.replies|;
    assert Answers(d'.replies[i], a, Covered(d.pending[a], key, gone), cut);
  }

  lemma EnlistGrows(clients: map<string, set<Address>>, id: string, a: Address)
    ensures forall i, b :: b in ListedFor(Enlist(clients, id, a), i) <==> b in ListedFor(clients, i) || (i == id && b == a)
  {
  }

  /** The chains of all these keys list the address. */
  ghost predicate ListsAll(chains: map<Key, Chain>, keys: set<Key>, a: Address) {
    forall k | k in keys :: k in chains && a in chains[k].waiting
  }

  /** No other chain lists the address. */
  ghost predicate ListsOnly(chains: map<Key, Chain>, keys: set<Key>, a: Address) {
    forall k | k in chains && a in chains[k].waiting :: k in keys
  }

  /** Only the chains of these keys list the address newly. */
  ghost predicate ListsNewly(chains: map<Key, Chain>, chains': map<Key, Chain>, keys: set<Key>, a: Address) {
    forall k | k in chains' && a in chains'[k].waiting :: k in keys || (k in chains && a in chains[k].waiting)
  }

  /** Starting the chain of a key leaves the clients of the other chains alone. */
  lemma StartedLists(w: Work, w': Work, key: Key, a: Address)
    requires OthersSame(key, w, w') && key !in w.chains
    ensures ChainsKept(w.chains, w'.chains)
    ensures ListsNewly(w.chains, w'.chains, if key in w'.chains then {key} else {}, a)
  {
    forall k | k in w.chains ensures k in w'.chains && w.chains[k] == w'.chains[k] {
      assert SameFor(k, w, w');
    }
    forall k | k in w'.chains && k != key ensures k in w.chains && w.chains[k] == w'.chains[k] {
      assert SameFor(k, w, w');
    }
  }

  lemma ListsTransitive(x: map<Key, Chain>, y: map<Key, Chain>, z: map<Key, Chain>, ks: set<Key>, js: set<Key>, a: Address)
    requires ChainsKept(x, y) && ChainsKept(y, z) && ListsNewly(x, y, ks, a) && ListsNewly(y, z, js, a)
    ensures ChainsKept(x, z) && ListsNewly(x, z, ks + js, a)
  {
  }

  lemma ListsAfter(chains: map<Key, Chain>, chains': map<Key, Chain>, before: set<Key>, keys: set<Key>, a: Address)
    requires ChainsKept(chains, chains') && ListsNewly(chains, chains', keys, a) && ListsAll(chains, before, a)
    ensures ListsAll(chains', before, a) && (ListsOnly(chains, {}, a) ==> ListsOnly(chains', keys, a))
  {
  }

  /** The request at `a` has been admitted; all others are as before. */
  ghost predicate Admitted(d: Desk, d': Desk, a: Address) {
    && (forall b | b in d'.pending && b != a :: b in d.pending && d'.pending[b] == d.pending[b])
    && (forall b | b in d.pending && b != a :: b in d'.pending)
    && (forall id, b :: b in ListedFor(d.clients, id) ==> b in ListedFor(d'.clients, id))
    && (forall id, b | b in ListedFor(d'.clients, id) && b !in ListedFor(d.clients, id) ::
          b == a && (a in d.repeated || WaitsElsewhere(d', a, id)))
    && d'.busy == d.busy - {a} && d'.repeated == d.repeated && DeskGrows(d, d')
  }

  /** Admitting a request keeps the others in order. */
  lemma AdmittedClientsOk(d: Desk, d': Desk, chains: map<Key, Chain>, a: Address)
    requires Served(d.pending, chains) && PendingOk(d) && Tidy(d, chains) && Admitted(d, d', a)
    requires a in d'.pending ==> ClientOk(d', a) && ListsAll(chains, d'.pending[a].toCover, a)
    requires a !in d.repeated ==> a in d.busy && ListsOnly(chains, if a in d'.pending then d'.pending[a].toCover else {}, a)
    ensures Served(d'.pending, chains) && PendingOk(d') && Tidy(d', chains)
  {
    forall b | b in d'.pending ensures ClientOk(d', b) {
      if b != a { SameClient(d, d', b); }
    }
    forall b, k | b in d'.pending && k in d'.pending[b].toCover ensures k in chains && b in chains[k].waiting {
      if b != a { assert k in d.pending[b].toCover; }
    }
    forall b | b !in d'.repeated ensures TidyAt(d', chains, b) {
      assert TidyAt(d, chains, b);
      if b == a { AdmittedTidy(d, d', chains, a); }
    }
  }

  lemma AdmittedTidy(d: Desk, d': Desk, chains: map<Key, Chain>, a: Address)
    requires TidyAt(d, chains, a) && Admitted(d, d', a) && a in d.busy && a !in d.repeated
    requires ListsOnly(chains, if a in d'.pending then d'.pending[a].toCover else {}, a)
    ensures TidyAt(d', chains, a)
  {
    assert forall id :: a in ListedFor(d.clients, id) ==> WaitsElsewhere(d, a, id);
  }

  lemma FiredIsOk(d: Desk, a: Address, m: Pending, cut: Store)
    requires Closed(cut) && Guarded(m) && a in d.pending && d.pending[a] == Fired(cut, m) && RemoteKeys(cut, m) != {}
    requires a in ListedFor(d.clients, m.clientId) && d.here == cut.Keys
    requires Placed(d, m.(toCover := {})) && Asked(d, a, m) && AskedAll(cut, m, d.sent)
    ensures ClientOk(d, a)
  {
    FiredGathers(cut, m);
    FiredIsAsked(d, a, m, cut);
  }

  /** Other caches are asked for all the keys to be read there, except for blank ones. */
  lemma FiredIsAsked(d: Desk, a: Address, m: Pending, cut: Store)
    requires d.here == cut.Keys && Placed(d, m.(toCover := {})) && Asked(d, a, m) && AskedAll(cut, m, d.sent)
    ensures Asked(d, a, Fired(cut, m))
  {
    forall k | k in Fired(cut, m).remoteReadSet ensures k in d.blank || AskedFor(d, a, Fired(cut, m), k) {
      if k in m.remoteReadSet {
        assert k in d.blank || AskedFor(d, a, m, k);
      } else if k !in d.blank {
        assert k in RemoteKeys(cut, m) && (k in cut || SeenNewer(m.prior, k, map[]));
        var q :| q in d.sent && q.id == m.clientId && q.key == k;
      }
    }
  }

  /** A request with nothing left to cover is admitted. */
  lemma FinishedClientsOk(d: Desk, e: Desk, chains: map<Key, Chain>, a: Address, m: Pending, cut: Store)
    requires ClientsOk(d, chains) && Closed(cut) && Finished(d, e, a, m, cut) && Guarded(m) && ListsAll(chains, m.toCover, a)
    requires d.here == cut.Keys && Placed(d, m.(toCover := {})) && Asked(d, a, m)
    requires a !in d.repeated ==> a in d.busy && m.toCover == {} && ListsOnly(chains, {}, a)
    ensures ClientsOk(e.(busy := d.busy - {a}), chains)
  {
    var d' := e.(busy := d.busy - {a});
    EnlistGrows(d.clients, m.clientId, a);
    if a in d'.pending {
      AskedGrows(d, d', a, m);
      FiredIsOk(d', a, m, cut);
      FinishedIsAdmitted(d, e, a, m, cut);
    } else {
      AnsweredReplies(d, d', a, m, cut);
    }
    AdmittedClientsOk(d, d', chains, a);
  }

  lemma FinishedIsAdmitted(d: Desk, e: Desk, a: Address, m: Pending, cut: Store)
    requires Finished(d, e, a, m, cut) && (m.toCover == {} || a in d.repeated)
    ensures Admitted(d, e.(busy := d.busy - {a}), a)
  {
    EnlistGrows(d.clients, m.clientId, a);
  }

  lemma AnsweredReplies(d: Desk, d': Desk, a: Address, m: Pending, cut: Store)
    requires RepliesOk(d.replies) && Punctual(d) && d'.repeated == d.repeated && Closed(cut) && Guarded(m)
    requires |d'.replies| == |d.replies| + 1 && d.replies <= d'.replies && Answers(d'.replies[|d.replies|], a, m, cut)
    ensures RepliesOk(d'.replies) && Punctual(d')
  {
    AnswersAreSound(d'.replies[|d.replies|], a, m, cut);
    OneMoreReply(d, d', d'.replies[|d.replies|]);
  }

  lemma OneMoreReply(d: Desk, d': Desk, r: Reply)
    requires RepliesOk(d.replies) && Punctual(d) && d'.repeated == d.repeated && d'.replies == d.replies + [r]
    requires ReplyOk(r) && r.uncovered == {}
    ensures RepliesOk(d'.replies) && Punctual(d')
  {
    forall i | 0 <= i < |d'.replies| ensures ReplyOk(d'.replies[i]) {
      if i < |d.replies| {
        assert d'.replies[i] == d.replies[i];
        assert ReplyOk(d.replies[i]);
      } else {
        assert d'.replies[i] == r;
      }
    }
  }

  /** A request that waits for chains which list it is recorded. */
  lemma RecordedClientsOk(d: Desk, chains: map<Key, Chain>, a: Address, m: Pending)
    requires ClientsOk(d, chains) && Guarded(m) && m.toCover != {} && ListsAll(chains, m.toCover, a)
    requires Placed(d, m) && Asked(d, a, m)
    requires a !in d.repeated ==> a in d.busy && ListsOnly(chains, m.toCover, a)
    ensures ClientsOk(d.(pending := d.pending[a := m], busy := d.busy - {a}), chains)
  {
    var d' := d.(pending := d.pending[a := m], busy := d.busy - {a});
    AskedGrows(d, d', a, m);
    assert ClientOk(d', a);
    AdmittedClientsOk(d, d', chains, a);
  }

  lemma GivingKeepsClients(d: Desk, chains: map<Key, Chain>, heads: set<Key>, key: Key, l: CrossCausal)
    requires ClientsOk(d, chains)
    ensures ClientsOk(d, GiveAll(chains, heads, key, l))
  {
    SameWaiting(d, chains, GiveAll(chains, heads, key, l));
  }

  /** A chain lists one more address, whose request is being admitted. */
  lemma ListingKeepsClients(d: Desk, chains: map<Key, Chain>, chains': map<Key, Chain>, a: Address)
    requires ClientsOk(d, chains) && ChainsKept(chains, chains') && (a in d.repeated || a in d.busy)
    requires forall k, b | k in chains' && b in chains'[k].waiting && b != a :: k in chains && b in chains[k].waiting
    ensures ClientsOk(d, chains')
  {
    forall b | b !in d.repeated ensures TidyAt(d, chains', b) {
      assert TidyAt(d, chains, b);
    }
  }

  /** The desk when a request comes in; one that follows an open request at the same address is marked. */
  function Opened(d: Desk, a: Address, nameless: set<Key>): Desk {
    d.(busy := {a}, repeated := d.repeated + (if a in d.pending then {a} else {}), blank := d.blank + nameless)
  }

  lemma OpenedClientsOk(d: Desk, chains: map<Key, Chain>, a: Address, nameless: set<Key>)
    requires ClientsOk(d, chains) && d.busy == {}
    ensures ClientsOk(Opened(d, a, nameless), chains)
    ensures a !in d.repeated && a !in d.pending ==> ListsOnly(chains, {}, a)
  {
    var d' := Opened(d, a, nameless);
    forall b | b !in d'.repeated ensures TidyAt(d', chains, b) {
      assert TidyAt(d, chains, b);
    }
    assert a !in d.repeated ==> TidyAt(d, chains, a);
    forall b | b in d'.pending ensures ClientOk(d', b) {
      SameClient(d, d', b);
    }
  }

  /** Marking more keys as blank keeps everybody in order. */
  lemma BlankClientsOk(d: Desk, chains: map<Key, Chain>, blank: set<Key>)
    requires ClientsOk(d, chains) && d.blank <= blank
    ensures ClientsOk(d.(blank := blank), chains)
  {
    var d' := d.(blank := blank);
    forall a | a !in d'.repeated ensures TidyAt(d', chains, a) {
      assert TidyAt(d, chains, a);
    }
    forall a | a in d'.pending ensures ClientOk(d', a) {
      SameClient(d, d', a);
    }
  }

  // ------------------------------------------------ versions from other caches

  /** The pinned versions among the keys asked for, in the order of the request. */
  function Looked(pinned: Store, keys: seq<Key>): seq<(Key, CrossCausal)> {
    if keys == [] then []
    else
      var key := keys[|keys| - 1];
      Looked(pinned, keys[..|keys| - 1]) + if key in pinned then [(key, pinned[key])] else []
  }

  lemma {:induction false} LookedInOrder(pinned: Store, a: seq<Key>, b: seq<Key>)
    ensures Looked(pinned, a + b) == Looked(pinned, a) + Looked(pinned, b)
  {
    if b == [] {
      assert a + b == a;
    } else {
      var init, last := b[..|b| - 1], b[|b| - 1];
      LookedInOrder(pinned, a, init);
      assert b == init + [last] && a + b == (a + init) + [last];
      LookedSnoc(pinned, init, last);
      LookedSnoc(pinned, a + init, last);
      Reassociate(Looked(pinned, a), Looked(pinned, init), if last in pinned then [(last, pinned[last])] else []);
    }
  }

  lemma Reassociate<T>(x: seq<T>, y: seq<T>, z: seq<T>)
    ensures (x + y) + z == x + (y + z)
  {
  }

  lemma {:induction false} LookedSnoc(pinned: Store, keys: seq<Key>, k: Key)
    ensures Looked(pinned, keys + [k]) == Looked(pinned, keys) + if k in pinned then [(k, pinned[k])] else []
  {
    assert (keys + [k])[..|keys + [k]| - 1] == keys;
  }

  lemma {:induction false} LookedOne(pinned: Store, k: Key)
    ensures Looked(pinned, [k]) == if k in pinned then [(k, pinned[k])] else []
  {
    assert Looked(pinned, []) == [];
  }

  /** A version from another cache is taken if the request still waits for its key. */
  function Accept(m: Pending, t: (Key, CrossCausal)): Pending {
    if t.0 in m.remoteReadSet then
      m.(remote := m.remote[t.0 := t.1], remoteReadSet := m.remoteReadSet - {t.0})
    else m
  }

  function AcceptAll(m: Pending, tuples: seq<(Key, CrossCausal)>): Pending {
    if tuples == [] then m else Accept(AcceptAll(m, tuples[..|tuples| - 1]), tuples[|tuples| - 1])
  }

  function KeysOf(tuples: seq<(Key, CrossCausal)>): set<Key> { set i | 0 <= i < |tuples| :: tuples[i].0 }

  /** `t` is the first version of its key. */
  ghost predicate IsFirst(tuples: seq<(Key, CrossCausal)>, k: Key, i: int) {
    0 <= i < |tuples| && tuples[i].0 == k && forall j | 0 <= j < i :: tuples[j].0 != k
  }

  /** The request waits for exactly the keys that were not sent, and for each key the first version counts. */
  lemma {:induction false} AcceptAllExact(m: Pending, tuples: seq<(Key, CrossCausal)>)
    ensures var m' := AcceptAll(m, tuples);
            && m' == m.(remote := m'.remote, remoteReadSet := m.remoteReadSet - KeysOf(tuples))
            && m'.remote.Keys == m.remote.Keys + m.remoteReadSet * KeysOf(tuples)
            && (forall k | k in m.remote && !(k in m.remoteReadSet && k in KeysOf(tuples)) :: m'.remote[k] == m.remote[k])
            && (forall k, i | k in m.remoteReadSet && IsFirst(tuples, k, i) :: k in m'.remote && m'.remote[k] == tuples[i].1)
  {
    if tuples != [] {
      var n := |tuples| - 1;
      var front := tuples[..n];
      AcceptAllExact(m, front);
      assert KeysOf(tuples) == KeysOf(front) + {tuples[n].0};
      forall k, i | k in m.remoteReadSet && IsFirst(tuples, k, i)
        ensures k in AcceptAll(m, tuples).remote && AcceptAll(m, tuples).remote[k] == tuples[i].1
      {
        if i < n {
          assert front[i] == tuples[i] && IsFirst(front, k, i);
          assert k in KeysOf(front);
        } else {
          assert k !in KeysOf(front);
        }
      }
    }
  }

  /** What is left to read here does not grow, so the collected versions still suffice. */
  lemma {:induction false} AcceptKeepsReadOk(m: Pending, tuples: seq<(Key, CrossCausal)>)
    requires ReadOk(m)
    ensures ReadOk(AcceptAll(m, tuples)) && ReadHere(AcceptAll(m, tuples)) == ReadHere(m)
  {
    AcceptAllExact(m, tuples);
    assert ReadHere(AcceptAll(m, tuples)) == ReadHere(m);
  }

  /** The reply that joins what was read here with what other caches sent. */
  function Joined(a: Address, m: Pending): Reply {
    Reply(a, Restrict(m.local, m.local.Keys - m.missing), (m.local.Keys + m.absent) * m.missing, m.remote,
          m.readSet, m.toCover, m.seen)
  }

  /**
    The reply to request `m` after other caches have sent `tuples`: every key awaited from them comes
    with the first version sent, every key read here with the version collected.
   */
  ghost predicate Joins(r: Reply, a: Address, m: Pending, tuples: seq<(Key, CrossCausal)>) {
    && r.to == a && r.readSet == m.readSet && r.uncovered == m.toCover && r.seen == m.seen
    && r.remote.Keys == m.remote.Keys + m.remoteReadSet
    && (forall k, i | k in m.remoteReadSet && IsFirst(tuples, k, i) :: k in r.remote && r.remote[k] == tuples[i].1)
    && (forall k | k in m.remote && k !in m.remoteReadSet :: k in r.remote && r.remote[k] == m.remote[k])
    && r.found.Keys == m.local.Keys - m.missing && (forall k | k in r.found :: k in m.local && r.found[k] == m.local[k])
    && r.missing == (m.local.Keys + m.absent) * m.missing
  }

  lemma {:induction false} JoinedJoins(a: Address, m: Pending, tuples: seq<(Key, CrossCausal)>)
    requires AcceptAll(m, tuples).remoteReadSet == {}
    ensures Joins(Joined(a, AcceptAll(m, tuples)), a, m, tuples)
  {
    AcceptAllExact(m, tuples);
    assert m.remoteReadSet * KeysOf(tuples) == m.remoteReadSet by {
      forall k | k in m.remoteReadSet ensures k in KeysOf(tuples) {
        assert k !in m.remoteReadSet - KeysOf(tuples);
      }
    }
  }

  /** A reply that joins versions is sound unless it is sent before the request's chains are complete. */
  lemma JoinedIsOk(a: Address, m: Pending)
    requires ReadOk(m) && m.remoteReadSet == {}
    ensures ReplyOk(Joined(a, m))
  {
    var r := Joined(a, m);
    if m.toCover == {} {
      assert r.Here() == Restrict(m.local, ReadHere(m));
      forall k | k in m.readSet ensures k in r.found.Keys + r.missing + r.remote.Keys {
        if k !in m.missing && k !in m.remote { assert k in ReadHere(m); }
      }
      if Reliable(r.seen) {
        forall k | k in r.Here() ensures NotOlderThan(r.seen, k, r.Here()[k].clock) {
          assert k in ReadHere(m) && !SeenNewer(m.prior, k, m.local[k].clock);
        }
      }
    }
  }

  /** What a response from another cache does to the addresses in `done`. */
  ghost predicate Delivered(d: Desk, d': Desk, done: set<Address>, tuples: seq<(Key, CrossCausal)>) {
    && (forall a | a in d'.pending ::
          a in d.pending && d'.pending[a] == if a in done then AcceptAll(d.pending[a], tuples) else d.pending[a])
    && (forall a | a in d.pending :: a !in d'.pending <==> a in done && Complete(d, a, tuples))
    && d.replies <= d'.replies
    && (forall i | |d.replies| <= i < |d'.replies| :: JoinedFor(d, d'.replies[i], done, tuples))
    && (forall a | a in d.pending && a !in d'.pending :: JoinedAt(d, d', a, tuples))
    && SameMarks(d, d')
  }

  /** Nothing is asked or marked, and the cut has not changed. */
  ghost predicate SameMarks(d: Desk, d': Desk) {
    d'.busy == d.busy && d'.repeated == d.repeated && d'.blank == d.blank && d'.sent == d.sent && d'.here == d.here
  }

  ghost predicate Complete(d: Desk, a: Address, tuples: seq<(Key, CrossCausal)>)
    requires a in d.pending
  {
    AcceptAll(d.pending[a], tuples).remoteReadSet == {}
  }

  ghost predicate JoinedFor(d: Desk, r: Reply, done: set<Address>, tuples: seq<(Key, CrossCausal)>) {
    r.to in done && r.to in d.pending && Complete(d, r.to, tuples) && r == Joined(r.to, AcceptAll(d.pending[r.to], tuples))
  }

  ghost predicate JoinedAt(d: Desk, d': Desk, a: Address, tuples: seq<(Key, CrossCausal)>)
    requires a in d.pending
  {
    exists i :: |d.replies| <= i < |d'.replies| && d'.replies[i] == Joined(a, AcceptAll(d.pending[a], tuples))
  }

  /** One request takes the versions, and is answered when it waits for no more. */
  lemma {:induction false} TakenIsDelivered(d: Desk, d': Desk, a: Address, tuples: seq<(Key, CrossCausal)>)
    requires a in d.pending
    requires var m := AcceptAll(d.pending[a], tuples);
             if m.remoteReadSet == {} then d'.pending == d.pending - {a} && d'.replies == d.replies + [Joined(a, m)]
             else d'.pending == d.pending[a := m] && d'.replies == d.replies
    requires SameMarks(d, d')
    ensures Delivered(d, d', {a}, tuples)
  {
    if a !in d'.pending {
      var i := |d.replies|;
      assert d'.replies[i] == Joined(a, AcceptAll(d.pending[a], tuples));
    }
  }

  lemma DeliveredOneMore(d: Desk, e: Desk, d': Desk, done: set<Address>, a: Address, tuples: seq<(Key, CrossCausal)>)
    requires a !in done && Delivered(d, e, done, tuples) && Delivered(e, d', {a}, tuples)
    ensures Delivered(d, d', done + {a}, tuples)
  {
    forall b | b in d.pending ensures b !in d'.pending <==> b in done + {a} && Complete(d, b, tuples) {
      if b in e.pending && b !in done { assert e.pending[b] == d.pending[b]; }
    }
    forall i | |d.replies| <= i < |d'.replies| ensures JoinedFor(d, d'.replies[i], done + {a}, tuples) {
      if i < |e.replies| {
        assert JoinedFor(d, e.replies[i], done, tuples);
      } else {
        assert JoinedFor(e, d'.replies[i], {a}, tuples) && e.pending[a] == d.pending[a];
      }
    }
    forall b | b in d.pending && b !in d'.pending ensures JoinedAt(d, d', b, tuples) {
      if b in e.pending {
        assert e.pending[b] == d.pending[b] && JoinedAt(e, d', b, tuples);
        JoinedAtLater(d, e, d', b, tuples);
      } else {
        assert JoinedAt(d, e, b, tuples);
        JoinedAtEarlier(d, e, d', b, tuples);
      }
    }
  }

  lemma {:induction false} JoinedAtLater(d: Desk, e: Desk, d': Desk, a: Address, tuples: seq<(Key, CrossCausal)>)
    requires a in d.pending && a in e.pending && e.pending[a] == d.pending[a] && d.replies <= e.replies
    requires JoinedAt(e, d', a, tuples)
    ensures JoinedAt(d, d', a, tuples)
  {
  }

  lemma {:induction false} JoinedAtEarlier(d: Desk, e: Desk, d': Desk, a: Address, tuples: seq<(Key, CrossCausal)>)
    requires a in d.pending && JoinedAt(d, e, a, tuples) && e.replies <= d'.replies
    ensures JoinedAt(d, d', a, tuples)
  {
    var i :| |d.replies| <= i < |e.replies| && e.replies[i] == Joined(a, AcceptAll(d.pending[a], tuples));
    assert d'.replies[i] == e.replies[i];
  }

  lemma {:induction false} DeliveredNobody(d: Desk, tuples: seq<(Key, CrossCausal)>)
    ensures Delivered(d, d, {}, tuples)
  {
  }

  /** Who is listed plays no part in a delivery. */
  lemma {:induction false} DeliveredUnlisted(d: Desk, e: Desk, done: set<Address>, tuples: seq<(Key, CrossCausal)>,
                                             clients: map<string, set<Address>>)
    requires Delivered(d, e, done, tuples)
    ensures Delivered(d, e.(clients := clients), done, tuples)
  {
    var d' := e.(clients := clients);
    forall a | a in d.pending && a !in d'.pending ensures JoinedAt(d, d', a, tuples) {
      assert JoinedAt(d, e, a, tuples);
    }
  }

  /** The addresses answered are no longer listed; a client without addresses is forgotten. */
  function Delist(clients: map<string, set<Address>>, id: string, gone: set<Address>): map<string, set<Address>> {
    if id !in clients then clients
    else if clients[id] - gone == {} then clients - {id}
    else clients[id := clients[id] - gone]
  }

  lemma DelistExact(clients: map<string, set<Address>>, id: string, gone: set<Address>, i: string, a: Address)
    ensures a in ListedFor(Delist(clients, id, gone), i) <==> a in ListedFor(clients, i) && !(i == id && a in gone)
    ensures id in Delist(clients, id, gone) ==> ListedFor(Delist(clients, id, gone), id) != {}
  {
    if id in clients && clients[id] - gone == {} {
      assert a !in clients[id] - gone;
    }
  }

  /** Responses from other caches keep every remaining client served, and what they complete is answered soundly. */
  lemma {:induction false} DeliveredClientsOk(d: Desk, d': Desk, id: string, tuples: seq<(Key, CrossCausal)>,
                                              chains: map<Key, Chain>)
    requires ClientsOk(d, chains) && Delivered(d, d', ListedFor(d.clients, id), tuples)
    requires d'.clients == Delist(d.clients, id, d.pending.Keys - d'.pending.Keys)
    ensures ClientsOk(d', chains)
  {
    DeliveredServed(d, d', ListedFor(d.clients, id), tuples, chains);
    forall a | a in d'.pending ensures ClientOk(d', a) {
      DeliveredPendingOk(d, d', id, tuples, a);
    }
    forall a | a !in d'.repeated ensures TidyAt(d', chains, a) {
      DeliveredTidy(d, d', id, tuples, chains, a);
    }
    DeliveredReplies(d, d', chains, id, tuples);
  }

  lemma {:induction false} DeliveredServed(d: Desk, d': Desk, done: set<Address>, tuples: seq<(Key, CrossCausal)>,
                                           chains: map<Key, Chain>)
    requires Served(d.pending, chains) && Delivered(d, d', done, tuples)
    ensures Served(d'.pending, chains)
  {
    forall a, k | a in d'.pending && k in d'.pending[a].toCover ensures k in chains && a in chains[k].waiting {
      AcceptAllExact(d.pending[a], tuples);
      assert k in d.pending[a].toCover;
    }
  }

  lemma {:induction false} DeliveredTidy(d: Desk, d': Desk, id: string, tuples: seq<(Key, CrossCausal)>,
                                         chains: map<Key, Chain>, a: Address)
    requires TidyAt(d, chains, a) && Delivered(d, d', ListedFor(d.clients, id), tuples)
    requires d'.clients == Delist(d.clients, id, d.pending.Keys - d'.pending.Keys)
    ensures TidyAt(d', chains, a)
  {
    if a in ListedFor(d.clients, id) {
      assert WaitsElsewhere(d, a, id);
      AcceptAllExact(d.pending[a], tuples);
    }
    forall i | a in ListedFor(d'.clients, i) ensures WaitsElsewhere(d', a, i) {
      assert a in ListedFor(d.clients, i) && WaitsElsewhere(d, a, i);
      assert a in d'.pending;
    }
  }

  lemma {:induction false} DeliveredPendingOk(d: Desk, d': Desk, id: string, tuples: seq<(Key, CrossCausal)>, a: Address)
    requires PendingOk(d) && Delivered(d, d', ListedFor(d.clients, id), tuples) && a in d'.pending
    requires d'.clients == Delist(d.clients, id, d.pending.Keys - d'.pending.Keys)
    ensures ClientOk(d', a)
  {
    assert ClientOk(d, a);
    StaysListed(d.clients, id, d.pending.Keys - d'.pending.Keys, d.pending[a].clientId, a);
    if a in ListedFor(d.clients, id) {
      AcceptKeepsClientOk(d, d', a, tuples);
    } else {
      AskedGrows(d, d', a, d.pending[a]);
    }
  }

  lemma StaysListed(clients: map<string, set<Address>>, id: string, gone: set<Address>, i: string, a: Address)
    requires a !in gone
    ensures a in ListedFor(clients, i) ==> a in ListedFor(Delist(clients, id, gone), i)
  {
  }

  lemma {:induction false} AcceptKeepsClientOk(d: Desk, d': Desk, a: Address, tuples: seq<(Key, CrossCausal)>)
    requires a in d.pending && a in d'.pending && ClientOk(d, a)
    requires d'.pending[a] == AcceptAll(d.pending[a], tuples) && d'.pending[a].remoteReadSet != {}
    requires Enlisted(d, a) ==> a in ListedFor(d'.clients, d.pending[a].clientId)
    requires SameMarks(d, d')
    ensures ClientOk(d', a)
  {
    AcceptAllExact(d.pending[a], tuples);
    AcceptKeepsReadOk(d.pending[a], tuples);
    AskedGrows(d, d', a, d.pending[a]);
    forall k | k in d'.pending[a].remoteReadSet ensures k in d'.blank || AskedFor(d', a, d'.pending[a], k) {
      assert k in d'.blank || AskedFor(d', a, d.pending[a], k);
    }
  }

  lemma {:induction false} DeliveredReplies(d: Desk, d': Desk, chains: map<Key, Chain>, id: string,
                                            tuples: seq<(Key, CrossCausal)>)
    requires ClientsOk(d, chains) && Delivered(d, d', ListedFor(d.clients, id), tuples)
    ensures RepliesOk(d'.replies) && Punctual(d')
  {
    forall i | 0 <= i < |d'.replies|
      ensures ReplyOk(d'.replies[i]) && (d'.replies[i].to !in d'.repeated ==> d'.replies[i].uncovered == {})
    {
      if i < |d.replies| {
        assert d'.replies[i] == d.replies[i];
      } else {
        var r := d'.replies[i];
        assert JoinedFor(d, r, ListedFor(d.clients, id), tuples);
        JoinedReplyOk(d, chains, id, tuples, r.to);
      }
    }
  }

  lemma {:induction false} JoinedReplyOk(d: Desk, chains: map<Key, Chain>, id: string, tuples: seq<(Key, CrossCausal)>,
                                         a: Address)
    requires PendingOk(d) && Tidy(d, chains) && a in ListedFor(d.clients, id) && a in d.pending && Complete(d, a, tuples)
    ensures var r := Joined(a, AcceptAll(d.pending[a], tuples));
            ReplyOk(r) && (a !in d.repeated ==> r.uncovered == {})
  {
    assert ClientOk(d, a);
    AcceptAllExact(d.pending[a], tuples);
    AcceptKeepsReadOk(d.pending[a], tuples);
    JoinedIsOk(a, AcceptAll(d.pending[a], tuples));
    if a !in d.repeated {
      assert TidyAt(d, chains, a);
      assert WaitsElsewhere(d, a, id);
    }
  }

  /** Whether a key has been collected: read here, found missing, or received from another cache. */
  predicate Collected(m: Pending, k: Key) {
    k in m.local || k in m.remote || (k in m.absent && k in m.missing)
  }

  /** A joined reply answers the whole request if and only if every key of the request has been collected. */
  lemma JoinedCoversIff(a: Address, m: Pending)
    ensures var r := Joined(a, m);
            m.readSet <= r.found.Keys + r.missing + r.remote.Keys <==> forall k | k in m.readSet :: Collected(m, k)
  {
    var r := Joined(a, m);
    forall k ensures k in r.found.Keys + r.missing + r.remote.Keys <==> Collected(m, k) {
    }
  }

  /** Every key of the request has been collected, or is awaited from another cache. */
  predicate AllCollected(m: Pending) {
    forall k | k in m.readSet :: Collected(m, k) || k in m.remoteReadSet
  }

  /**
    A response that completes a request answers it.  When the request still awaits the chain of a
    key that was not collected for an earlier request at the address, the reply lacks the key and is
    not sound.
   */
  lemma {:induction false} EarlyReply(d: Desk, d': Desk, a: Address, tuples: seq<(Key, CrossCausal)>)
    requires a in d.pending && Complete(d, a, tuples) && Delivered(d, d', {a}, tuples)
    ensures JoinedAt(d, d', a, tuples)
    ensures var r := Joined(a, AcceptAll(d.pending[a], tuples));
            && (r.readSet <= r.found.Keys + r.missing + r.remote.Keys <==> AllCollected(d.pending[a]))
            && (Sound(r) ==> AllCollected(d.pending[a]))
  {
    var m := d.pending[a];
    AcceptAllExact(m, tuples);
    JoinedCoversIff(a, AcceptAll(m, tuples));
    forall k | k in m.readSet ensures Collected(AcceptAll(m, tuples), k) <==> Collected(m, k) || k in m.remoteReadSet {
      AcceptCollects(m, tuples, k);
    }
  }

  lemma {:induction false} AcceptCollects(m: Pending, tuples: seq<(Key, CrossCausal)>, k: Key)
    requires AcceptAll(m, tuples).remoteReadSet == {}
    ensures Collected(AcceptAll(m, tuples), k) <==> Collected(m, k) || k in m.remoteReadSet
  {
    AcceptAllExact(m, tuples);
    assert k !in m.remoteReadSet - KeysOf(tuples);
  }

  /** What another cache has pinned for a client is what the waiting request gets, as soon as all its keys are asked for. */
  lemma {:induction false} RemoteReadsReturnPinned(m: Pending, pinned: Store, keys: seq<Key>)
    requires forall k | k in m.remoteReadSet :: k in keys && k in pinned
    ensures var m' := AcceptAll(m, Looked(pinned, keys));
            m'.remoteReadSet == {} && forall k | k in m.remoteReadSet :: k in m'.remote && m'.remote[k] == pinned[k]
  {
    var tuples := Looked(pinned, keys);
    AcceptAllExact(m, tuples);
    LookedExact(pinned, keys);
    forall k | k in m.remoteReadSet
      ensures k in KeysOf(tuples) && k in AcceptAll(m, tuples).remote && AcceptAll(m, tuples).remote[k] == pinned[k]
    {
      assert (k, pinned[k]) in tuples;
      var i :| 0 <= i < |tuples| && tuples[i] == (k, pinned[k]);
      var j := FirstOf(tuples, k, i);
      assert tuples[j] in tuples;
    }
  }

  /** Exactly the pinned keys asked for are sent, each with its pinned version. */
  lemma {:induction false} LookedExact(pinned: Store, keys: seq<Key>)
    ensures forall t :: t in Looked(pinned, keys) <==> t.0 in keys && t.0 in pinned && t.1 == pinned[t.0]
  {
    if keys != [] {
      LookedExact(pinned, keys[..|keys| - 1]);
      assert keys == keys[..|keys| - 1] + [keys[|keys| - 1]];
    }
  }

  lemma {:induction false} FirstOf(tuples: seq<(Key, CrossCausal)>, k: Key, i: int) returns (j: int)
    requires 0 <= i < |tuples| && tuples[i].0 == k
    ensures IsFirst(tuples, k, j)
  {
    if earlier :| 0 <= earlier < i && tuples[earlier].0 == k {
      j := FirstOf(tuples, k, earlier);
    } else {
      j := i;
    }
  }
}
