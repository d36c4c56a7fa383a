# Fluent: causal caches, replica handoff and DAG execution

This project models the parts of Fluent that carry its consistency guarantees and proves them in Dafny.

**The causal cache.** A cache collects versions of keys in *chains*, one per head key. A version enters a chain with its
dependencies, which come from the causal cut, from another chain, from the store of unmerged versions, or from the
key-value store. A chain with nothing left to fetch moves to the *causal cut* at once, and clients read from the cut.
The class `CausalCache` is that state machine. Its events are client reads and writes, responses, pushed updates, the
periodic migration, timeouts, version garbage collection, and the requests and responses by which caches read pinned
versions from one another, in any order. `CausalCache.Run` states what holds after every run: the cut is causally
closed; every reply to a client that sends one request at a time answers the whole request, reads one causally
consistent snapshot of the cut, and returns nothing from it that is older than what a reliable report has seen; nobody
stops waiting without a reply; every open request waits for a chain that lists it, or for other caches that have been
asked; the fetch map and the cover map describe the same fetches; no complete chain is left unmerged; and everything
that a chain waits for has a request in flight.

**The lattices.** Clocks are joined pointwise. Values of causal lattices are not: whether a dominated write lingers
depends on the grouping of merges. `CausalGrouping.AssociativeIff` gives the exact condition on the clocks, and
`CausalLattices.MaximalWritesSurvive` says what every merge order keeps; `CacheWrites` carries that to the stores of the
cache. For the other lattices, `Lattices` proves strong eventual consistency of replicas that exchange values by gossip
which may be reordered, repeated and lost.

**The hash ring and handoff.** `HashRings` says on hashes alone which servers are responsible for a key, and proves
minimal disruption for this order with virtual nodes and wrap-around. `Replication` and `KvsThreads` say who sends a key
to whom when factors change or a server joins, for the owners that the rings determine before and after. `JoinFlood`
shows that the flooding of join messages ends in mutual knowledge with current join counts, and in complete knowledge if
all start-up lists name one first server.

**DAG execution.** `Dags` models the schedules and triggers of one request as messages that arrive in any order,
triggers possibly more than once. Every function runs at most once and after its predecessors. Once no message is left,
every function has run if and only if the graph has no cycle and no repeated edge, and the results are those that the
request determines.

Two smaller pieces are the two-way cache index of a storage thread (`CacheIndex`) and the ordered set of the Python
client (`OrderedSets`).

## Where the code and its description differ

- Merging is described as a lattice join; on the values of causal lattices it is not associative
  (`CausalGrouping.ValuesAreNotAssociative`). The model follows the code.
- A change of replication factors that lowers factors only where no replica is stored, while it adds replicas elsewhere, is
  sent by nobody (`Replication.UndeliveredChange`); `Replication.DeliveredIff` is the exact condition.
- Factors that ask for no replica in any tier make every owner drop the key without sending it to anybody;
  `Replication.DroppedUnsentIff` says that this is the only way to drop a key unsent.
- Erasing a server from the ring goes by hash alone, so it removes exactly that server's entries if and only if no other
  server's entry sits at one of its hashes (`HashRings.LeaveRemovesOnly`); `HashRings.SharedHashIsLost` gives joins after which
  another server loses an entry. Inserting is exact in any case.
- A dependency with an empty clock on a key that does not exist enters the cut without that key
  (`CacheInvariants.EmptyDependencyBreaksClosure`); `CacheInvariants.MergeClosedIff` is the exact condition on the cut and
  the chain before the merge. The cache class therefore asks that dependencies name a version.
- The cache remembers one version per cache and key of what a client reports. With two concurrent versions of a key at one
  cache the later one hides the other, and a read may go back behind it (`CausalFrontiers.ConcurrentAtOneCache`);
  `CausalFrontiers.GuardedIffReliable` is the exact condition on the report.
- A client that sends a second request while its first one waits for another cache may be answered by the response to the
  first. Such an early reply answers the request exactly if all its keys were already collected for an earlier request at
  that address (`CacheClients.JoinedCoversIff`, `CacheClients.EarlyReply`); `CausalCaches.OverlapIsAnsweredEarly` is a state
  with all invariants in which it does not. Whoever sends one request at a time is answered soundly (`CausalCache.Run`).
- A key that is read from another cache has an addressee if and only if it is in the cut or remembered with a version
  (`CacheReads.AddresseeIff`). Without one nobody is asked, and the client waits. Keys that some client wrote with an empty
  clock, or reported with empty clocks only, are called blank; for all others a cache has been asked (`CausalCache.Run`).
- Last-writer-wins replicas agree in every run if and only if no two different writes share a timestamp
  (`Lattices.LwwConvergesIff`).
- A function with a repeated incoming edge waits for more triggers than it has predecessors and never runs
  (`Dags.CompleteIff`).

## Model

| member | source | states |
|---|---|---|
| Clocks.Join | include/lattices/core_lattices.hpp:136-151 | every component of the merged clock is the larger of the two, an absent one counting as below 0 |
| Clocks.JoinIsLeastUpperBound | include/lattices/core_lattices.hpp:136-151 | the merge of two clocks is their least upper bound in the pointwise order, and equals one of them exactly when it dominates |
| Clocks.Comparison | functions/cache/src/causal_cache_utils.cpp:33-46 | comparing a merged copy with the originals decides exactly greater-or-equal, strictly less, or incomparable |
| CausalLattices.CrossCausalLattice.Merge | include/lattices/cross_causal_lattice.hpp:61-74 | the in-place update has the effect that the theorems about merging speak of |
| CausalLattices.CausalPairLattice.Merge | include/lattices/vector_clock_pair_lattice.hpp:52-61 | the in-place update of the lattice without dependencies |
| CausalLattices.PairMergeIsCrossMerge | include/lattices/vector_clock_pair_lattice.hpp:52-61 | forgetting dependencies commutes with merging, so the theorems about clocks and values hold for this lattice too |
| CausalLattices.TreeBound | include/lattices/cross_causal_lattice.hpp:61-63 | for every merge tree the clock is above the clock of each write |
| CausalLattices.Attaining | include/lattices/cross_causal_lattice.hpp:61-63 | for every merge tree each component of the clock is that of some write |
| CausalLattices.TreeClock | include/lattices/cross_causal_lattice.hpp:61-63 | so the clock of a merge tree is the pointwise maximum of its writes' clocks |
| CausalLattices.SameWritesSameClock | include/lattices/cross_causal_lattice.hpp:61-63 | any two merge trees over the same writes end with the same clock |
| CausalLattices.MaximalWritesSurvive | include/lattices/cross_causal_lattice.hpp:61-74 | for every merge tree, the values and dependencies of a causally maximal write survive |
| CausalLattices.NothingUnwritten | include/lattices/cross_causal_lattice.hpp:61-74 | for every merge tree, every value and every dependency component comes from some write |
| CausalLattices.ConcurrentWritesCommute | include/lattices/cross_causal_lattice.hpp:69-73 | pairwise concurrent writes give the same clock, values and dependencies in every merge order |
| CausalGrouping.GroupingsAgreeIff | include/lattices/cross_causal_lattice.hpp:61-74 | both groupings of three versions keep the same ones exactly under a condition on the three clocks |
| CausalGrouping.AssociativeIf | include/lattices/cross_causal_lattice.hpp:61-74 | under that condition on the clocks, regrouping a merge changes neither clock nor dependencies nor values, whatever the values are |
| CausalGrouping.AssociativeIff | include/lattices/cross_causal_lattice.hpp:61-74 | for versions with different values, both groupings give the same lattice, dependencies included, if and only if that condition on the clocks holds |
| CausalGrouping.DominatedLingers | include/lattices/cross_causal_lattice.hpp:61-74 | when a version dominates another and a third is concurrent to both, the dominated one stays under one grouping and vanishes under the other |
| CausalGrouping.ValuesAreNotAssociative | include/lattices/cross_causal_lattice.hpp:61-74 | concrete clocks of two clients for which that happens, whatever the values |
| Lattices.MergeOfJoins | include/lattices/core_lattices.hpp:53-58 | merging the joins of two sets of writes gives the join of all of them |
| Lattices.KvStore.Get | kvs/include/kvs/base_kv_store.hpp:30-35 | a missing key is reported, and reading it leaves a fresh entry behind |
| Lattices.KvStore.Put | kvs/include/kvs/base_kv_store.hpp:37 | a write is merged into the entry of its key, a missing one counting as the lattice's bottom |
| Lattices.KvStore.Remove | kvs/include/kvs/base_kv_store.hpp:41 | the entry is gone and no other entry changes |
| Lattices.StepKeepsInv | kvs/include/kvs/base_kv_store.hpp:37 | after any write, sent value or late and repeated arrival, every replica's entry is the join of exactly the writes that reached it |
| Lattices.LatticesConverge | kvs/include/kvs/base_kv_store.hpp:37 | strong eventual consistency: in every run, replicas that the same writes have reached are equal |
| Lattices.MergeSets | include/lattices/core_lattices.hpp:53-58 | inserting one by one computes the union |
| Lattices.SetsConverge | include/lattices/core_lattices.hpp:53-58 | replicas of sets are strongly eventually consistent |
| Lattices.CountersConverge | include/lattices/core_lattices.hpp:33-39 | replicas of counters and of maps of counters are strongly eventually consistent |
| Lattices.InsertPairs | include/lattices/core_lattices.hpp:136-151 | the loop over pairs merges entry by entry and keeps entries that only one side has |
| Lattices.MapsConverge | include/lattices/core_lattices.hpp:136-151 | maps of a lattice obey the lattice laws, and replicas of them are strongly eventually consistent |
| Lattices.LwwPairLattice.Merge | include/lattices/lww_pair_lattice.hpp:47-52 | the later write wins, and of two equally late ones the incoming |
| Lattices.LwwRun | include/lattices/lww_pair_lattice.hpp:47-52 | for any two writes with equal timestamps, a run that leaves two replicas with the same writes and different values |
| Lattices.LwwConvergesIff | include/lattices/lww_pair_lattice.hpp:47-52 | last-writer-wins replicas agree in every run if and only if no two different writes share a timestamp |
| CacheModel.CausalMergeIsJoin | functions/cache/src/causal_cache_utils.cpp:48-62 | whenever the clocks differ, the cache's merge is the lattice merge, and of versions with equal clocks it keeps the first; it joins clocks, adds no dependency that neither has, and unites the values of concurrent versions |
| CacheWrites.MergeOfBoth | functions/cache/src/causal_cache_utils.cpp:48-62 | for writes that their author's component identifies, the cache's merge of two versions keeps every causally maximal one that went into either, under the pointwise maximum of the clocks, and holds no value or dependency that nobody wrote |
| CacheWrites.PutKeepsWrites | functions/cache/src/causal_cache_put_request_handler.cpp:24-38 | after any sequence of writes, the unmerged version of each key keeps every causally maximal write of the key, and holds no value or dependency that nobody wrote to it |
| CacheWrites.PutSendsWrites | functions/cache/src/causal_cache_put_request_handler.cpp:39-41 | so does the version that is sent on for a write, with respect to the writes of the key up to that one |
| CacheWrites.ReceiveKeepsWrites | functions/cache/src/causal_cache_utils.cpp:377-422 | so does the unmerged version after a response, with respect to the writes in it and those that were there |
| CacheWrites.CutKeepsWrites | functions/cache/src/causal_cache_utils.cpp:312-335 | so does the version in the cut after a chain is merged, with respect to the writes in the cut and in the chain |
| CacheModel.PopulateMakesProgress | functions/cache/src/causal_cache_utils.cpp:79-101 | a chain that accepts a version comes strictly closer to the unmerged store, which bounds the recursion |
| CausalCaches.CausalCache.constructor | functions/cache/src/causal_cache.cpp:33-54 | an empty cache satisfies every invariant |
| CausalCaches.CausalCache.FindInPreparation | functions/cache/src/causal_cache_utils.cpp:64-77 | returns a version of some chain that reaches the clock, and nothing only if no chain has one |
| CausalCaches.CausalCache.PopulateInPreparation | functions/cache/src/causal_cache_utils.cpp:79-101 | the chain's version is raised to include the given one, and the result tells whether it was not already included |
| CausalCaches.CausalCache.FindLocally | functions/cache/src/causal_cache_utils.cpp:121-140 | finds a local version whenever the unmerged store can supply one, and some version whenever there is one and none is asked for in particular; a version in a chain comes first |
| CausalCaches.CausalCache.CheckDependency | functions/cache/src/causal_cache_utils.cpp:111-157 | afterwards the dependency is within the cut, the chain and the outstanding fetches; a dependency in the cut changes nothing; nothing is fetched for a dependency at hand all of whose versions depend on what is at hand |
| CausalCaches.CausalCache.RecursiveDependencyCheck | functions/cache/src/causal_cache_utils.cpp:103-158 | terminates on cyclic dependencies; every dependency of the chain is within cut, chain and outstanding fetches; other chains are untouched; nothing is fetched when everything that is needed is in the cut or, with all it depends on, in the unmerged store |
| CausalCaches.CausalCache.FindAddress | functions/cache/src/causal_cache_utils.cpp:160-175 | finds a cache that the client read a newer version from, if and only if there is one |
| CausalCaches.CausalCache.SaveVersions | functions/cache/src/causal_cache_utils.cpp:177-192 | terminates on cycles, looks up no key missing from the closed cut, and pins the visited keys of the future read set at their cut versions |
| CacheReads.SearchIsReachability | functions/cache/src/causal_cache_utils.cpp:177-192 | the search visits exactly the keys reachable along dependencies in the cut |
| CausalCaches.CausalCache.FireRemoteReads | functions/cache/src/causal_cache_utils.cpp:194-257 | a key is read remotely exactly if it is absent from the cut or the client has seen a newer version; the caches asked for it are ones that hold such a version, and there is one exactly if one is remembered; the other keys are collected at their cut versions, or as missing; the pins are exactly the future keys reachable from keys read here |
| CacheReads.AddresseeIff | functions/cache/src/causal_cache_utils.cpp:210-236 | a key that is read remotely has an addressee if and only if it is in the cut or remembered with a version |
| CacheReads.FiredGathers | functions/cache/src/causal_cache_utils.cpp:194-257 | what is read here is collected as it is in the cut; it is a snapshot, lacks only keys that are missing or read remotely, and holds nothing older than remembered reads |
| CacheReads.PinSetPinsAll | functions/cache/src/causal_cache_utils.cpp:177-257 | every key that the client may read later and that is reachable in the cut from a key read here is pinned for the client at its cut version; what was pinned stays pinned, and changes only to the version in the cut |
| CausalCaches.CausalCache.RespondToClient | functions/cache/src/causal_cache_utils.cpp:259-303 | the reply has every key of the read set, the missing ones marked and all others at their cut versions, none older than remembered reads; the request is forgotten |
| CacheReads.CutReadsAreSnapshots | functions/cache/src/causal_cache_utils.cpp:266-278 | any part of a closed cut is a causally consistent snapshot |
| CausalCaches.CausalCache.FinishClient | functions/cache/src/causal_cache_utils.cpp:343-356 | a client with all keys covered is answered from the cut exactly if nothing must be read remotely, and is listed for the responses of other caches otherwise; its later reads are pinned |
| CausalCaches.CausalCache.NotifyClient | functions/cache/src/causal_cache_utils.cpp:337-358 | a waiting client is answered from the cut, or has one key less to wait for, or is listed for the responses of other caches; a key is recorded as missing exactly if it turned out not to exist; a client that waits for no chain any more has pinned what it may read later along with what is read here |
| CausalCaches.CausalCache.MergeEntries | functions/cache/src/causal_cache_utils.cpp:312-335 | versions with an empty clock are skipped and reported, all others are joined into the cut |
| CausalCaches.CausalCache.MergeIntoCausalCut | functions/cache/src/causal_cache_utils.cpp:305-361 | the whole chain enters the cut, exactly its clients are told, with what turned out missing, and the chain is dropped; all that are told and wait for no chain any more have pinned what they may read later |
| CausalCaches.OnlyHeadIsGone | functions/cache/src/causal_cache_utils.cpp:312-341 | although any empty version of a chain marks the head as missing, under the chain invariant only the head's own version can |
| CacheInvariants.SatisfiedIff | functions/cache/src/causal_cache_utils.cpp:111-120 | all dependencies of a version are in the cut exactly if their clock components are and keys named without a version are present |
| CacheInvariants.MergeClosedIff | functions/cache/src/causal_cache_utils.cpp:312-335 | merging a complete chain keeps the cut closed if and only if every version of the chain that enters the cut names, in its dependencies without a version, only keys of the cut or existing keys of the chain |
| CacheInvariants.EmptyDependencyBreaksClosure | functions/cache/src/causal_cache_utils.cpp:312-335 | a family of supported chains that await nothing and whose merge leaves the cut open, for every closed cut |
| CacheInvariants.MergeKeepsClosed | functions/cache/src/causal_cache_utils.cpp:305-335 | merging a complete chain keeps the cut closed and lowers no clock |
| CausalCaches.CausalCache.StartChain | functions/cache/src/causal_cache_utils.cpp:424-438 | a new chain is either at rest with open fetches or already in the cut, the latter when everything that its version depends on is at hand; all invariants hold afterwards, and whoever stops waiting is answered |
| CausalCaches.CausalCache.SortAwaited | functions/cache/src/causal_cache_utils.cpp:441-466 | splits the awaited clocks of a key, and the heads awaiting them, by whether the version reaches them |
| CausalCaches.CausalCache.HandOut | functions/cache/src/causal_cache_utils.cpp:447-473 | answered heads get the version, and stop fetching the key only if no clock of it is still open for them |
| CausalCaches.CausalCache.ServeHead | functions/cache/src/causal_cache_utils.cpp:477-489 | checking one answered head keeps the state of all other heads, also when the head was completed by an earlier clock |
| CausalCaches.CausalCache.AnswerAwaited | functions/cache/src/causal_cache_utils.cpp:439-497 | afterwards no open clock is reached by the unmerged version, open clocks have a new request in flight, and the key is asked for again only if there are some |
| CausalCaches.CausalCache.ProcessResponse | functions/cache/src/causal_cache_utils.cpp:363-506 | every invariant survives a response, the cut only grows, the version is merged into the unmerged store unless it stands for a missing key, whatever it answers is served, and what is still awaited of the key is asked for again; a chain that waited for its first version is complete when all that is needed is at hand, and once the chain is complete, whoever waited for it only has been answered or waits for other caches |
| CacheClients.FewerMovedOn | functions/cache/src/causal_cache_utils.cpp:336-360 | when clients stop waiting only by being answered and the chain of a key is gone, every client that waited for that chain only has a reply to its whole request or waits for other caches whose responses will find it |
| CausalCaches.CausalCache.PutRequest | functions/cache/src/causal_cache_put_request_handler.cpp:24-43 | only the unmerged store grows, by all the versions; each write is sent on as merged at that point |
| CausalCaches.CausalCache.PeriodicMigration | functions/cache/src/causal_cache_periodic_migration_handler.cpp:27-47 | afterwards every unmerged version is in the cut or its key is in some chain |
| CausalCaches.CausalCache.Migrate | functions/cache/src/causal_cache_periodic_migration_handler.cpp:27-47 | afterwards the unmerged version is in the cut or its key is in some chain, and no migration of another key is undone; nothing changes if the cut has the version or a chain has the key |
| CausalCaches.CausalCache.CoverKey | functions/cache/src/causal_cache_get_request_handler.cpp:115-174 | a key that is not covered has a chain that lists the client; a covered one is in the cut, in the client's frontier, or a blank key of which a local version has an empty clock; a key in the cut or the frontier is covered at once, and so is one without a chain of which a version is at hand with all it depends on |
| CausalCaches.CausalCache.GetRequest | functions/cache/src/causal_cache_get_request_handler.cpp:68-193 | the request is recorded, with the keys that may be read later added to those of an open request, or answered for the whole read set with versions of the cut; an answer holds nothing older than what a reliable report has seen, and that of a first request misses no key; once it waits for no chain, the later reads reachable from keys read here are pinned; a first request whose keys are all in the cut, none older than reported, is answered at once; an address with an open request is marked |
| CausalFrontiers.PopulateFrontier | functions/cache/src/causal_cache_utils.cpp:508-528 | folding in a clock gives the maximal clocks of all seen, early return included |
| CausalFrontiers.BuildFrontier | functions/cache/src/causal_cache_get_request_handler.cpp:69-84 | per key the frontier is exactly the antichain of maximal clocks, whatever the order |
| CausalFrontiers.BuildPrior | functions/cache/src/causal_cache_get_request_handler.cpp:85-104 | the loop remembers the reports one by one, with the effect that the next two rows describe |
| CausalFrontiers.PriorIsLast | functions/cache/src/causal_cache_get_request_handler.cpp:85-104 | per cache and key the last report on the frontier is the version remembered |
| CausalFrontiers.PriorElsewhere | functions/cache/src/causal_cache_get_request_handler.cpp:85-104 | without such a report, what was known before stays |
| CausalFrontiers.NamedIsRemembered | functions/cache/src/causal_cache_get_request_handler.cpp:85-104 | a key that is reported with some version is remembered with one, whatever was remembered before |
| CausalFrontiers.RememberedIffNamed | functions/cache/src/causal_cache_get_request_handler.cpp:85-104 | when nothing was remembered before, exactly the keys reported with a version are remembered with one |
| CausalFrontiers.GuardsIff | functions/cache/src/causal_cache_utils.cpp:160-175 | comparing with the remembered versions is enough if and only if each clock just below a reported one lies strictly below a remembered one |
| CausalFrontiers.ReadsNeverGoBack | functions/cache/src/causal_cache_get_request_handler.cpp:85-104 | for a reliable report, and whatever was remembered before, what passes the comparison is not older than anything the client has seen |
| CausalFrontiers.GuardedIffReliable | functions/cache/src/causal_cache_get_request_handler.cpp:85-104 | when nothing was remembered before, exactly the reliable reports are guarded: each clock just below a reported one lies below a maximal clock that is the last of its cache |
| CausalFrontiers.OnePerCacheIsReliable | functions/cache/src/causal_cache_get_request_handler.cpp:85-104 | a report with at most one maximal clock per cache and key is reliable |
| CausalFrontiers.ConcurrentAtOneCache | functions/cache/src/causal_cache_get_request_handler.cpp:85-104 | two concurrent clocks at one cache are not guarded: an older version passes the comparison |
| CausalFrontiers.Condense | functions/cache/src/causal_cache_get_request_handler.cpp:68-104 | the keys reported, and what to compare with: a clock counts as older exactly if it lies below a maximal clock that is the last of its cache, or did so before |
| CacheClients.NotifiedClientsOk | functions/cache/src/causal_cache_utils.cpp:336-360 | completing a chain leaves every unanswered client listed with a chain it waits for, or waiting for other caches whose responses will find it; what is answered is sound |
| CacheClients.AdmittedClientsOk | functions/cache/src/causal_cache_get_request_handler.cpp:175-193 | admitting a request keeps every other client served and, for addresses with one request at a time, no stale listing behind |
| CacheClients.FiredIsAsked | functions/cache/src/causal_cache_utils.cpp:194-257 | when a request turns to other caches, one has been asked for every key it waits for there, except for blank keys |
| CausalCaches.CausalCache.VersionedRequest | functions/cache/src/causal_cache_versioned_key_handlers.cpp:17-47 | the pinned versions of the client among the keys asked for are sent, in the order of the request |
| CacheClients.LookedExact | functions/cache/src/causal_cache_versioned_key_handlers.cpp:26-39 | exactly the pinned keys asked for are sent, each at its pinned version |
| CacheClients.LookedInOrder | functions/cache/src/causal_cache_versioned_key_handlers.cpp:26-39 | the versions are sent in the order of the request |
| CacheClients.LookedOne | functions/cache/src/causal_cache_versioned_key_handlers.cpp:26-39 | a key that is asked for is sent at its pinned version, and skipped if it is not pinned |
| CacheClients.AcceptAllExact | functions/cache/src/causal_cache_versioned_key_handlers.cpp:65-72 | a request goes on waiting for exactly the keys that were not sent, and per key takes the first version |
| CacheClients.JoinedJoins | functions/cache/src/causal_cache_versioned_key_handlers.cpp:74-98 | the joined reply has for each key awaited elsewhere the first version sent, and for each key read here the version collected |
| CacheClients.RemoteReadsReturnPinned | functions/cache/src/causal_cache_versioned_key_handlers.cpp:17-72 | a cache that has pinned all the versions a request waits for elsewhere completes the request, with those versions |
| CausalCaches.CausalCache.TakeVersions | functions/cache/src/causal_cache_versioned_key_handlers.cpp:64-123 | a waiting request takes the versions, and is answered exactly if it waits for no more: each key awaited elsewhere with the first version sent, each key read here with the version collected, and the missing keys marked |
| CacheClients.JoinedIsOk | functions/cache/src/causal_cache_versioned_key_handlers.cpp:74-98 | a reply that joins local and remote versions answers the whole request, its local part being one snapshot not older than what a reliable report has seen, unless chains are still awaited |
| CacheClients.DeliveredClientsOk | functions/cache/src/causal_cache_versioned_key_handlers.cpp:59-134 | a response keeps every unanswered client served and listed, and answers soundly every address with one request at a time |
| CacheClients.DelistExact | functions/cache/src/causal_cache_versioned_key_handlers.cpp:124-134 | exactly the answered addresses are taken off the client's list, and an empty list is not kept |
| CacheClients.JoinedCoversIff | functions/cache/src/causal_cache_versioned_key_handlers.cpp:74-98 | a reply that joins local and remote versions answers the whole request if and only if every key of the request has been read here, found missing or received |
| CacheClients.EarlyReply | functions/cache/src/causal_cache_versioned_key_handlers.cpp:64-122 | a response that completes a request answers it, and the reply covers the request if and only if each of its keys was collected before or awaited from other caches |
| CausalCaches.OverlapIsAnsweredEarly | functions/cache/src/causal_cache_versioned_key_handlers.cpp:64-122 | a state with every invariant of the cache, two overlapping requests at one address, and a response after which the reply lacks a key |
| CausalCaches.CausalCache.VersionedResponse | functions/cache/src/causal_cache_versioned_key_handlers.cpp:49-135 | exactly the listed requests take the versions, exactly those that wait for no more are answered and delisted, and every invariant survives |
| CacheClients.ClientsAreServed | functions/cache/src/causal_cache_versioned_key_handlers.cpp:59-134 | under the invariants, every answer is sound unless it was sent early to an address that did not wait; every open request waits for a chain that lists it or for caches that have been asked and whose responses find it |
| CausalCaches.ChainsAreServed | functions/cache/src/causal_cache_utils.cpp:103-158 | under the invariants, fetch map and cover map agree, no complete chain is left over, and every chain waits for something that has been asked for |
| CausalCaches.CausalCache.Respond | functions/cache/src/causal_cache_kvs_response_handler.cpp:31-62 | a response, also that a key does not exist, keeps all invariants and leaves no awaited key without a request in flight; it has the whole effect stated of `ProcessResponse`, and one that nobody waits for changes only the unmerged store and what is in flight |
| CausalCaches.CausalCache.Handle | functions/cache/src/causal_cache.cpp:96-214 | every event keeps all invariants, lowers no cut clock, and lets nobody stop waiting without a reply; each has its effect as stated of the handlers: reads, writes with what is stored and sent on, responses and pushed updates of cached keys, other updates changing nothing, timeouts, migration, collected versions, and requests and responses between caches; only a request at an address with an open one is marked, and only keys written or reported without a version are blank |
| CausalCaches.CausalCache.Run | functions/cache/src/causal_cache.cpp:96-214 | after any run: closed cut, unmerged store above the cut; nobody stops waiting without a reply; every reply sound, unless it joins remote versions for an address that did not wait for its answers; every open request waits for a chain that lists it or for caches whose responses find it, and for every key that is not blank such a cache has been asked; fetch map and cover map in agreement, no complete chain left over, every chain waiting for something that is in flight |
| HashRings.PutKeepsSorted | kvs/include/consistent_hash_map.hpp:44-47 | inserting keeps the ring ordered by hash |
| HashRings.PutMember | kvs/include/consistent_hash_map.hpp:44-47 | an insertion adds its entry unless the hash is taken, and removes none |
| HashRings.CutMember | kvs/include/consistent_hash_map.hpp:51-54 | erasing removes the entry with the hash, whoever owns it, and no other |
| HashRings.OrderIsExact | kvs/src/hash_ring/hash_ring.cpp:68-90 | the clockwise order lists every server of the ring exactly once |
| HashRings.OrderIsNearest | kvs/include/consistent_hash_map.hpp:56-67 | in terms of hashes alone: each server in the order has an entry that comes, clockwise from the key's hash, before every entry of all servers after it |
| HashRings.NearestIsUnique | kvs/src/hash_ring/hash_ring.cpp:71-86 | so many distinct servers with that property are determined, with their order |
| HashRings.Responsible | kvs/src/hash_ring/hash_ring.cpp:68-116 | the walk with wrap-around terminates with the first distinct servers clockwise, as many as asked for: each has an entry that comes, clockwise from the hash, before every entry of the servers after it and of those not returned |
| HashRings.DistinctGrows | kvs/src/hash_ring/hash_ring.cpp:77-86 | the servers found on a shorter walk are a prefix of those found on a longer one |
| HashRings.MinimalDisruption | kvs/src/hash_ring/hash_ring.cpp:68-116 | taking a server's virtual nodes out of the ring only deletes that server from the clockwise order of every key |
| HashRings.JoinInsertsOnly | kvs/include/hash_ring.hpp:46-57 | after a join, every key's order is the old one with the new server put in, even when hashes collide |
| HashRings.LeaveRemovesOnly | kvs/include/hash_ring.hpp:60-69 | a leave takes out exactly the server's entries if and only if no other server's entry sits at one of its hashes |
| HashRings.SharedHashIsLost | kvs/include/hash_ring.hpp:46-69 | two servers join that share a hash; when the later one leaves, the other's entry at that hash is gone |
| HashRings.LeaveDeletesOnly | kvs/include/hash_ring.hpp:60-69 | under that condition, every key's order loses that server and nothing else changes |
| HashRings.Displaced | kvs/src/hash_ring/hash_ring.cpp:77-86 | among the first servers, a new one takes the place of exactly the last |
| HashRings.HashRing.Insert | kvs/include/hash_ring.hpp:34-58 | a join is news exactly if the server is unknown or its count is higher; a known server's entries stay, an unknown one's order is only extended |
| HashRings.HashRing.Remove | kvs/include/hash_ring.hpp:60-69 | the server and its count are forgotten and its hashes erased, with the effect on every key's order |
| Replication.OwnersMembers | kvs/src/hash_ring/hash_ring.cpp:42-58 | a thread owns a key exactly if, in some tier, its server and its number are among the first, as many as the factors say |
| Replication.OwnersInOrder | kvs/src/hash_ring/hash_ring.cpp:42-58 | the owners in a tier follow those in the tiers before it |
| Replication.OnServersInOrder | kvs/src/hash_ring/hash_ring.cpp:46-55 | within a tier, the owners come server by server |
| Replication.OnOneServer | kvs/src/hash_ring/hash_ring.cpp:46-55 | and on one server in the order of the thread numbers |
| Replication.ResponsibleThreads | kvs/src/hash_ring/hash_ring.cpp:34-61 | the loops over tiers, servers and threads list exactly the owners in order |
| Replication.RingsGiveValidTiers | kvs/src/hash_ring/hash_ring.cpp:34-61 | walking rings with each server in one tier and one server per local ring gives tiers without repeated servers or thread numbers, as the theorems below ask |
| Replication.OwnersAreNearest | kvs/src/hash_ring/hash_ring.cpp:34-61 | in terms of hashes alone: a thread owns a key exactly if, in some tier, its server is among the nearest clockwise from the key's hash, as many as the global factor says, and its number among the nearest in the local ring |
| Replication.SomeOwnerLost | kvs/src/kvs/replication_change_handler.cpp:80-95 | some owner loses the key if and only if a factor is lowered in a tier that holds replicas |
| Replication.WhoSends | kvs/src/kvs/replication_change_handler.cpp:80-114 | an owner drops the key exactly if it is none any more and then sends it to every new owner; one that stays sends it exactly if it is the first owner and nothing is lowered, to those who are new |
| Replication.DeliveredIff | kvs/src/kvs/replication_change_handler.cpp:47-114 | every new owner is sent the key by an old owner if and only if nobody is new, no factor is lowered, or one is lowered where replicas are stored |
| Replication.RingDeliveredIff | kvs/src/kvs/replication_change_handler.cpp:47-114 | the same for the owners that the rings determine |
| Replication.UndeliveredChange | kvs/src/kvs/replication_change_handler.cpp:97-114 | a family of changes that no owner sends on |
| Replication.DroppedUnsentIff | kvs/src/kvs/replication_change_handler.cpp:85-95 | a thread drops a key without sending it to anybody if and only if the new factors ask for no replica in any tier |
| Replication.ChangeRecipients | kvs/src/monitor/replication_helpers.cpp:137-153 | the monitor's loop tells, tier by tier, as many servers as the larger of the old and the new factor |
| Replication.RecipientsMembers | kvs/src/monitor/replication_helpers.cpp:137-153 | a server is told exactly if, in some tier, it is among the first, as many as the old or the new factor says |
| Replication.RecipientsCoverOwners | kvs/src/monitor/replication_helpers.cpp:137-153 | the servers told about a change include every old and every new owner |
| Replication.RingRecipientsCoverOwners | kvs/src/monitor/replication_helpers.cpp:137-153 | the same for the owners that the rings determine |
| Replication.JoinHandsOver | kvs/src/kvs/node_join_handler.cpp:81-117 | on a first join either no owner changes, or exactly one server is displaced and each of its threads hands the key to every owner |
| Replication.RingJoinHandsOver | kvs/src/kvs/node_join_handler.cpp:81-117 | the same for the ring with the new server's virtual nodes, for every key |
| KvsThreads.IsLowered | kvs/src/kvs/replication_change_handler.cpp:57-78 | the two loops find out whether any factor became smaller |
| KvsThreads.ReactToChange | kvs/src/kvs/replication_change_handler.cpp:47-114 | with the owners computed from the rings under the old and the new factors, the reaction is the one that the theorems speak of |
| KvsThreads.PlanChange | kvs/src/kvs/replication_change_handler.cpp:47-146 | the keys to send and to drop are exactly those of the single reactions to the factors known before, with owners computed from the rings; the new factors are recorded |
| KvsThreads.NothingIsLost | kvs/src/kvs/replication_change_handler.cpp:86-114 | a dropped key has been sent to every owner under the new factors (to nobody exactly if they ask for no replica), and a thread that keeps a key still owns it |
| KvsThreads.ChangeReachesOwnersIff | kvs/src/kvs/replication_change_handler.cpp:47-114 | when every old owner handles the change, every new owner determined by the rings is sent the key by one of them exactly under the condition on the factors |
| KvsThreads.KvsThread.ReplicationChange | kvs/src/kvs/replication_change_handler.cpp:47-156 | all sends precede all drops, every new factor is recorded, a dropped key has been sent to every owner under the new factors, and a kept key whose factors were known is one the thread still owns |
| KvsThreads.FirstJoinHandsOver | kvs/src/kvs/node_join_handler.cpp:81-117 | with the owners before and after read off the ring, an old owner drops the key exactly if its server is the one displaced, and then sends it to every owner; new owners are on the new server |
| KvsThreads.KvsThread.Enrol | kvs/src/kvs/node_join_handler.cpp:33-37 | the server is put into the ring of its tier, which is news exactly if it is unknown or its count is higher; rings and factors still fit |
| KvsThreads.KvsThread.NodeJoin | kvs/src/kvs/node_join_handler.cpp:33-126 | only news of the own tier is acted on, with the owners that the enlarged ring determines: on a first join exactly the keys that the thread no longer owns are marked for removal and scheduled for every owner, and these are the keys of the displaced server; a rejoining server is scheduled exactly what it owns; nothing else is scheduled |
| JoinFlood.StartKeepsInv | kvs/src/kvs/server.cpp:136-169 | a starting server's membership list and announcements keep all invariants of the flooding |
| JoinFlood.StartSends | kvs/src/kvs/server.cpp:156-169 | one announcement goes to each server on the list, and nothing else is sent |
| JoinFlood.DeliverSends | kvs/src/kvs/node_join_handler.cpp:33-71 | news is answered once, with the own join count, and forwarded once to each other known server; nothing else is sent, and old news sends nothing |
| JoinFlood.DeliverKeepsConsistent | kvs/src/kvs/node_join_handler.cpp:33-71 | handling a message keeps records and messages within the servers' own join counts |
| JoinFlood.DeliverKeepsReciprocal | kvs/src/kvs/node_join_handler.cpp:33-71 | whoever knows a server is known to it or a message on the way will tell it |
| JoinFlood.DeliverKeepsIntroduced | kvs/src/kvs/node_join_handler.cpp:53-67 | whom a server learns of, it introduces to everybody it knows; only names on its own start-up list come without an introduction |
| JoinFlood.DeliverKeepsCounted | kvs/src/kvs/node_join_handler.cpp:33-51 | a recorded join count that is behind belongs to a server that has yet to learn of the recording one, or a message on the way will correct it |
| JoinFlood.DeliverMakesProgress | kvs/src/kvs/node_join_handler.cpp:33-71 | a message leaves fewer outdated records, or sends nothing |
| JoinFlood.QuietIsMutual | kvs/src/kvs/node_join_handler.cpp:33-71 | with nothing in flight, knowledge is mutual and every recorded join count is current |
| JoinFlood.RunningMembers | kvs/src/kvs/server.cpp:136-146 | a server runs after some joins exactly if it ran before or joined when everybody on its start-up list ran |
| JoinFlood.QuietIsTransitive | kvs/src/kvs/node_join_handler.cpp:53-67 | with nothing in flight, two servers known to a third one know each other, unless both were on its start-up list |
| JoinFlood.HubMakesComplete | kvs/src/kvs/node_join_handler.cpp:33-71 | with nothing in flight, everybody knows everybody if all start-up lists name one first server, however the joins raced |
| JoinFlood.Run | kvs/src/kvs/node_join_handler.cpp:33-71 | any run with finitely many joins quiesces; exactly the servers whose whole start-up list ran have joined; then knowledge is mutual, every recorded join count is current, and knowledge is complete if all start-up lists name one first server |
| JoinFlood.Boot | kvs/src/kvs/server.cpp:136-169 | the same for a cluster that starts from nothing |
| Dags.GetDagPredecessors | functions/include/server_utils.py:69-76 | the loop lists the source of every incoming edge |
| Dags.PredecessorsAreEdges | functions/include/server_utils.py:69-76 | a name is listed exactly if there is such an edge |
| Dags.PredecessorsInOrder | functions/include/server_utils.py:69-76 | the predecessors come in the order of the edges |
| Dags.PredecessorsOfEdge | functions/include/server_utils.py:69-76 | an edge into the function contributes its source, any other edge nothing |
| Dags.FindDagSource | functions/scheduler/utils.py:128-137 | fails exactly if an edge leads to an unknown function, and otherwise returns the functions without incoming edges |
| Dags.Executor.HandleSchedule | functions/executor/server.py:147-181 | a schedule runs its function exactly if as many triggers are here as it lists; other calls are untouched |
| Dags.Executor.HandleTrigger | functions/executor/server.py:186-216 | a trigger is stored under its source, and runs the function exactly if schedule and triggers are complete; other calls are untouched |
| Dags.ExecDagFunction | functions/executor/call.py:121-151 | the function runs on a list that consists, position by position, of the client's arguments and then of what each trigger carries, in the schedule's order; one trigger with the result is sent per outgoing edge |
| Dags.InputsAreArguments | functions/executor/call.py:124-128 | gathering the triggers one by one gives such a list |
| Dags.ArgumentsAreDetermined | functions/executor/call.py:124-128 | there is only one such list |
| Dags.InputsInOrder | functions/executor/call.py:126-128 | what earlier triggers carry comes before what later ones carry |
| Dags.InputsOfTrigger | functions/executor/call.py:126-128 | a trigger contributes what it carries |
| Dags.FanoutMembers | functions/executor/call.py:133-151 | the messages sent are exactly the triggers along outgoing edges, carrying the result |
| Dags.FanoutInOrder | functions/executor/call.py:133-151 | they go out in the order of the edges |
| Dags.FanoutOfEdge | functions/executor/call.py:133-151 | an outgoing edge contributes one trigger with the result, any other edge nothing |
| Dags.InitialHolds | functions/scheduler/call.py:90-113 | the scheduler's messages establish the invariants |
| Dags.ReadyIsComplete | functions/executor/server.py:165-175 | counting triggers is enough: a function that is ready has exactly the triggers of its predecessors, each listed once, and never ran before |
| Dags.FireKeepsInv | functions/executor/call.py:121-151 | running a ready function keeps every invariant: one schedule each, genuine triggers, none lost, order and results |
| Dags.DeliverKeepsInv | functions/executor/server.py:147-216 | every message, in any order, keeps every invariant |
| Dags.DuplicateKeepsInv | functions/executor/server.py:186-216 | so does the duplication of a trigger |
| Dags.AtMostOnce | functions/executor/server.py:165-175 | no function runs twice, even if triggers are duplicated |
| Dags.DeliverMakesProgress | functions/executor/server.py:147-216 | every message runs a new function or leaves fewer messages |
| Dags.CompleteIff | functions/executor/server.py:147-216 | with no message left, every function has run if and only if the graph is acyclic and repeats no edge |
| Dags.AcyclicIff | functions/scheduler/utils.py:128-137 | a graph can be numbered along its edges if and only if no walk returns to its start |
| Dags.ResultsAreDetermined | functions/executor/call.py:121-151 | the results of an acyclic request are unique, so they do not depend on the order of delivery |
| Dags.Execute | functions/scheduler/call.py:90-113 | any schedule with finitely many duplicates comes to rest; no function has run twice; every function that ran was given the client's arguments and, position by position, the results of its predecessors; completeness as above; the results are the ones the request determines |
| Dags.ComputeChildren | functions/executor/call.py:352-364 | the fixed point lists exactly the functions reachable along edges, each once |
| CacheIndex.Index.Update | kvs/src/kvs/cache_ip_response_handler.cpp:41-66 | the cache's entry becomes exactly the reported keys, other caches keep theirs, and both directions stay inverse |
| CacheIndex.LatestCounts | kvs/src/kvs/cache_ip_response_handler.cpp:24-73 | the keys of a cache are those of the last report about it without an error, or what they were if there is none |
| CacheIndex.Index.HandleResponse | kvs/src/kvs/cache_ip_response_handler.cpp:24-73 | per cache the last report without an error counts; errors change nothing; both directions stay inverse |
| CacheIndex.Index.Refresh | kvs/src/kvs/server.cpp:617-633 | exactly the caches that are no longer listed lose their entries, in both directions |
| OrderedSets.IndexOf | kvs/client/python/anna/lattices.py:118-130 | binary search finds a present value, and otherwise the one place where it fits |
| OrderedSets.ListBasedOrderedSet.Insert | kvs/client/python/anna/lattices.py:101-110 | the list stays strictly ascending and gains exactly the value |
| OrderedSets.ListBasedOrderedSet.FromList | kvs/client/python/anna/lattices.py:95-98 | the list becomes the ascending list of the values, and an ascending one stays as it is |
| OrderedSets.AscendingIsCanonical | kvs/client/python/anna/lattices.py:93-98 | a set has exactly one strictly ascending list |
| OrderedSets.Merge | kvs/client/python/anna/lattices.py:147-180 | the lockstep merge is the ascending list of the union |
| OrderedSets.MergeLaws | kvs/client/python/anna/lattices.py:147-180 | merging is commutative, associative and idempotent as equality of lists |

## Left out

- Sockets, polling, protobuf encoding, logging, configuration and benchmarks; messages are values, a send is an entry in a log or a message in flight.
- Reads with SINGLE consistency: they make no promise about a closed cut.
- The list of versioned keys in a reply, with the empty entry that building it may leave in the version store, and the grouping of requests to one cache into one message; a request without an addressee is sent to nobody.
- Responses to writes and their request identifiers, and retries of writes after a timeout.
- EBS serializers, the LRU list of the async cache and client retries: file I/O, time and randomness.
- The batched drain of keys scheduled by a join, departures of servers, and restarts with a lost ring.
- Monitoring policies, and counters over floating point numbers or beyond the range of `unsigned`.
- Hash functions, the random choice of a worker and user functions are parameters or nondeterministic choices.
- Replication factors of metadata keys, which are fixed constants.
- Causal-mode argument handling of executors, the response of a sink function and its output key; duplicated schedules.
- CacheClients.JoinedIsOk: the snapshot and the comparison with what the client has seen are stated for the versions read here; a version from another cache is whatever that cache had pinned.
- HashRings.Responsible: assumes, as the source does, that a factor does not exceed the number of servers; the walk would not end otherwise.
- Replication.ResponsibleThreads: the thread numbers of a server come in clockwise order; the source keeps them in an unordered set, whose order all threads of a key must agree on for the choice of the first owner.
- KvsThreads.KvsThread.NodeJoin: a key without known factors is skipped, as in the source; the messages that spread the news are those of `JoinFlood`.
- JoinFlood.Run: a start-up list names running servers, and a server starts once.
- Dags.Execute: schedules arrive once, as the transport delivers them.
