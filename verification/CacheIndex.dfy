/**
  A storage thread's record of which cache holds which key, kept in both directions and
  refreshed from what the caches report.
 */
module CacheIndex {

  type Key = string
  type Address = string

  /** One answer about the keys of a cache. */
  datatype Report = Report(cache: Address, error: nat, keys: seq<Key>)

  function Reported(keys: seq<Key>): set<Key> {
    set k | k in keys
  }

  /** The keys of a cache after some reports, of which the last one without an error counts. */
  function Latest(reports: seq<Report>, cache: Address, before: set<Key>): set<Key> {
    if reports == [] then before
    else
      var last := reports[|reports| - 1];
      if last.cache == cache && last.error == 0 then Reported(last.keys)
      else Latest(reports[..|reports| - 1], cache, before)
  }

  /** Report `i` is the last one about the cache without an error. */
  ghost predicate Counts(reports: seq<Report>, cache: Address, i: int) {
    && 0 <= i < |reports| && reports[i].cache == cache && reports[i].error == 0
    && forall j | i < j < |reports| :: reports[j].cache != cache || reports[j].error != 0
  }

  /** No report about the cache is without an error. */
  ghost predicate NoneCounts(reports: seq<Report>, cache: Address) {
    forall i | 0 <= i < |reports| :: reports[i].cache != cache || reports[i].error != 0
  }

  lemma {:induction false} LatestCounts(reports: seq<Report>, cache: Address, before: set<Key>, i: int)
    ensures Counts(reports, cache, i) ==> Latest(reports, cache, before) == Reported(reports[i].keys)
    ensures NoneCounts(reports, cache) ==> Latest(reports, cache, before) == before
  {
    if reports != [] {
      var n := |reports| - 1;
      var init, last := reports[..n], reports[n];
      LatestCounts(init, cache, before, i);
      if last.cache != cache || last.error != 0 {
        assert Latest(reports, cache, before) == Latest(init, cache, before);
        if Counts(reports, cache, i) {
          assert init[i] == reports[i] && Counts(init, cache, i);
        }
        if NoneCounts(reports, cache) {
          assert NoneCounts(init, cache);
        }
      }
    }
  }

  /** The keys of a cache, or the caches of a key. */
  function At(m: map<string, set<string>>, x: string): set<string> {
    if x in m then m[x] else {}
  }

  /** The two directions are inverse relations. */
  ghost predicate Inverse(keysOf: map<Address, set<Key>>, cachesOf: map<Key, set<Address>>) {
    forall a, k :: k in At(keysOf, a) <==> a in At(cachesOf, k)
  }

  class Index {
    var keysOf: map<Address, set<Key>>
    var cachesOf: map<Key, set<Address>>
    var extant: set<Address>

    ghost function Keys(cache: Address): set<Key>
      reads `keysOf
    {
      At(keysOf, cache)
    }

    ghost function Caches(key: Key): set<Address>
      reads `cachesOf
    {
      At(cachesOf, key)
    }

    ghost predicate Valid()
      reads `keysOf, `cachesOf
    {
      Inverse(keysOf, cachesOf)
    }

    constructor ()
      ensures Valid() && forall a :: Keys(a) == {}
    {
      keysOf, cachesOf, extant := map[], map[], {};
    }

    /** The caches of a key without one of them. */
    method Forget(cache: Address, gone: set<Key>)
      modifies `cachesOf
      ensures forall k :: Caches(k) == if k in gone then old(Caches(k)) - {cache} else old(Caches(k))
    {
      var todo := gone;
      while todo != {}
        invariant todo <= gone
        invariant forall k :: Caches(k) == if k in gone - todo then old(Caches(k)) - {cache} else old(Caches(k))
        decreases todo
      {
        var key :| key in todo;
        cachesOf := cachesOf[key := At(cachesOf, key) - {cache}];
        todo := todo - {key};
      }
    }

    method Record(cache: Address, keys: seq<Key>)
      modifies `keysOf, `cachesOf
      ensures forall a :: Keys(a) == if a == cache then old(Keys(a)) + Reported(keys) else old(Keys(a))
      ensures forall k :: Caches(k) == if k in keys then old(Caches(k)) + {cache} else old(Caches(k))
    {
      for i := 0 to |keys|
        invariant forall a :: Keys(a) == if a == cache then old(Keys(a)) + Reported(keys[..i]) else old(Keys(a))
        invariant forall k :: Caches(k) == if k in keys[..i] then old(Caches(k)) + {cache} else old(Caches(k))
      {
        var key := keys[i];
        assert keys[..i + 1] == keys[..i] + [key];
        keysOf := keysOf[cache := At(keysOf, cache) + {key}];
        cachesOf := cachesOf[key := At(cachesOf, key) + {cache}];
      }
      assert keys[..|keys|] == keys;
    }

    /** A report replaces what was known about its cache, in both directions. */
    method Update(cache: Address, keys: seq<Key>)
      requires Valid()
      modifies `keysOf, `cachesOf
      ensures Valid()
      ensures forall a :: Keys(a) == if a == cache then Reported(keys) else old(Keys(a))
    {
      var gone := At(keysOf, cache) - Reported(keys);
      Forget(cache, gone);
      keysOf := keysOf[cache := {}];
      Record(cache, keys);
      forall a, k ensures k in At(keysOf, a) <==> a in At(cachesOf, k) {
        assert k in At(old(keysOf), a) <==> a in At(old(cachesOf), k);
        assert Keys(a) == At(keysOf, a) && Caches(k) == At(cachesOf, k);
      }
    }

    method HandleResponse(reports: seq<Report>)
      requires Valid()
      modifies `keysOf, `cachesOf
      ensures Valid()
      ensures forall a :: Keys(a) == Latest(reports, a, old(Keys(a)))
    {
      for i := 0 to |reports|
        invariant Valid()
        invariant forall a :: Keys(a) == Latest(reports[..i], a, old(Keys(a)))
      {
        assert reports[..i + 1][..i] == reports[..i];
        if reports[i].error == 0 {
          Update(reports[i].cache, reports[i].keys);
        }
      }
      assert reports[..|reports|] == reports;
    }

    /** A cache that is gone is dropped from the entries of all keys. */
    method Drop(cache: Address)
      requires Valid()
      modifies `keysOf, `cachesOf
      ensures Valid()
      ensures forall a :: Keys(a) == if a == cache then {} else old(Keys(a))
    {
      keysOf := keysOf - {cache};
      Forget(cache, cachesOf.Keys);
      forall a, k ensures k in At(keysOf, a) <==> a in At(cachesOf, k) {
        assert k in At(old(keysOf), a) <==> a in At(old(cachesOf), k);
        assert Keys(a) == At(keysOf, a) && Caches(k) == At(cachesOf, k);
      }
    }

    /** Only the caches that are no longer listed are dropped. */
    method Refresh(nodes: seq<Address>)
      requires Valid()
      modifies this
      ensures Valid() && extant == set n | n in nodes
      ensures forall a :: Keys(a) == if a in old(extant) && a !in nodes then {} else old(Keys(a))
    {
      var deleted := extant - set n | n in nodes;
      extant := set n | n in nodes;
      var todo := deleted;
      while todo != {}
        invariant Valid() && todo <= deleted && extant == set n | n in nodes
        invariant forall a :: Keys(a) == if a in deleted - todo then {} else old(Keys(a))
        decreases todo
      {
        var cache :| cache in todo;
        Drop(cache);
        todo := todo - {cache};
      }
    }
  }
}
