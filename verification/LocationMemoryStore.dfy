/** The in-memory store of the location service, updated in place (mods/location/src/memory_store.ts). */
module LocationMemoryStore {
  import opened Wrappers
  import opened CommonTypes
  import opened BindingStore
  import opened CleanupCounter

  class MemoryStore {
    var collections: Collections
    var cleanupCount: Counter
    const maxCyclesBeforeCleanup: int

    constructor (maxCyclesBeforeCleanup: int := MAX_CYCLES_BEFORE_CLEANUP)
      ensures collections == map[] && cleanupCount.NaN?
      ensures this.maxCyclesBeforeCleanup == maxCyclesBeforeCleanup
    {
      collections := map[];
      cleanupCount := NaN;
      this.maxCyclesBeforeCleanup := maxCyclesBeforeCleanup;
    }

    method Put(key: string, route: Option<Route>, now: int) returns (r: Result<(), Error>)
      modifies this`collections
      ensures r.Ok? ==> Store(old(collections), key, route, now) == Ok(collections)
      ensures r.Err? ==> Store(old(collections), key, route, now) == Err(r.error) && collections == old(collections)
    {
      if key in collections && collections[key].Undefined? {
        return Err(TypeError);
      }
      var routes := if key in collections then collections[key].routes else [];
      var filteredRoutes := LiveOf(routes, now);
      if route.None? {
        if filteredRoutes != [] {
          return Err(TypeError);
        }
        collections := collections[key := Undefined];
      } else {
        filteredRoutes := Without(filteredRoutes, route.value);
        if |filteredRoutes| > 0 {
          collections := collections[key := Routes([route.value] + filteredRoutes)];
        } else {
          collections := collections[key := Routes([route.value])];
          assert [route.value] + filteredRoutes == [route.value];
        }
      }
      return Ok(());
    }

    /**
     As constructed the counter stays `NaN` and the automatic cleanup never starts. With a counter that
     counts it may start, and then the lookup still answers as before it or raises what the cleanup raised.
     */
    method Get(key: string, now: int) returns (r: Result<seq<Route>, Error>)
      modifies this
      ensures old(cleanupCount).NaN? ==>
                && cleanupCount.NaN?
                && collections == old(collections)
                && r == Lookup(old(collections), key, now)
      ensures exists visited :: collections == Prune(old(collections), visited, now)
      ensures r.Ok? ==> r == Lookup(old(collections), key, now)
      ensures r.Err? ==> r.error == TypeError && exists k :: k in old(collections) && old(collections)[k].Undefined?
      ensures r.Ok? ==> forall q :: q in r.value <==>
                && key in old(collections) && old(collections)[key].Routes? && q in old(collections)[key].routes
                && now < q.registeredOn + 1000 * q.expires
    {
      ghost var before := collections;
      PruneNothing(before, now);
      if key in before && before[key].Routes? {
        LiveOfMembers(before[key].routes, now);
      }
      cleanupCount := cleanupCount.Next();
      if cleanupCount.AtLeast(maxCyclesBeforeCleanup) {
        cleanupCount := Count(0);
        var done := Cleanup(now);
        if done.Err? {
          return Err(done.error);
        }
        LookupAfterPrune(before, before.Keys, now, key, now);
      }
      if key in collections && collections[key].Undefined? {
        return Err(TypeError);
      }
      r := Ok(LiveOf(if key in collections then collections[key].routes else [], now));
    }

    method Remove(key: string)
      modifies this`collections
      ensures collections == Delete(old(collections), key)
    {
      collections := collections - {key};
    }

    /** Runs to the end, over every key, exactly when no key holds `undefined`. */
    method Cleanup(now: int) returns (r: Result<(), Error>)
      modifies this`collections
      ensures r.Ok? <==> forall k :: k in old(collections) ==> old(collections)[k].Routes?
      ensures r.Ok? ==> collections == Prune(old(collections), old(collections).Keys, now)
      ensures r.Err? ==> r.error == TypeError && exists visited :: collections == Prune(old(collections), visited, now)
    {
      ghost var before, visited := collections, {};
      PruneNothing(before, now);
      var pending := collections.Keys;
      while pending != {}
        invariant visited !! pending && visited + pending == before.Keys
        invariant collections == Prune(before, visited, now)
        invariant forall k :: k in visited ==> before[k].Routes?
        decreases pending
      {
        var key :| key in pending;
        if collections[key].Undefined? {
          return Err(TypeError);
        }
        var filteredRoutes := LiveOf(collections[key].routes, now);
        if |filteredRoutes| > 0 {
          collections := collections[key := Routes(filteredRoutes)];
        } else {
          collections := collections - {key};
        }
        pending := pending - {key};
        visited := visited + {key};
      }
      assert visited == before.Keys;
      return Ok(());
    }
  }

  lemma PruneNothing(c: Collections, now: int)
    ensures Prune(c, {}, now) == c
  {}
}
