/** The location service over its in-memory store, with its fields updated in place (mods/location/src/location.ts). */
module LocationService {
  import opened Wrappers
  import opened CommonTypes
  import opened BindingStore
  import opened LocationSteps
  import opened LocationMemoryStore
  import Expiry

  class Location {
    const store: MemoryStore
    var rrCount: map<string, nat>

    /** The store's cleanup counter is still the `NaN` it becomes on first use. */
    ghost predicate Valid()
      reads this, store
    {
      store.cleanupCount.NaN?
    }

    ghost function Value(): State
      reads this, store
    {
      State(store.collections, rrCount)
    }

    constructor (store: MemoryStore)
      requires store.cleanupCount.NaN?
      ensures this.store == store && Valid()
      ensures Value() == State(store.collections, map[])
    {
      this.store := store;
      rrCount := map[];
    }

    method AddRoute(aor: string, route: Route, maxContacts: int, now: int) returns (reply: Reply)
      requires Valid()
      modifies store
      ensures Valid()
      ensures (Value(), reply) == LocationSteps.AddRoute(old(Value()), aor, route, maxContacts, now)
    {
      if !Supported(aor) {
        return Failed(UnsupportedSchema(aor));
      }
      var found := store.Get(aor, now);
      if found.Err? {
        return Failed(found.error);
      }
      var existingRoutes := found.value;
      var routeAlreadyExists := exists i :: 0 <= i < |existingRoutes| && SameContact(existingRoutes[i], route);
      if !routeAlreadyExists && maxContacts != -1 && |existingRoutes| >= maxContacts {
        return Failed(TooManyContacts(maxContacts));
      }
      var stored := store.Put(aor, Some(route), now);
      assert stored.Ok?;
      return Accepted;
    }

    method FindRoutes(req: FindRequest, now: int) returns (reply: Reply)
      requires Valid()
      modifies this, store
      ensures Valid()
      ensures (Value(), reply) == LocationSteps.FindRoutes(old(Value()), req, now)
      ensures reply.Found? ==> forall r :: r in reply.routes ==> now < r.registeredOn + 1000 * r.expires
    {
      ghost var expected := LocationSteps.FindRoutes(Value(), req, now).1;
      forall r | expected.Found? && r in expected.routes ensures now < r.registeredOn + 1000 * r.expires {
        Expiry.EveryAnswerIsInTime(Value(), req, now, r);
      }
      var remembered := store.Get(req.StickyKey(), now);
      if remembered.Err? {
        return Failed(remembered.error);
      }
      if |remembered.value| > 0 {
        return Found(remembered.value);
      }
      var found: Result<seq<Route>, Error>;
      if req.Labelled() {
        // The second look-up reads the very key that has just answered nothing.
        found := store.Get(req.StickyKey(), now);
        if found.Ok? && |found.value| == 0 {
          found := store.Get(req.aor, now);
          if found.Ok? {
            found := Ok(OnlyMatchingLabels(found.value, req.labels.value.pairs));
          }
        }
      } else {
        found := store.Get(req.aor, now);
      }
      if found.Err? {
        return Failed(found.error);
      }
      var routes := found.value;
      if req.backend.None? {
        var stored := store.Put(req.CallKey(), Head(routes), now);
        return if stored.Ok? then Found(routes) else Failed(stored.error);
      }
      var r: Option<Route>;
      if req.WithAffinity() {
        var chosen := NextWithAffinity(routes, req.sessionAffinityRef, now);
        if chosen.Err? {
          return Failed(chosen.error);
        }
        r := chosen.value;
      } else {
        r := Next(routes, req);
      }
      if r.None? {
        return Found([]);
      }
      var stored := store.Put(req.StickyKey(), r, now);
      reply := if stored.Ok? then Found([r.value]) else Failed(stored.error);
    }

    method RemoveRoutes(aor: string)
      requires Valid()
      modifies store
      ensures Valid()
      ensures Value() == Step(old(Value()), At(0, RemoveAll(aor))).0
    {
      store.Remove(aor);
    }

    method Next(routes: seq<Route>, req: FindRequest) returns (result: Option<Route>)
      modifies this
      ensures (rrCount, result) == LocationSteps.Next(old(rrCount), routes, req)
    {
      if req.backend.Some? && req.backend.value.balancingAlgorithm == LEAST_SESSIONS {
        var sorted := SortBySessions(routes);
        return Head(sorted);
      }
      var ref := req.CounterRef();
      var nextPosition := Position(rrCount, ref);
      result := if nextPosition < |routes| then Some(routes[nextPosition]) else None;
      if nextPosition >= |routes| - 1 {
        rrCount := rrCount[ref := 0];
      } else {
        rrCount := rrCount[ref := nextPosition + 1];
      }
    }

    method NextWithAffinity(routes: seq<Route>, ref: string, now: int) returns (result: Result<Option<Route>, Error>)
      requires Valid()
      modifies store
      ensures Valid()
      ensures match LocationSteps.NextWithAffinity(old(store.collections), routes, ref, now)
              case Ok((bindings, r)) => store.collections == bindings && result == Ok(r)
              case Err(e) => store.collections == old(store.collections) && result == Err(e)
    {
      var held := store.Get(ref, now);
      if held.Err? {
        return Err(held.error);
      }
      if |held.value| > 0 {
        return Ok(Some(held.value[0]));
      }
      var sorted := SortBySessions(routes);
      var stored := store.Put(ref, Head(sorted), now);
      assert stored.Ok?;
      return Ok(Head(sorted));
    }
  }
}
