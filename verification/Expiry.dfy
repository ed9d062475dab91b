/**
 What registering means in time: a route is answered from its registration until its own expiry and not longer, over
 every run (mods/location/src/utils.ts, mods/location/src/memory_store.ts, mods/location/src/location.ts). Time is in
 milliseconds, a route's `expires` in seconds; the statements here are in those fields alone.
 */
module Expiry {
  import opened Wrappers
  import opened CommonTypes
  import opened BindingStore
  import opened LocationSteps
  import opened QueryEffects

  /** Less than `expires` seconds have passed since the registration. */
  predicate InTime(r: Route, now: int) {
    now < r.registeredOn + 1000 * r.expires
  }

  predicate SameAddress(a: Route, b: Route) {
    (a.host, a.port, a.transport) == (b.host, b.port, b.transport)
  }

  /** The call neither removes the address of record, nor registers the same host, port and transport for it again. */
  predicate LeavesAlone(op: Op, aor: string, r: Route) {
    match op
    case Add(a, route, _) => a == aor ==> !SameAddress(route, r)
    case Find(req) => !AddsToCall(req, aor)
    case RemoveAll(a) => a != aor
    case Cleanup(_) => true
  }

  lemma AnsweredInTime(c: Collections, key: string, now: int, r: Route)
    requires ReadFrom(c, key, now, r)
    ensures InTime(r, now)
  {
    if key in c {
      LiveOfMembers(c[key].routes, now);
    }
  }

  lemma StillAnswered(c: Collections, key: string, now: int, later: int, r: Route)
    requires ReadFrom(c, key, now, r) && now <= later
    ensures ReadFrom(c, key, later, r) <==> InTime(r, later)
  {
    LookupLater(c, key, now, later);
    LiveOfMembers(Lookup(c, key, now).value, later);
  }

  /** Storing for an address of record: the new route is answered while in time, the others but for the same address. */
  lemma StoredIsAnswered(c: Collections, aor: string, route: Route, now: int, q: Route)
    requires Lookup(c, aor, now).Ok?
    ensures ReadFrom(Store(c, aor, Some(route), now).value, aor, now, q) <==>
              (q == route && InTime(q, now)) || (ReadFrom(c, aor, now, q) && !SameAddress(q, route))
  {
    LookupAfterStore(c, aor, route, now, aor, now);
    LookupLater(c, aor, now, now);
    LiveOfMembers([route], now);
    WithoutMembers(Lookup(c, aor, now).value, route);
  }

  /**
   An accepted add: from now on the address of record answers the new route while it is in time, and of the others
   exactly those with another host, port or transport, whatever their user.
   */
  lemma AddAnswersTheNewAndKeepsTheOthers(s: State, aor: string, route: Route, maxContacts: int, now: int, q: Route)
    requires AddRoute(s, aor, route, maxContacts, now).1 == Accepted
    ensures ReadFrom(AddRoute(s, aor, route, maxContacts, now).0.bindings, aor, now, q) <==>
              (q == route && InTime(q, now)) || (ReadFrom(s.bindings, aor, now, q) && !SameAddress(q, route))
  {
    StoredIsAnswered(s.bindings, aor, route, now, q);
  }

  /** A call that leaves the registration alone keeps its route among the answers. */
  lemma StepKeepsTheRoute(s: State, call: Call, aor: string, r: Route)
    requires ReadFrom(s.bindings, aor, call.now, r) && LeavesAlone(call.op, aor, r)
    ensures ReadFrom(Step(s, call).0.bindings, aor, call.now, r)
  {
    var now := call.now;
    AnsweredInTime(s.bindings, aor, now, r);
    match call.op
    case Add(a, route, _) =>
      if Lookup(s.bindings, a, now).Ok? {
        if a == aor {
          StoredIsAnswered(s.bindings, aor, route, now, r);
        } else {
          LookupAfterStore(s.bindings, a, route, now, aor, now);
        }
      }
    case Find(req) => FindEffect(s, req, now, aor, now);
    case RemoveAll(_) =>
    case Cleanup(visited) => LookupAfterPrune(s.bindings, visited, now, aor, now);
  }

  lemma {:induction false} KeptWhileInTime(s: State, calls: seq<Call>, i: nat, j: nat, aor: string, r: Route)
    requires Chronological(calls) && i < j <= |calls|
    requires ReadFrom(After(s, calls, i + 1).bindings, aor, calls[i].now, r)
    requires forall k :: i < k < j ==> LeavesAlone(calls[k].op, aor, r)
    requires InTime(r, calls[j - 1].now)
    ensures ReadFrom(After(s, calls, j).bindings, aor, calls[j - 1].now, r)
  {
    hide Step, ReadFrom, LeavesAlone;
    if j > i + 1 {
      assert InTime(r, calls[j - 2].now) by { EarlierInTime(r, calls[j - 2].now, calls[j - 1].now); }
      KeptWhileInTime(s, calls, i, j - 1, aor, r);
      StillAnswered(After(s, calls, j - 1).bindings, aor, calls[j - 2].now, calls[j - 1].now, r);
      StepKeepsTheRoute(After(s, calls, j - 1), calls[j - 1], aor, r);
    }
  }

  lemma EarlierInTime(r: Route, now: int, later: int)
    requires InTime(r, later) && now <= later
    ensures InTime(r, now)
  {
  }

  /**
   A route that an add registered is among the answers of every later look-up of its address of record if and only if
   the look-up comes less than `expires` seconds after `registeredOn`, as long as nothing removes it or registers
   the same address again, and whatever else happens.
   */
  lemma RegisteredIsAnsweredIffInTime(s: State, calls: seq<Call>, i: nat, j: nat, aor: string, r: Route, at: int)
    requires Chronological(calls) && i < j <= |calls| && calls[j - 1].now <= at
    requires calls[i].op.Add? && calls[i].op.aor == aor && calls[i].op.route == r && ReplyAt(s, calls, i) == Accepted
    requires forall k :: i < k < j ==> LeavesAlone(calls[k].op, aor, r)
    ensures ReadFrom(After(s, calls, j).bindings, aor, at, r) <==> at < r.registeredOn + 1000 * r.expires
  {
    hide ReadFrom, LeavesAlone;
    if InTime(r, at) {
      EarlierInTime(r, calls[j - 1].now, at);
      EarlierInTime(r, calls[i].now, at);
      AddAnswersTheNewAndKeepsTheOthers(After(s, calls, i), aor, r, calls[i].op.maxContacts, calls[i].now, r);
      KeptWhileInTime(s, calls, i, j, aor, r);
      StillAnswered(After(s, calls, j).bindings, aor, calls[j - 1].now, at, r);
    } else if ReadFrom(After(s, calls, j).bindings, aor, at, r) {
      AnsweredInTime(After(s, calls, j).bindings, aor, at, r);
    }
  }

  /** A query without labels chooses from a registered route if and only if the query comes in time. */
  lemma RegisteredIsACandidateIffInTime(s: State, calls: seq<Call>, i: nat, j: nat, r: Route)
    requires Chronological(calls) && i < j < |calls| && calls[j].op.Find? && !calls[j].op.req.Labelled()
    requires calls[i].op.Add? && calls[i].op.aor == calls[j].op.req.aor && calls[i].op.route == r
    requires ReplyAt(s, calls, i) == Accepted
    requires forall k :: i < k < j ==> LeavesAlone(calls[k].op, calls[i].op.aor, r)
    ensures var found := Candidates(After(s, calls, j).bindings, calls[j].op.req, calls[j].now);
            (found.Ok? && r in found.value) <==> calls[j].now < r.registeredOn + 1000 * r.expires
  {
    RegisteredIsAnsweredIffInTime(s, calls, i, j, calls[i].op.aor, r, calls[j].now);
  }

  /** The first query of a call without a backend answers a registered route if and only if the query comes in time. */
  lemma FirstQueryAnswersItIffInTime(s: State, calls: seq<Call>, i: nat, j: nat, r: Route)
    requires Chronological(calls) && i < j < |calls| && calls[j].op.Find? && !calls[j].op.req.Labelled()
    requires calls[j].op.req.backend.None?
    requires Lookup(After(s, calls, j).bindings, calls[j].op.req.StickyKey(), calls[j].now) == Ok([])
    requires calls[i].op.Add? && calls[i].op.aor == calls[j].op.req.aor && calls[i].op.route == r
    requires ReplyAt(s, calls, i) == Accepted
    requires forall k :: i < k < j ==> LeavesAlone(calls[k].op, calls[i].op.aor, r)
    ensures var reply := ReplyAt(s, calls, j);
            (reply.Found? && r in reply.routes) <==> calls[j].now < r.registeredOn + 1000 * r.expires
  {
    RegisteredIsACandidateIffInTime(s, calls, i, j, r);
  }

  /**
   The first query of a call that balances, by round-robin from the start or by sessions, answers the one binding of its
   address of record if and only if the query comes in time, and else answers none.
   */
  lemma SoleBindingIsAnsweredIffInTime(s: State, calls: seq<Call>, i: nat, j: nat, r: Route)
    requires Chronological(calls) && i < j < |calls| && calls[j].op.Find? && !calls[j].op.req.Labelled()
    requires calls[j].op.req.backend.Some? && !calls[j].op.req.WithAffinity()
    requires calls[i].op.Add? && calls[i].op.aor == calls[j].op.req.aor && calls[i].op.route == r
    requires ReplyAt(s, calls, i) == Accepted
    requires forall k :: i < k < j ==> LeavesAlone(calls[k].op, calls[i].op.aor, r)
    requires var before, req, now := After(s, calls, j), calls[j].op.req, calls[j].now;
             && Lookup(before.bindings, req.StickyKey(), now) == Ok([]) && Lookup(before.bindings, req.aor, now).Ok?
             && (forall q :: ReadFrom(before.bindings, req.aor, now, q) ==> q == r)
             && Position(before.rrCount, req.CounterRef()) == 0
    ensures ReplyAt(s, calls, j) == Found(if calls[j].now < r.registeredOn + 1000 * r.expires then [r] else [])
  {
    hide FindRoutes, LeavesAlone, After;
    RegisteredIsACandidateIffInTime(s, calls, i, j, r);
    var before, req, now := After(s, calls, j), calls[j].op.req, calls[j].now;
    var routes := Lookup(before.bindings, req.aor, now).value;
    forall q | q in routes ensures q == r {
      assert ReadFrom(before.bindings, req.aor, now, q);
    }
    AnswersTheOneThereIs(before, req, now, routes, r);
  }

  lemma AnswersTheOneThereIs(s: State, req: FindRequest, now: int, routes: seq<Route>, r: Route)
    requires req.backend.Some? && !req.WithAffinity() && !req.Labelled() && Position(s.rrCount, req.CounterRef()) == 0
    requires Lookup(s.bindings, req.StickyKey(), now) == Ok([]) && Lookup(s.bindings, req.aor, now) == Ok(routes)
    requires forall q :: q in routes ==> q == r
    ensures FindRoutes(s, req, now).1 == Found(if r in routes then [r] else [])
  {
    ChoosesTheOneThereIs(s.rrCount, routes, req, r);
    hide LiveOf, Without;
    assert Candidates(s.bindings, req, now) == Ok(routes);
  }

  lemma ChoosesTheOneThereIs(rrCount: map<string, nat>, routes: seq<Route>, req: FindRequest, r: Route)
    requires Position(rrCount, req.CounterRef()) == 0 && forall q :: q in routes ==> q == r
    ensures Next(rrCount, routes, req).1 == if r in routes then Some(r) else None
  {
    if routes != [] {
      assert routes[0] in routes;
      var sorted := SortBySessions(routes);
      SortMembers(routes);
      hide SortBySessions;
      assert |sorted| == |multiset(sorted)| == |routes|;
      assert sorted[0] in multiset(sorted);
      assert sorted[0] in multiset(routes) && sorted[0] in routes;
    }
  }

  /** No query, of whatever kind, answers a route that is out of time. */
  lemma EveryAnswerIsInTime(s: State, req: FindRequest, now: int, r: Route)
    requires FindRoutes(s, req, now).1.Found? && r in FindRoutes(s, req, now).1.routes
    ensures now < r.registeredOn + 1000 * r.expires
  {
    if !ReadFrom(s.bindings, req.StickyKey(), now, r) {
      CandidatesAreSources(s.bindings, req, now);
      if req.backend.Some? {
        ChooseEffect(s, req, now, req.StickyKey(), now);
      }
      SourceIsLive(s.bindings, req, now, r);
    } else {
      AnsweredInTime(s.bindings, req.StickyKey(), now, r);
    }
  }

  /** Removing an address of record leaves it without answers, and every other key as it was. */
  lemma RemovedIsNotAnswered(s: State, aor: string, now: int, key: string, at: int)
    ensures Lookup(Step(s, At(now, RemoveAll(aor))).0.bindings, key, at) ==
            if key == aor then Ok([]) else Lookup(s.bindings, key, at)
  {
  }
}
