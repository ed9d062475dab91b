/** Calls and affinity references keep the route they were given, over every run of the service. */
module Stickiness {
  import opened Wrappers
  import opened CommonTypes
  import opened BindingStore
  import opened LocationSteps
  import opened QueryEffects

  /** As long as the first of `routes` is live, the key answers exactly the live ones among them. */
  ghost predicate Keeps(c: Collections, key: string, routes: seq<Route>, now: int) {
    routes != [] && (Live(routes[0], now) ==> Lookup(c, key, now) == Ok(LiveOf(routes, now)))
  }

  /** The only calls that can change what a key with a live route answers. */
  predicate Overwrites(op: Op, key: string) {
    match op
    case Add(aor, _, _) => aor == key
    case RemoveAll(aor) => aor == key
    case Find(req) => AddsToCall(req, key)
    case Cleanup(_) => false
  }

  lemma KeepsLater(c: Collections, key: string, routes: seq<Route>, now: int, later: int)
    requires Keeps(c, key, routes, now) && now <= later
    ensures Keeps(c, key, routes, later)
  {
    LookupLater(c, key, now, later);
    LiveOfLater(routes, now, later);
  }

  lemma StepKeeps(s: State, call: Call, key: string, routes: seq<Route>)
    requires Keeps(s.bindings, key, routes, call.now)
    requires !Overwrites(call.op, key)
    ensures Keeps(Step(s, call).0.bindings, key, routes, call.now)
  {
    var now := call.now;
    LiveOfMembers(routes, now);
    match call.op
    case Add(aor, route, _) =>
      if Lookup(s.bindings, aor, now).Ok? {
        LookupAfterStore(s.bindings, aor, route, now, key, now);
      }
    case Find(req) => FindEffect(s, req, now, key, now);
    case RemoveAll(_) =>
    case Cleanup(visited) => LookupAfterPrune(s.bindings, visited, now, key, now);
  }

  lemma {:induction false} RunKeeps(s: State, calls: seq<Call>, i: nat, j: nat, key: string, routes: seq<Route>)
    requires Chronological(calls) && i < j < |calls|
    requires Keeps(After(s, calls, i + 1).bindings, key, routes, calls[i].now)
    requires forall k :: i < k < j ==> !Overwrites(calls[k].op, key)
    ensures Keeps(After(s, calls, j).bindings, key, routes, calls[j].now)
  {
    if j == i + 1 {
      KeepsLater(After(s, calls, j).bindings, key, routes, calls[i].now, calls[j].now);
    } else {
      RunKeeps(s, calls, i, j - 1, key, routes);
      StepKeeps(After(s, calls, j - 1), calls[j - 1], key, routes);
      KeepsLater(After(s, calls, j).bindings, key, routes, calls[j - 1].now, calls[j].now);
    }
  }

  /**
   Once a query with a backend has answered, every later query of the same call answers the same, until the
   answer expires, whatever happens in between to other keys. If the first query had to choose, its answer is
   a single route.
   */
  lemma CallSticksToItsRoute(s: State, calls: seq<Call>, i: nat, j: nat)
    requires Chronological(calls) && i < j < |calls|
    requires calls[i].op.Find? && calls[j].op.Find?
    requires calls[i].op.req.backend.Some?
    requires calls[i].op.req.StickyKey() == calls[j].op.req.StickyKey()
    requires ReplyAt(s, calls, i).Found? && ReplyAt(s, calls, i).routes != []
    requires forall k :: i < k < j ==> !Overwrites(calls[k].op, calls[i].op.req.StickyKey())
    requires Live(ReplyAt(s, calls, i).routes[0], calls[j].now)
    ensures ReplyAt(s, calls, j) == Found(LiveOf(ReplyAt(s, calls, i).routes, calls[j].now))
    ensures Lookup(After(s, calls, i).bindings, calls[i].op.req.StickyKey(), calls[i].now) == Ok([]) ==>
              |ReplyAt(s, calls, i).routes| == 1 && ReplyAt(s, calls, j) == ReplyAt(s, calls, i)
  {
    var req, now, routes := calls[i].op.req, calls[i].now, ReplyAt(s, calls, i).routes;
    BalancedAnswer(After(s, calls, i), req, now);
    LookupLater(After(s, calls, i + 1).bindings, req.StickyKey(), now, now);
    RunKeeps(s, calls, i, j, req.StickyKey(), routes);
    LiveOfMembers(routes, calls[j].now);
    assert routes[0] in LiveOf(routes, calls[j].now);
  }

  /** Without a backend the first answer lists every candidate, and the call then sticks to the first of them. */
  lemma CallWithoutBackendSticksToTheFirst(s: State, calls: seq<Call>, i: nat, j: nat)
    requires Chronological(calls) && i < j < |calls|
    requires calls[i].op.Find? && calls[j].op.Find?
    requires calls[i].op.req.backend.None? && !calls[i].op.req.Labelled()
    requires calls[i].op.req.StickyKey() == calls[j].op.req.StickyKey()
    requires Lookup(After(s, calls, i).bindings, calls[i].op.req.StickyKey(), calls[i].now) == Ok([])
    requires ReplyAt(s, calls, i).Found? && ReplyAt(s, calls, i).routes != []
    requires forall k :: i < k < j ==> !Overwrites(calls[k].op, calls[i].op.req.StickyKey())
    requires Live(ReplyAt(s, calls, i).routes[0], calls[j].now)
    ensures ReplyAt(s, calls, i).routes == Lookup(After(s, calls, i).bindings, calls[i].op.req.aor, calls[i].now).value
    ensures ReplyAt(s, calls, j) == Found([ReplyAt(s, calls, i).routes[0]])
  {
    var before, req, now := After(s, calls, i).bindings, calls[i].op.req, calls[i].now;
    var first := ReplyAt(s, calls, i).routes[0];
    CandidatesAreSources(before, req, now);
    SourceIsLive(before, req, now, first);
    LookupAfterStore(before, req.CallKey(), first, now, req.CallKey(), now);
    assert Lookup(After(s, calls, i + 1).bindings, req.CallKey(), now) == Ok([first]);
    RunKeeps(s, calls, i, j, req.StickyKey(), [first]);
    assert LiveOf([first], calls[j].now) == [first];
  }

  /**
   Why `Overwrites` names labelled queries without a backend: such a query puts its own first candidate in
   front of the route its call had been given.
   */
  lemma LabelledQueryDisplacesTheCallsRoute(s: State, req: FindRequest, r: Route, now: int)
    requires req.Labelled() && req.backend.None?
    requires Lookup(s.bindings, req.StickyKey(), now) == Ok([])
    requires Lookup(s.bindings, req.CallKey(), now) == Ok([r])
    requires Candidates(s.bindings, req, now).Ok? && Candidates(s.bindings, req, now).value != []
    ensures var first := Candidates(s.bindings, req, now).value[0];
            Lookup(FindRoutes(s, req, now).0.bindings, req.CallKey(), now) ==
            Ok(if SameBinding(r, first) then [first] else [first, r])
  {
    var first := Candidates(s.bindings, req, now).value[0];
    CandidatesAreSources(s.bindings, req, now);
    SourceIsLive(s.bindings, req, now, first);
    LookupAfterStore(s.bindings, req.CallKey(), first, now, req.CallKey(), now);
    assert LiveOf([first], now) == [first];
    assert Without([r], first) == (if SameBinding(r, first) then [] else [r]);
    assert [first] + [] == [first] && [first] + [r] == [first, r];
  }

  /** A query that has to choose, and answers the route `r` through its affinity reference. */
  ghost predicate ChoosesByAffinity(s: State, req: FindRequest, now: int) {
    && req.WithAffinity()
    && Lookup(s.bindings, req.StickyKey(), now) == Ok([])
    && Lookup(s.bindings, req.aor, now).Ok?
  }

  lemma AffinityKeepsItsRoute(s: State, req: FindRequest, now: int, r: Route)
    requires ChoosesByAffinity(s, req, now)
    requires FindRoutes(s, req, now).1 == Found([r])
    ensures exists held :: held != [] && held[0] == r &&
              Keeps(FindRoutes(s, req, now).0.bindings, req.sessionAffinityRef, held, now)
  {
    var ref, sticky := req.sessionAffinityRef, req.StickyKey();
    var routes := Candidates(s.bindings, req, now).value;
    ChooseEffect(s, req, now, ref, now);
    var chosen := Choose(s, routes, req, now).value.0;
    SourceIsLive(s.bindings, req, now, r);
    var held := Lookup(s.bindings, ref, now).value;
    LookupAfterStore(chosen.bindings, sticky, r, now, ref, now);
    LookupLater(s.bindings, ref, now, now);
    if held == [] {
      LookupAfterStore(s.bindings, ref, r, now, ref, now);
      assert SameBinding(r, r);
      assert Keeps(FindRoutes(s, req, now).0.bindings, ref, [r], now);
    } else {
      assert Keeps(FindRoutes(s, req, now).0.bindings, ref, held, now);
    }
  }

  /** All calls that have to choose by the same affinity reference get the same route until it expires. */
  lemma AffinitySharesOneRoute(s: State, calls: seq<Call>, i: nat, j: nat, r: Route)
    requires Chronological(calls) && i < j < |calls|
    requires calls[i].op.Find? && calls[j].op.Find?
    requires calls[i].op.req.sessionAffinityRef == calls[j].op.req.sessionAffinityRef
    requires ChoosesByAffinity(After(s, calls, i), calls[i].op.req, calls[i].now)
    requires ChoosesByAffinity(After(s, calls, j), calls[j].op.req, calls[j].now)
    requires ReplyAt(s, calls, i) == Found([r])
    requires forall k :: i < k < j ==> !Overwrites(calls[k].op, calls[i].op.req.sessionAffinityRef)
    requires Live(r, calls[j].now)
    ensures ReplyAt(s, calls, j) == Found([r])
  {
    var ref := calls[i].op.req.sessionAffinityRef;
    AffinityKeepsItsRoute(After(s, calls, i), calls[i].op.req, calls[i].now, r);
    var held :| held != [] && held[0] == r && Keeps(After(s, calls, i + 1).bindings, ref, held, calls[i].now);
    RunKeeps(s, calls, i, j, ref, held);
    var before, req, now := After(s, calls, j), calls[j].op.req, calls[j].now;
    LiveOfMembers(held, now);
    assert r in LiveOf(held, now) && LiveOf(held, now)[0] == r;
    assert NextWithAffinity(before.bindings, Candidates(before.bindings, req, now).value, ref, now) ==
           Ok((before.bindings, Some(r)));
  }
}
