/**
 The rules of the location service in the fields of its requests: what it refuses, which calls share a key or a
 counter, which labels match, and what affinity chooses (mods/location/src/location.ts, mods/location/src/utils.ts).
 */
module LocationRules {
  import opened Wrappers
  import opened CommonTypes
  import opened BindingStore
  import opened LocationSteps
  import opened QueryEffects
  import opened Balancing

  // ---------------------------------------------------------------- adds

  predicate HasScheme(aor: string) {
    (|aor| >= 4 && aor[..4] == "sip:") || (|aor| >= 8 && aor[..8] == "backend:")
  }

  /** The contact, user included, is among the routes. */
  predicate HasContact(routes: seq<Route>, r: Route) {
    exists i :: 0 <= i < |routes| &&
      (routes[i].user, routes[i].host, routes[i].port, routes[i].transport) == (r.user, r.host, r.port, r.transport)
  }

  /**
   An add is refused for its scheme if and only if the address of record starts with neither scheme; else for the limit
   if and only if there is one, it is reached, and the contact is not among the live ones; else it is accepted. A
   refused add changes nothing.
   */
  lemma AddIsRefusedIff(s: State, aor: string, route: Route, maxContacts: int, now: int, live: seq<Route>)
    requires Lookup(s.bindings, aor, now) == Ok(live)
    ensures var (after, reply) := AddRoute(s, aor, route, maxContacts, now);
            && (reply == Failed(UnsupportedSchema(aor)) <==> !HasScheme(aor))
            && (reply == Failed(TooManyContacts(maxContacts)) <==>
                  HasScheme(aor) && maxContacts != -1 && |live| >= maxContacts && !HasContact(live, route))
            && (reply.Failed? ==> after == s)
            && (!reply.Failed? ==> reply == Accepted)
  {
    assert StartsWith(aor, "sip:") <==> |aor| >= 4 && aor[..4] == "sip:";
    assert StartsWith(aor, "backend:") <==> |aor| >= 8 && aor[..8] == "backend:";
    assert Exists(live, route) <==> HasContact(live, route) by {
      if HasContact(live, route) {
        var i :| 0 <= i < |live| && (live[i].user, live[i].host, live[i].port, live[i].transport)
                                    == (route.user, route.host, route.port, route.transport);
        assert SameContact(live[i], route);
      }
    }
  }

  // ---------------------------------------------------------------- keys and counters

  predicate Unlabelled(req: FindRequest) {
    req.labels == None || req.labels.value.text == ""
  }

  /** Calls of an address of record share a key if and only if they have one call id; none is the address itself. */
  lemma CallsAreToldApart(a: FindRequest, b: FindRequest)
    requires a.aor == b.aor && Unlabelled(a) && Unlabelled(b)
    ensures a.StickyKey() == b.StickyKey() <==> a.callId == b.callId
    ensures a.StickyKey() != a.aor
  {
    assert a.StickyKey()[|a.aor| + 1..] == a.callId && b.StickyKey()[|b.aor| + 1..] == b.callId;
    assert |a.StickyKey()| == |a.aor| + 1 + |a.callId|;
  }

  /** Labelled queries of one call share a key if and only if their labels read the same, and never the call's own. */
  lemma LabelsAreToldApart(a: FindRequest, b: FindRequest, plain: FindRequest)
    requires a.aor == b.aor == plain.aor && a.callId == b.callId == plain.callId
    requires !Unlabelled(a) && !Unlabelled(b) && Unlabelled(plain)
    ensures a.StickyKey() == b.StickyKey() <==> a.labels.value.text == b.labels.value.text
    ensures a.StickyKey() != plain.StickyKey()
  {
    var n := |a.aor| + |a.callId| + 2;
    assert a.StickyKey()[n..] == a.labels.value.text && b.StickyKey()[n..] == b.labels.value.text;
    assert |a.StickyKey()| == n + |a.labels.value.text| && |plain.StickyKey()| == n - 1;
  }

  /** The counter of a query: its backend's, which all addresses of the backend share, or else its address's. */
  function CounterOf(req: FindRequest): string {
    match req.backend
    case None => req.aor
    case Some(backend) => if backend.ref == "" then req.aor else backend.ref
  }

  /** A query moves no counter but its own, and that one only by a choice in turn. */
  lemma OnlyItsOwnCounterMoves(s: State, req: FindRequest, now: int, ref: string)
    ensures var after := FindRoutes(s, req, now).0;
            Position(after.rrCount, ref) != Position(s.rrCount, ref) ==>
              && ref == CounterOf(req)
              && req.backend.Some? && req.backend.value.balancingAlgorithm != LEAST_SESSIONS
              && (req.backend.value.withSessionAffinity ==> req.sessionAffinityRef == "")
  {
    if !Turns(s, At(now, Find(req)), ref) {
      NoTurn(s, At(now, Find(req)), ref);
    }
  }

  /** A query that has to choose does so in turn unless it asks for least sessions or names an affinity reference. */
  lemma ChoosesInTurnIff(s: State, req: FindRequest, now: int)
    requires req.backend.Some? && Lookup(s.bindings, req.StickyKey(), now) == Ok([])
    requires Candidates(s.bindings, req, now).Ok?
    ensures Turns(s, At(now, Find(req)), CounterOf(req)) <==>
              req.backend.value.balancingAlgorithm != LEAST_SESSIONS
              && !(req.backend.value.withSessionAffinity && req.sessionAffinityRef != "")
  {
  }

  // ---------------------------------------------------------------- labels

  /** Some label reads `text`, its key and value run together. */
  predicate SomeReads(pairs: seq<(string, string)>, text: string) {
    exists j :: 0 <= j < |pairs| && pairs[j].0 + pairs[j].1 == text
  }

  /** As many labels, and for each of the route's one of the request's that reads the same. */
  predicate LabelsMatch(route: Route, pairs: seq<(string, string)>) {
    && route.labels.Some? && |route.labels.value| == |pairs|
    && forall l :: l in route.labels.value ==> SomeReads(pairs, l.0 + l.1)
  }

  lemma MatchesIff(r: Route, pairs: seq<(string, string)>)
    ensures LabelsMatch(r, pairs) <==>
              r.labels.Some? && CompareArrays(MergeKeyValue(pairs), MergeKeyValue(r.labels.value))
  {
    if r.labels.Some? {
      var arr, labels := MergeKeyValue(pairs), r.labels.value;
      var target := MergeKeyValue(labels);
      forall text ensures text in arr <==> SomeReads(pairs, text) {
        if SomeReads(pairs, text) {
          var j :| 0 <= j < |pairs| && pairs[j].0 + pairs[j].1 == text;
          assert arr[j] == text;
        }
      }
      if CompareArrays(arr, target) {
        forall l | l in labels ensures SomeReads(pairs, l.0 + l.1) {
          var i :| 0 <= i < |labels| && labels[i] == l;
          assert target[i] in arr;
        }
      }
      if LabelsMatch(r, pairs) {
        forall i | 0 <= i < |target| ensures target[i] in arr {
          assert labels[i] in labels;
        }
      }
    }
  }

  /** Of two lists in a row each is filtered by itself, and of one route its labels decide: the order is kept. */
  lemma {:induction false} FilteredByLabels(a: seq<Route>, r: Route, pairs: seq<(string, string)>)
    ensures OnlyMatchingLabels(a + [r], pairs) ==
            OnlyMatchingLabels(a, pairs) + if LabelsMatch(r, pairs) then [r] else []
  {
    hide LabelsMatch, CompareArrays;
    MatchesIff(r, pairs);
    if a == [] {
      assert a + [r] == [r] && [r][1..] == [];
      assert OnlyMatchingLabels([r][1..], pairs) == [];
    } else {
      FilteredByLabels(a[1..], r, pairs);
      assert (a + [r])[0] == a[0] && (a + [r])[1..] == a[1..] + [r];
    }
  }

  /** What a labelled query chooses from: the live routes of the address whose labels match. */
  lemma LabelledCandidatesIff(c: Collections, req: FindRequest, now: int, r: Route)
    requires !Unlabelled(req) && Lookup(c, req.aor, now).Ok?
    ensures Candidates(c, req, now).Ok?
    ensures r in Candidates(c, req, now).value <==>
              r in Lookup(c, req.aor, now).value && LabelsMatch(r, req.labels.value.pairs)
  {
    FilteredMembers(Lookup(c, req.aor, now).value, r, req.labels.value.pairs);
  }

  lemma {:induction false} FilteredMembers(s: seq<Route>, r: Route, pairs: seq<(string, string)>)
    ensures r in OnlyMatchingLabels(s, pairs) <==> r in s && LabelsMatch(r, pairs)
  {
    hide LabelsMatch, CompareArrays;
    if s != [] {
      MatchesIff(s[0], pairs);
      FilteredMembers(s[1..], r, pairs);
    }
  }

  // ---------------------------------------------------------------- affinity

  /** A query that has to choose, wants affinity and names a reference. */
  predicate AsksForAffinity(s: State, req: FindRequest, now: int) {
    && req.backend.Some? && req.backend.value.withSessionAffinity && req.sessionAffinityRef != "" && Unlabelled(req)
    && Lookup(s.bindings, req.StickyKey(), now) == Ok([])
  }

  /** The route that the affinity reference holds is answered, whatever is registered by now. */
  lemma HeldRouteIsReused(s: State, req: FindRequest, now: int, held: seq<Route>)
    requires AsksForAffinity(s, req, now) && Lookup(s.bindings, req.aor, now).Ok?
    requires Lookup(s.bindings, req.sessionAffinityRef, now) == Ok(held) && held != []
    ensures FindRoutes(s, req, now).1 == Found([held[0]])
  {
  }

  /** A reference that holds none gets the earliest of the routes with fewest sessions, whatever the algorithm. */
  lemma AffinityGivesTheLeastLoaded(s: State, req: FindRequest, now: int, routes: seq<Route>) returns (i: nat)
    requires AsksForAffinity(s, req, now) && Lookup(s.bindings, req.sessionAffinityRef, now) == Ok([])
    requires Lookup(s.bindings, req.aor, now) == Ok(routes) && routes != []
    ensures i < |routes| && FirstOfFewest(routes, i) && FindRoutes(s, req, now).1 == Found([routes[i]])
  {
    i := LeastSessionsIsFirstOfFewest(routes);
    var r := routes[i];
    assert NextWithAffinity(s.bindings, routes, req.sessionAffinityRef, now) ==
           Ok((Store(s.bindings, req.sessionAffinityRef, Some(r), now).value, Some(r)));
    LookupAfterStore(s.bindings, req.sessionAffinityRef, r, now, req.StickyKey(), now);
    LookupLater(s.bindings, req.StickyKey(), now, now);
  }
}
