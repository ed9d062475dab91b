/** What a query can change, seen through later look-ups; every theorem about runs rests on this. */
module QueryEffects {
  import opened Wrappers
  import opened CommonTypes
  import opened BindingStore
  import opened LocationSteps

  /** The keys a query may write. */
  predicate WritesTo(req: FindRequest, key: string) {
    if req.backend.None? then key == req.CallKey()
    else key == req.StickyKey() || (req.WithAffinity() && key == req.sessionAffinityRef)
  }

  predicate ReadFrom(c: Collections, key: string, now: int, r: Route) {
    Lookup(c, key, now).Ok? && r in Lookup(c, key, now).value
  }

  /** A query takes its routes from the address of record, or from its affinity reference. */
  predicate Source(c: Collections, req: FindRequest, now: int, r: Route) {
    ReadFrom(c, req.aor, now, r) || (req.WithAffinity() && ReadFrom(c, req.sessionAffinityRef, now, r))
  }

  /** A query with labels but without a backend stores its first candidate under the call's unlabelled key. */
  predicate AddsToCall(req: FindRequest, key: string) {
    req.Labelled() && req.backend.None? && key == req.CallKey()
  }

  ghost predicate Unchanged(before: Collections, after: Collections, key: string, t: int) {
    Lookup(after, key, t) == Lookup(before, key, t)
  }

  /** One route was put first on the key. */
  ghost predicate Gained(before: Collections, after: Collections, key: string, r: Route, t: int) {
    Lookup(before, key, t).Ok? && Lookup(after, key, t) == Ok(LiveOf([r], t) + Without(Lookup(before, key, t).value, r))
  }

  /**
   A query leaves a key alone; or it writes to it, and then either the key had no live route, or the query is
   labelled without a backend. What it writes is one of its sources, or `undefined`.
   */
  ghost predicate Effect(before: Collections, after: Collections, req: FindRequest, now: int, key: string, t: int) {
    || Unchanged(before, after, key, t)
    || (&& WritesTo(req, key)
        && (Lookup(before, key, now) == Ok([]) || AddsToCall(req, key))
        && exists r :: Source(before, req, now, r) && Gained(before, after, key, r, t))
    || (&& WritesTo(req, key)
        && Lookup(before, key, now) == Ok([])
        && Lookup(after, key, t) == Err(TypeError))
  }

  lemma {:induction false} MatchingIsSublist(s: seq<Route>, labels: seq<(string, string)>)
    ensures forall r :: r in OnlyMatchingLabels(s, labels) ==> r in s
  {
    if s != [] {
      MatchingIsSublist(s[1..], labels);
    }
  }

  lemma {:induction false} InsertMembers(r: Route, s: seq<Route>)
    ensures multiset(InsertBySessions(r, s)) == multiset([r] + s)
  {
    if s != [] && r.sessionCount > s[0].sessionCount {
      InsertMembers(r, s[1..]);
      assert s == [s[0]] + s[1..];
    }
  }

  lemma {:induction false} SortMembers(s: seq<Route>)
    ensures multiset(SortBySessions(s)) == multiset(s)
  {
    if s != [] {
      SortMembers(s[1..]);
      InsertMembers(s[0], SortBySessions(s[1..]));
      assert s == [s[0]] + s[1..];
    }
  }

  lemma LeastSessionsMember(s: seq<Route>)
    ensures LeastSessions(s).Some? <==> s != []
    ensures LeastSessions(s).Some? ==> LeastSessions(s).value in s
  {
    SortMembers(s);
    if s != [] {
      assert s[0] in multiset(s);
      assert SortBySessions(s)[0] in multiset(SortBySessions(s));
    }
  }

  lemma StoreEffect(c: Collections, req: FindRequest, key: string, r: Option<Route>, now: int, k: string, t: int)
    requires now <= t
    requires WritesTo(req, key)
    requires Lookup(c, key, now) == Ok([]) || (AddsToCall(req, key) && Lookup(c, key, now).Ok?)
    requires r.Some? ==> Source(c, req, now, r.value)
    requires Store(c, key, r, now).Ok?
    ensures Effect(c, Store(c, key, r, now).value, req, now, k, t)
  {
    LookupLater(c, key, now, t);
    if r.Some? {
      LookupAfterStore(c, key, r.value, now, k, t);
      if k == key {
        assert Gained(c, Store(c, key, r, now).value, k, r.value, t);
      }
    }
  }

  lemma CandidatesAreSources(c: Collections, req: FindRequest, now: int)
    requires Candidates(c, req, now).Ok?
    ensures forall r :: r in Candidates(c, req, now).value ==> Source(c, req, now, r)
  {
    if req.Labelled() {
      MatchingIsSublist(Lookup(c, req.aor, now).value, req.labels.value.pairs);
    }
  }

  /** Making the choice may fill an empty affinity key, and leaves every other key alone. */
  lemma ChooseEffect(s: State, req: FindRequest, now: int, key: string, t: int)
    requires now <= t && req.backend.Some?
    requires Candidates(s.bindings, req, now).Ok?
    requires Choose(s, Candidates(s.bindings, req, now).value, req, now).Ok?
    ensures var chosen := Choose(s, Candidates(s.bindings, req, now).value, req, now).value;
            && Effect(s.bindings, chosen.0.bindings, req, now, key, t)
            && (chosen.1.Some? ==> Source(s.bindings, req, now, chosen.1.value))
            && (chosen.0.bindings != s.bindings ==>
                  && req.WithAffinity()
                  && Lookup(s.bindings, req.sessionAffinityRef, now) == Ok([])
                  && Store(s.bindings, req.sessionAffinityRef, chosen.1, now) == Ok(chosen.0.bindings))
  {
    var routes := Candidates(s.bindings, req, now).value;
    CandidatesAreSources(s.bindings, req, now);
    LeastSessionsMember(routes);
    if req.WithAffinity() && Lookup(s.bindings, req.sessionAffinityRef, now) == Ok([]) {
      StoreEffect(s.bindings, req, req.sessionAffinityRef, LeastSessions(routes), now, key, t);
    }
  }

  lemma RememberEffect(s: State, chosen: State, r: Route, req: FindRequest, now: int, key: string, t: int)
    requires now <= t && req.backend.Some?
    requires Lookup(s.bindings, req.StickyKey(), now) == Ok([])
    requires Source(s.bindings, req, now, r)
    requires chosen.bindings != s.bindings ==>
               && req.WithAffinity()
               && Lookup(s.bindings, req.sessionAffinityRef, now) == Ok([])
               && Store(s.bindings, req.sessionAffinityRef, Some(r), now) == Ok(chosen.bindings)
    ensures RememberChoice(chosen, r, req, now).1 == Found([r])
    ensures Effect(s.bindings, RememberChoice(chosen, r, req, now).0.bindings, req, now, key, t)
  {
    var before, mid, sticky, ref := s.bindings, chosen.bindings, req.StickyKey(), req.sessionAffinityRef;
    if mid == before {
      StoreEffect(before, req, sticky, Some(r), now, key, t);
    } else {
      LookupAfterStore(before, ref, r, now, sticky, now);
      LookupAfterStore(before, ref, r, now, key, t);
      LookupAfterStore(mid, sticky, r, now, key, t);
      LookupLater(before, sticky, now, t);
      LookupLater(before, ref, now, t);
      assert SameBinding(r, r);
      assert Without(LiveOf([r], t) + [], r) == [];
      if key == sticky || key == ref {
        assert Gained(before, RememberChoice(chosen, r, req, now).0.bindings, key, r, t);
      }
    }
  }

  lemma FindEffect(s: State, req: FindRequest, now: int, key: string, t: int)
    requires now <= t
    ensures Effect(s.bindings, FindRoutes(s, req, now).0.bindings, req, now, key, t)
  {
    if Lookup(s.bindings, req.StickyKey(), now) == Ok([]) && Candidates(s.bindings, req, now).Ok? {
      var routes := Candidates(s.bindings, req, now).value;
      CandidatesAreSources(s.bindings, req, now);
      if req.backend.None? {
        if Store(s.bindings, req.CallKey(), Head(routes), now).Ok? {
          StoreEffect(s.bindings, req, req.CallKey(), Head(routes), now, key, t);
        }
      } else if Choose(s, routes, req, now).Ok? {
        ChooseEffect(s, req, now, key, t);
        var (chosen, r) := Choose(s, routes, req, now).value;
        if r.Some? {
          RememberEffect(s, chosen, r.value, req, now, key, t);
        }
      }
    }
  }

  /** What a balanced query answers comes from its sources and is remembered under its own key. */
  lemma BalancedAnswer(s: State, req: FindRequest, now: int)
    requires req.backend.Some?
    ensures var (after, reply) := FindRoutes(s, req, now);
            reply.Found? && reply.routes != [] ==> Lookup(after.bindings, req.StickyKey(), now) == Ok(reply.routes)
  {
    var sticky := req.StickyKey();
    if Lookup(s.bindings, sticky, now) == Ok([]) && Candidates(s.bindings, req, now).Ok? {
      var routes := Candidates(s.bindings, req, now).value;
      if Choose(s, routes, req, now).Ok? {
        ChooseEffect(s, req, now, sticky, now);
        var (chosen, r) := Choose(s, routes, req, now).value;
        if r.Some? {
          RememberEffect(s, chosen, r.value, req, now, sticky, now);
          LookupAfterStore(chosen.bindings, sticky, r.value, now, sticky, now);
          SourceIsLive(s.bindings, req, now, r.value);
          if chosen.bindings != s.bindings {
            LookupAfterStore(s.bindings, req.sessionAffinityRef, r.value, now, sticky, now);
          }
          assert SameBinding(r.value, r.value);
        }
      }
    }
  }

  lemma SourceIsLive(c: Collections, req: FindRequest, now: int, r: Route)
    requires Source(c, req, now, r)
    ensures Live(r, now)
  {
    if ReadFrom(c, req.aor, now, r) && req.aor in c {
      LiveOfMembers(c[req.aor].routes, now);
    } else if req.sessionAffinityRef in c && c[req.sessionAffinityRef].Routes? {
      LiveOfMembers(c[req.sessionAffinityRef].routes, now);
    }
  }

  /** A query leaves what is stored under a key it does not write exactly as it was, order included. */
  lemma UntouchedByQuery(s: State, req: FindRequest, now: int, key: string)
    requires !WritesTo(req, key)
    ensures var after := FindRoutes(s, req, now).0.bindings;
            (key in after <==> key in s.bindings) && (key in after ==> after[key] == s.bindings[key])
  {
    if Lookup(s.bindings, req.StickyKey(), now) == Ok([]) && Candidates(s.bindings, req, now).Ok? && req.backend.Some? {
      var routes := Candidates(s.bindings, req, now).value;
      if Choose(s, routes, req, now).Ok? {
        var (chosen, r) := Choose(s, routes, req, now).value;
        assert key in chosen.bindings <==> key in s.bindings;
      }
    }
  }
}
