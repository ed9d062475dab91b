/** Where the routes that queries answer come from, over every run that starts with an empty service. */
module Provenance {
  import opened Wrappers
  import opened CommonTypes
  import opened BindingStore
  import opened LocationSteps
  import opened QueryEffects

  /**
   Every key belongs to one address of record: its own, its call keys', its affinity references'. Only an
   affinity reference, or a clash of texts, can belong to two.
   */
  predicate Owned(owner: string -> string, op: Op) {
    match op
    case Add(aor, _, _) => owner(aor) == aor
    case Find(req) =>
      && owner(req.aor) == owner(req.CallKey()) == owner(req.StickyKey()) == req.aor
      && (req.WithAffinity() ==> owner(req.sessionAffinityRef) == req.aor)
    case RemoveAll(_) => true
    case Cleanup(_) => true
  }

  /** An accepted add among the first `n` calls registered this route for this address of record. */
  ghost predicate Registered(s: State, calls: seq<Call>, n: nat, aor: string, r: Route)
    requires n <= |calls|
  {
    exists i :: 0 <= i < n && Registers(s, calls, i, aor, r)
  }

  predicate Registers(s: State, calls: seq<Call>, i: nat, aor: string, r: Route)
    requires i < |calls|
  {
    && calls[i].op.Add? && calls[i].op.aor == aor && calls[i].op.route == r
    && ReplyAt(s, calls, i) == Accepted
  }

  ghost predicate AllRegistered(owner: string -> string, s: State, calls: seq<Call>, n: nat, now: int)
    requires n <= |calls|
  {
    forall key, r :: ReadFrom(After(s, calls, n).bindings, key, now, r) ==> Registered(s, calls, n, owner(key), r)
  }

  /** A route on a key was there before, or was added to it by this call, or was copied by this query from a source. */
  lemma StepOrigin(s: State, call: Call, key: string, r: Route)
    requires ReadFrom(Step(s, call).0.bindings, key, call.now, r)
    ensures || ReadFrom(s.bindings, key, call.now, r)
            || (call.op.Add? && call.op.aor == key && call.op.route == r && Step(s, call).1 == Accepted)
            || (call.op.Find? && WritesTo(call.op.req, key) && Source(s.bindings, call.op.req, call.now, r))
  {
    var now, before, after := call.now, s.bindings, Step(s, call).0.bindings;
    match call.op
    case Add(aor, route, _) =>
      if Lookup(before, aor, now).Ok? {
        LookupAfterStore(before, aor, route, now, key, now);
        WithoutMembers(Lookup(before, aor, now).value, route);
        LiveOfMembers([route], now);
      }
    case Find(req) =>
      FindEffect(s, req, now, key, now);
      if q :| WritesTo(req, key) && Source(before, req, now, q) && Gained(before, after, key, q, now) {
        WithoutMembers(Lookup(before, key, now).value, q);
        LiveOfMembers([q], now);
      }
    case RemoveAll(_) =>
    case Cleanup(visited) => LookupAfterPrune(before, visited, now, key, now);
  }

  lemma StepRegisters(owner: string -> string, s: State, calls: seq<Call>, n: nat, key: string, r: Route)
    requires n < |calls| && Owned(owner, calls[n].op)
    requires AllRegistered(owner, s, calls, n, calls[n].now)
    requires ReadFrom(After(s, calls, n + 1).bindings, key, calls[n].now, r)
    ensures Registered(s, calls, n + 1, owner(key), r)
  {
    var before, call := After(s, calls, n), calls[n];
    StepOrigin(before, call, key, r);
    if call.op.Add? && call.op.aor == key && call.op.route == r && Step(before, call).1 == Accepted {
      assert Registers(s, calls, n, key, r);
    } else {
      var origin := if ReadFrom(before.bindings, key, call.now, r) then key
                    else if ReadFrom(before.bindings, call.op.req.aor, call.now, r) then call.op.req.aor
                    else call.op.req.sessionAffinityRef;
      assert ReadFrom(before.bindings, origin, call.now, r);
      var i :| 0 <= i < n && Registers(s, calls, i, owner(origin), r);
      assert Registers(s, calls, i, owner(key), r);
    }
  }

  lemma {:induction false} RunRegisters(owner: string -> string, s: State, calls: seq<Call>, n: nat, now: int)
    requires Created(s) && Chronological(calls) && n <= |calls|
    requires forall i :: 0 <= i < n ==> Owned(owner, calls[i].op) && calls[i].now <= now
    ensures AllRegistered(owner, s, calls, n, now)
  {
    if n > 0 {
      var earlier := calls[n - 1].now;
      RunRegisters(owner, s, calls, n - 1, earlier);
      forall key, r | ReadFrom(After(s, calls, n).bindings, key, now, r)
        ensures Registered(s, calls, n, owner(key), r)
      {
        var after := After(s, calls, n).bindings;
        LookupLater(after, key, earlier, now);
        LiveOfMembers(Lookup(after, key, earlier).value, now);
        StepRegisters(owner, s, calls, n - 1, key, r);
      }
    }
  }

  /** Every route a query answers is live, and was registered for the very address of record asked for. */
  lemma AnswersWereRegistered(owner: string -> string, s: State, calls: seq<Call>, i: nat, r: Route)
    requires Created(s) && Chronological(calls) && i < |calls|
    requires forall k :: 0 <= k <= i ==> Owned(owner, calls[k].op)
    requires calls[i].op.Find?
    requires ReplyAt(s, calls, i).Found? && r in ReplyAt(s, calls, i).routes
    ensures Live(r, calls[i].now)
    ensures Registered(s, calls, i, calls[i].op.req.aor, r)
  {
    var before, req, now := After(s, calls, i), calls[i].op.req, calls[i].now;
    RunRegisters(owner, s, calls, i, now);
    AnswersAreSources(before, req, now, r);
    if ReadFrom(before.bindings, req.StickyKey(), now, r) {
      LiveOfMembers(before.bindings[req.StickyKey()].routes, now);
    } else {
      SourceIsLive(before.bindings, req, now, r);
    }
  }

  lemma AnswersAreSources(s: State, req: FindRequest, now: int, r: Route)
    requires FindRoutes(s, req, now).1.Found? && r in FindRoutes(s, req, now).1.routes
    ensures ReadFrom(s.bindings, req.StickyKey(), now, r) || Source(s.bindings, req, now, r)
  {
    if Lookup(s.bindings, req.StickyKey(), now) == Ok([]) && Candidates(s.bindings, req, now).Ok? {
      CandidatesAreSources(s.bindings, req, now);
      if req.backend.Some? && Choose(s, Candidates(s.bindings, req, now).value, req, now).Ok? {
        ChooseEffect(s, req, now, req.StickyKey(), now);
      }
    }
  }

  /**
   Without owners the claim fails: an affinity reference shared by two addresses answers one with the other's route.
   */
  lemma SharedAffinityReferenceCrossesAddresses(s: State, r: Route, now: int)
    requires Created(s) && Live(r, now)
    ensures var backend := Some(Backend("", LEAST_SESSIONS, true));
            var calls := [At(now, Add("sip:a", r, -1)),
                          At(now, Find(FindRequest("sip:a", "1", "x", backend, None))),
                          At(now, Find(FindRequest("sip:b", "2", "x", backend, None)))];
            && ReplyAt(s, calls, 2) == Found([r])
            && !Registered(s, calls, 2, "sip:b", r)
  {
    var backend := Some(Backend("", LEAST_SESSIONS, true));
    var first, second := FindRequest("sip:a", "1", "x", backend, None), FindRequest("sip:b", "2", "x", backend, None);
    var calls := [At(now, Add("sip:a", r, -1)), At(now, Find(first)), At(now, Find(second))];
    assert Supported("sip:a") by { assert "sip:a"[..4] == "sip:"; }
    assert first.StickyKey() == "sip:a:1" && second.StickyKey() == "sip:b:2";
    var s1 := After(s, calls, 1);
    assert [r] + Without([], r) == [r];
    assert After(s, calls, 0) == s && calls[0].op == Add("sip:a", r, -1);
    assert s1 == Step(s, calls[0]).0 == AddRoute(s, "sip:a", r, -1, now).0;
    assert Lookup(s.bindings, "sip:a", now) == Ok([]) && !OverLimit([], r, -1);
    assert s1.bindings == s.bindings["sip:a" := Routes([r])];
    assert LiveOf([r], now) == [r] && SortBySessions([r]) == [r];
    assert |"sip:a:1"| == 7 && |"sip:b:2"| == 7 && |"sip:a"| == 5 && |"sip:b"| == 5 && "sip:a"[4] != "sip:b"[4];
    var s2 := After(s, calls, 2);
    assert s2.bindings == map["sip:a" := Routes([r]), "x" := Routes([r]), "sip:a:1" := Routes([r])];
    assert "sip:b:2"[4] != "sip:a:1"[4];
    assert !Registers(s, calls, 0, "sip:b", r) && !Registers(s, calls, 1, "sip:b", r);
  }
}
