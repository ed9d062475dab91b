/**
 Keys that hold `undefined`: how a query for an address of record without bindings creates them, what they do
 to later calls, and that nothing else makes the service raise a type error.
 */
module PoisonedKeys {
  import opened Wrappers
  import opened CommonTypes
  import opened BindingStore
  import opened LocationSteps
  import opened QueryEffects

  predicate Poisoned(c: Collections, key: string) {
    key in c && c[key].Undefined?
  }

  /** A query that has to choose from no candidates, and stores its choice without checking it. */
  ghost predicate StoresNothing(s: State, req: FindRequest, now: int) {
    && Lookup(s.bindings, req.StickyKey(), now) == Ok([])
    && Candidates(s.bindings, req, now) == Ok([])
    && (req.backend.None? || (req.WithAffinity() && Lookup(s.bindings, req.sessionAffinityRef, now) == Ok([])))
  }

  function KeyOfChoice(req: FindRequest): string {
    if req.backend.None? then req.CallKey() else req.sessionAffinityRef
  }

  /** Such a query either fails at once or leaves its key poisoned behind an empty answer. */
  lemma StoringNothingPoisons(s: State, req: FindRequest, now: int)
    requires StoresNothing(s, req, now)
    ensures var (after, reply) := FindRoutes(s, req, now);
            || reply == Failed(TypeError)
            || (reply == Found([]) && Poisoned(after.bindings, KeyOfChoice(req)))
    ensures !req.Labelled() ==> FindRoutes(s, req, now).1 == Found([])
  {
    assert SortBySessions([]) == [];
  }

  /** Only removing the key as if it were an address of record frees it. */
  lemma {:induction false} PoisonLasts(s: State, calls: seq<Call>, i: nat, j: nat, key: string)
    requires i <= j <= |calls|
    requires Poisoned(After(s, calls, i).bindings, key)
    requires forall k :: i <= k < j ==> calls[k].op != RemoveAll(key)
    ensures Poisoned(After(s, calls, j).bindings, key)
  {
    if i < j {
      PoisonLasts(s, calls, i, j - 1, key);
      PoisonedStays(After(s, calls, j - 1), calls[j - 1], key);
    }
  }

  lemma PoisonedStays(s: State, call: Call, key: string)
    requires Poisoned(s.bindings, key) && call.op != RemoveAll(key)
    ensures Poisoned(Step(s, call).0.bindings, key)
  {
    match call.op
    case Add(aor, _, _) => assert aor == key ==> Lookup(s.bindings, aor, call.now).Err?;
    case Find(req) =>
      if Lookup(s.bindings, req.StickyKey(), call.now) == Ok([]) && Candidates(s.bindings, req, call.now).Ok? {
        var routes := Candidates(s.bindings, req, call.now).value;
        if req.backend.Some? && Choose(s, routes, req, call.now).Ok? {
          assert Poisoned(Choose(s, routes, req, call.now).value.0.bindings, key);
        }
      }
    case RemoveAll(_) =>
    case Cleanup(_) =>
  }

  /**
   The first query of a call to an address of record without bindings answers nothing; every later query of
   that call raises a type error, even after the address of record has registered.
   */
  lemma UnknownAddressBreaksItsCall(s: State, calls: seq<Call>, i: nat, j: nat)
    requires i < j < |calls| && calls[i].op.Find? && calls[j].op.Find?
    requires calls[i].op.req.backend.None? && !calls[i].op.req.Labelled()
    requires StoresNothing(After(s, calls, i), calls[i].op.req, calls[i].now)
    requires calls[j].op.req.StickyKey() == calls[i].op.req.CallKey()
    requires forall k :: i < k < j ==> calls[k].op != RemoveAll(calls[i].op.req.CallKey())
    ensures ReplyAt(s, calls, i) == Found([])
    ensures ReplyAt(s, calls, j) == Failed(TypeError)
  {
    StoringNothingPoisons(After(s, calls, i), calls[i].op.req, calls[i].now);
    PoisonLasts(s, calls, i + 1, j, calls[i].op.req.CallKey());
  }

  ghost predicate Clean(c: Collections) {
    forall key :: !Poisoned(c, key)
  }

  lemma CleanStore(c: Collections, key: string, r: Route, now: int)
    requires Clean(c)
    ensures Store(c, key, Some(r), now).Ok? && Clean(Store(c, key, Some(r), now).value)
  {
    assert !Poisoned(c, key);
    var c' := Store(c, key, Some(r), now).value;
    forall k ensures !Poisoned(c', k) {
      assert !Poisoned(c, k);
    }
  }

  lemma CleanChoice(s: State, routes: seq<Route>, req: FindRequest, now: int)
    requires Clean(s.bindings)
    requires routes == [] && req.WithAffinity() ==> Lookup(s.bindings, req.sessionAffinityRef, now) != Ok([])
    ensures Choose(s, routes, req, now).Ok? && Clean(Choose(s, routes, req, now).value.0.bindings)
  {
    assert !Poisoned(s.bindings, req.sessionAffinityRef);
    LeastSessionsMember(routes);
    if req.WithAffinity() && Lookup(s.bindings, req.sessionAffinityRef, now) == Ok([]) {
      CleanStore(s.bindings, req.sessionAffinityRef, LeastSessions(routes).value, now);
    }
  }

  lemma CleanFind(s: State, req: FindRequest, now: int)
    requires Clean(s.bindings) && !StoresNothing(s, req, now)
    ensures Clean(FindRoutes(s, req, now).0.bindings)
    ensures FindRoutes(s, req, now).1 != Failed(TypeError)
  {
    assert !Poisoned(s.bindings, req.StickyKey()) && !Poisoned(s.bindings, req.aor);
    if Lookup(s.bindings, req.StickyKey(), now) == Ok([]) {
      var routes := Candidates(s.bindings, req, now).value;
      if req.backend.None? {
        CleanStore(s.bindings, req.CallKey(), routes[0], now);
      } else {
        CleanChoice(s, routes, req, now);
        var (chosen, r) := Choose(s, routes, req, now).value;
        if r.Some? {
          CleanStore(chosen.bindings, req.StickyKey(), r.value, now);
        }
      }
    }
  }

  lemma CleanStep(s: State, call: Call)
    requires Clean(s.bindings)
    requires call.op.Find? ==> !StoresNothing(s, call.op.req, call.now)
    ensures Clean(Step(s, call).0.bindings)
    ensures Step(s, call).1 != Failed(TypeError)
  {
    match call.op
    case Find(req) => CleanFind(s, req, call.now);
    case Add(aor, route, _) =>
      assert !Poisoned(s.bindings, aor);
      CleanStore(s.bindings, aor, route, call.now);
    case RemoveAll(aor) =>
      assert forall key :: Poisoned(Delete(s.bindings, aor), key) ==> Poisoned(s.bindings, key);
    case Cleanup(visited) =>
      assert forall key :: Poisoned(Prune(s.bindings, visited, call.now), key) ==> Poisoned(s.bindings, key);
  }

  /** Without a query that stores nothing no key is ever poisoned and no call ever raises a type error. */
  lemma {:induction false} RunStaysClean(s: State, calls: seq<Call>, n: nat)
    requires n <= |calls| && Created(s)
    requires forall k :: 0 <= k < n && calls[k].op.Find? ==>
               !StoresNothing(After(s, calls, k), calls[k].op.req, calls[k].now)
    ensures Clean(After(s, calls, n).bindings)
    ensures forall k :: 0 <= k < n ==> ReplyAt(s, calls, k) != Failed(TypeError)
  {
    if n > 0 {
      RunStaysClean(s, calls, n - 1);
      CleanStep(After(s, calls, n - 1), calls[n - 1]);
    }
  }

  /** The run leaves no key poisoned and raises no type error, at any point of it. */
  ghost predicate CleanThroughout(s: State, calls: seq<Call>) {
    && (forall k :: 0 <= k < |calls| ==> ReplyAt(s, calls, k) != Failed(TypeError))
    && (forall n :: 0 <= n <= |calls| ==> Clean(After(s, calls, n).bindings))
  }

  lemma StoringNothingStains(s: State, calls: seq<Call>, k: nat)
    requires k < |calls| && calls[k].op.Find? && StoresNothing(After(s, calls, k), calls[k].op.req, calls[k].now)
    ensures !CleanThroughout(s, calls)
  {
    StoringNothingPoisons(After(s, calls, k), calls[k].op.req, calls[k].now);
    assert ReplyAt(s, calls, k) == Failed(TypeError) || !Clean(After(s, calls, k + 1).bindings);
  }

  /** A run of a new service is clean throughout if and only if none of its queries stores nothing. */
  lemma CleanIffNoneStoresNothing(s: State, calls: seq<Call>)
    requires Created(s)
    ensures CleanThroughout(s, calls) <==>
              forall k :: 0 <= k < |calls| && calls[k].op.Find? ==>
                !StoresNothing(After(s, calls, k), calls[k].op.req, calls[k].now)
  {
    if k :| 0 <= k < |calls| && calls[k].op.Find? && StoresNothing(After(s, calls, k), calls[k].op.req, calls[k].now) {
      StoringNothingStains(s, calls, k);
    } else {
      forall n | 0 <= n <= |calls| ensures Clean(After(s, calls, n).bindings) {
        RunStaysClean(s, calls, n);
      }
      RunStaysClean(s, calls, |calls|);
    }
  }
}
