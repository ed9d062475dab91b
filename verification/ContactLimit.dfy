/**
 The limit on contacts per address of record: over every run of whole calls, and over every run in which
 `addRoute` is cut in two at its `await`.
 */
module ContactLimit {
  import opened Wrappers
  import opened CommonTypes
  import opened BindingStore
  import opened LocationSteps
  import opened QueryEffects

  /** The live bindings of an address of record. */
  function Contacts(c: Collections, aor: string, now: int): nat {
    if Lookup(c, aor, now).Ok? then |Lookup(c, aor, now).value| else 0
  }

  // ---------------------------------------------------------------- whole calls

  /** Adds for `aor` carry `limit`; no labelled query without a backend has `aor` as its call key. */
  predicate Respects(op: Op, aor: string, limit: int) {
    match op
    case Add(a, _, maxContacts) => a == aor ==> maxContacts == limit
    case Find(req) => !AddsToCall(req, aor)
    case RemoveAll(_) => true
    case Cleanup(_) => true
  }

  lemma ContactsOnlyExpire(c: Collections, aor: string, now: int, later: int)
    requires now <= later
    ensures Contacts(c, aor, later) <= Contacts(c, aor, now)
  {
    LookupLater(c, aor, now, later);
    if Lookup(c, aor, now).Ok? && Lookup(c, aor, now).value != [] {
      var r := Lookup(c, aor, now).value[0];
      LengthBounds(Lookup(c, aor, now).value, r, later);
    }
  }

  lemma AddedContacts(c: Collections, aor: string, route: Route, now: int)
    requires Lookup(c, aor, now).Ok?
    ensures var existing := Lookup(c, aor, now).value;
            var after := Contacts(Store(c, aor, Some(route), now).value, aor, now);
            && after <= |existing| + 1
            && (Exists(existing, route) ==> after <= |existing|)
  {
    LookupAfterStore(c, aor, route, now, aor, now);
    LengthBounds(Lookup(c, aor, now).value, route, now);
    LengthBounds([route], route, now);
  }

  lemma StepStaysWithin(s: State, call: Call, aor: string, limit: int)
    requires 1 <= limit && Respects(call.op, aor, limit)
    requires Contacts(s.bindings, aor, call.now) <= limit
    ensures Contacts(Step(s, call).0.bindings, aor, call.now) <= limit
  {
    var now := call.now;
    match call.op
    case Add(a, route, _) =>
      if Lookup(s.bindings, a, now).Ok? {
        AddedContacts(s.bindings, a, route, now);
        LookupAfterStore(s.bindings, a, route, now, aor, now);
      }
    case Find(req) =>
      FindEffect(s, req, now, aor, now);
      if r :| Gained(s.bindings, Step(s, call).0.bindings, aor, r, now) {
        LengthBounds([r], r, now);
      }
    case RemoveAll(_) =>
    case Cleanup(visited) => LookupAfterPrune(s.bindings, visited, now, aor, now);
  }

  /** No run of whole calls ever has more live bindings for an address of record than its limit. */
  lemma {:induction false} LimitHoldsThroughout(s: State, calls: seq<Call>, n: nat, aor: string, limit: int,
                                                start: int, now: int)
    requires Chronological(calls) && n <= |calls|
    requires 1 <= limit && Contacts(s.bindings, aor, start) <= limit
    requires forall i :: 0 <= i < n ==> Respects(calls[i].op, aor, limit) && start <= calls[i].now <= now
    requires start <= now
    ensures Contacts(After(s, calls, n).bindings, aor, now) <= limit
  {
    if n == 0 {
      ContactsOnlyExpire(s.bindings, aor, start, now);
    } else {
      LimitHoldsThroughout(s, calls, n - 1, aor, limit, start, calls[n - 1].now);
      StepStaysWithin(After(s, calls, n - 1), calls[n - 1], aor, limit);
      ContactsOnlyExpire(After(s, calls, n).bindings, aor, calls[n - 1].now, now);
    }
  }

  /** At the limit an add is refused exactly when it is not the very contact, user included, that is live already. */
  lemma AddAtTheLimit(s: State, aor: string, route: Route, limit: int, now: int)
    requires 1 <= limit && Supported(aor) && Lookup(s.bindings, aor, now).Ok?
    requires Contacts(s.bindings, aor, now) >= limit
    ensures var (after, reply) := AddRoute(s, aor, route, limit, now);
            if Exists(Lookup(s.bindings, aor, now).value, route)
            then reply == Accepted && Contacts(after.bindings, aor, now) <= Contacts(s.bindings, aor, now)
            else reply == Failed(TooManyContacts(limit)) && after == s
  {
    AddedContacts(s.bindings, aor, route, now);
  }

  // ---------------------------------------------------------------- addRoute cut at its await

  /** A call that has read the bindings and not yet checked them or written. */
  datatype Pending = Pending(aor: string, route: Route, maxContacts: int, existing: seq<Route>)

  datatype Racing = Racing(state: State, inFlight: seq<Pending>)

  datatype RaceOp =
    | Begin(aor: string, route: Route, maxContacts: int)
    | Finish(index: nat)
    | Meanwhile(op: Op)

  datatype RaceCall = RaceAt(now: int, op: RaceOp)

  function RaceStep(s: Racing, call: RaceCall): Racing {
    match call.op
    case Begin(aor, route, maxContacts) =>
      var found := Lookup(s.state.bindings, aor, call.now);
      if !Supported(aor) || found.Err? then s
      else s.(inFlight := s.inFlight + [Pending(aor, route, maxContacts, found.value)])
    case Finish(i) =>
      if i >= |s.inFlight| then s
      else
        var p := s.inFlight[i];
        var rest := s.inFlight[..i] + s.inFlight[i + 1..];
        if OverLimit(p.existing, p.route, p.maxContacts) then s.(inFlight := rest)
        else
          (match Store(s.state.bindings, p.aor, Some(p.route), call.now)
           case Err(_) => s.(inFlight := rest)
           case Ok(bindings) => Racing(s.state.(bindings := bindings), rest))
    case Meanwhile(op) => s.(state := Step(s.state, At(call.now, op)).0)
  }

  function RaceAfter(s: Racing, calls: seq<RaceCall>, n: nat): Racing
    requires n <= |calls|
  {
    if n == 0 then s else RaceStep(RaceAfter(s, calls, n - 1), calls[n - 1])
  }

  /** The calls in flight for an address of record. */
  function InFlightFor(inFlight: seq<Pending>, aor: string): nat {
    if inFlight == [] then 0
    else (if inFlight[0].aor == aor then 1 else 0) + InFlightFor(inFlight[1..], aor)
  }

  predicate RaceRespects(op: RaceOp, aor: string, limit: int) {
    match op
    case Begin(a, _, maxContacts) => a == aor ==> maxContacts == limit
    case Finish(_) => true
    case Meanwhile(Add(a, _, _)) => a != aor
    case Meanwhile(Find(req)) => !WritesTo(req, aor)
    case Meanwhile(RemoveAll(_)) => true
    case Meanwhile(Cleanup(_)) => true
  }

  type Binding = (string, Option<int>, string)

  function BindingOf(r: Route): Binding {
    (r.host, r.port, r.transport)
  }

  ghost function BindingsOf(s: seq<Route>): set<Binding> {
    set i | 0 <= i < |s| :: BindingOf(s[i])
  }

  predicate Distinct(s: seq<Route>) {
    forall i, j :: 0 <= i < j < |s| ==> !SameBinding(s[i], s[j])
  }

  /** The bindings that calls in flight are going to write. */
  ghost function Admitted(inFlight: seq<Pending>, aor: string): set<Binding> {
    set i | 0 <= i < |inFlight| && Admits(inFlight[i], aor) :: BindingOf(inFlight[i].route)
  }

  predicate Admits(p: Pending, aor: string) {
    p.aor == aor && !OverLimit(p.existing, p.route, p.maxContacts)
  }

  /** The live bindings together with those about to be written. */
  ghost function Reserved(s: Racing, aor: string, now: int): set<Binding> {
    (if Lookup(s.state.bindings, aor, now).Ok? then BindingsOf(Lookup(s.state.bindings, aor, now).value) else {})
    + Admitted(s.inFlight, aor)
  }

  ghost predicate Within(s: Racing, aor: string, bound: int, now: int) {
    && |Reserved(s, aor, now)| <= bound
    && (Lookup(s.state.bindings, aor, now).Ok? ==> Distinct(Lookup(s.state.bindings, aor, now).value))
  }

  lemma {:induction false} DistinctLength(s: seq<Route>)
    requires Distinct(s)
    ensures |BindingsOf(s)| == |s|
  {
    if s != [] {
      var init, last := s[..|s| - 1], s[|s| - 1];
      DistinctLength(init);
      assert BindingsOf(s) == BindingsOf(init) + {BindingOf(last)};
      assert BindingOf(last) !in BindingsOf(init);
    }
  }

  lemma {:induction false} FilteredDistinct(s: seq<Route>, r: Route, now: int)
    requires Distinct(s)
    ensures Distinct(Without(s, r)) && Distinct(LiveOf(s, now))
  {
    if s != [] {
      FilteredDistinct(s[1..], r, now);
      WithoutMembers(s[1..], r);
      LiveOfMembers(s[1..], now);
      assert forall q :: q in s[1..] ==> !SameBinding(s[0], q);
      assert forall i :: 0 <= i < |Without(s[1..], r)| ==> Without(s[1..], r)[i] in s[1..];
      assert forall i :: 0 <= i < |LiveOf(s[1..], now)| ==> LiveOf(s[1..], now)[i] in s[1..];
    }
  }

  lemma MembersBindings(s: seq<Route>, b: Binding)
    ensures b in BindingsOf(s) <==> exists r :: r in s && BindingOf(r) == b
  {
    if r :| r in s && BindingOf(r) == b {
      var i :| 0 <= i < |s| && s[i] == r;
      assert BindingOf(s[i]) in BindingsOf(s);
    }
  }

  lemma SmallerSet<T>(a: set<T>, b: set<T>)
    requires a <= b
    ensures |a| <= |b|
  {
    assert b == a + (b - a);
  }

  lemma {:induction false} AdmittedCount(inFlight: seq<Pending>, aor: string)
    ensures |Admitted(inFlight, aor)| <= InFlightFor(inFlight, aor)
  {
    if inFlight == [] {
      assert Admitted(inFlight, aor) == {};
    } else {
      var p, rest := inFlight[0], inFlight[1..];
      AdmittedCount(rest, aor);
      var head := if Admits(p, aor) then {BindingOf(p.route)} else {};
      assert Admitted(inFlight, aor) <= head + Admitted(rest, aor) by {
        forall b | b in Admitted(inFlight, aor) ensures b in head + Admitted(rest, aor) {
          var i :| 0 <= i < |inFlight| && Admits(inFlight[i], aor) && b == BindingOf(inFlight[i].route);
          if i > 0 {
            assert rest[i - 1] == inFlight[i];
          }
        }
      }
      SmallerSet(Admitted(inFlight, aor), head + Admitted(rest, aor));
    }
  }

  lemma WithinLater(s: Racing, aor: string, bound: int, now: int, later: int)
    requires Within(s, aor, bound, now) && now <= later
    ensures Within(s, aor, bound, later)
  {
    LookupLater(s.state.bindings, aor, now, later);
    if Lookup(s.state.bindings, aor, now).Ok? {
      var live := Lookup(s.state.bindings, aor, now).value;
      LiveOfMembers(live, later);
      forall b | b in BindingsOf(LiveOf(live, later)) ensures b in BindingsOf(live) {
        MembersBindings(live, b);
        MembersBindings(LiveOf(live, later), b);
      }
      if live != [] {
        FilteredDistinct(live, live[0], later);
      }
    }
    SmallerSet(Reserved(s, aor, later), Reserved(s, aor, now));
  }

  lemma AdmittedWithLast(inFlight: seq<Pending>, p: Pending, aor: string)
    ensures Admitted(inFlight + [p], aor) ==
            Admitted(inFlight, aor) + (if Admits(p, aor) then {BindingOf(p.route)} else {})
  {
    var longer := inFlight + [p];
    forall b | b in Admitted(inFlight, aor) ensures b in Admitted(longer, aor) {
      var i :| 0 <= i < |inFlight| && Admits(inFlight[i], aor) && b == BindingOf(inFlight[i].route);
      assert longer[i] == inFlight[i];
    }
    assert longer[|inFlight|] == p;
  }

  lemma ReservedWithLast(s: Racing, p: Pending, aor: string, now: int)
    ensures Reserved(s.(inFlight := s.inFlight + [p]), aor, now) ==
            Reserved(s, aor, now) + (if Admits(p, aor) then {BindingOf(p.route)} else {})
  {
    AdmittedWithLast(s.inFlight, p, aor);
  }

  lemma ExistsHasBinding(s: seq<Route>, r: Route)
    requires Exists(s, r)
    ensures BindingOf(r) in BindingsOf(s)
  {
    var i :| 0 <= i < |s| && SameContact(s[i], r);
    assert BindingOf(s[i]) == BindingOf(r);
  }

  lemma ReservedSize(s: Racing, aor: string, now: int, live: seq<Route>, k: int)
    requires Lookup(s.state.bindings, aor, now) == Ok(live) && Distinct(live)
    requires InFlightFor(s.inFlight, aor) <= k
    ensures |Reserved(s, aor, now)| <= |live| + k
  {
    DistinctLength(live);
    AdmittedCount(s.inFlight, aor);
    var a, b := BindingsOf(live), Admitted(s.inFlight, aor);
    assert |a + b| + |a * b| == |a| + |b|;
  }

  /** A call that starts reserves a binding beyond the live ones only while fewer than the limit are live. */
  lemma ReservingStaysWithin(s: Racing, p: Pending, aor: string, limit: int, k: int, now: int)
    requires 1 <= limit && (p.aor == aor ==> p.maxContacts == limit)
    requires Lookup(s.state.bindings, p.aor, now) == Ok(p.existing)
    requires InFlightFor(s.inFlight + [p], aor) <= k
    requires Within(s, aor, limit + k - 1, now)
    ensures Within(s.(inFlight := s.inFlight + [p]), aor, limit + k - 1, now)
  {
    var after := s.(inFlight := s.inFlight + [p]);
    ReservedWithLast(s, p, aor, now);
    if Admits(p, aor) && !Exists(p.existing, p.route) {
      ReservedSize(after, aor, now, p.existing, k);
    } else {
      if Admits(p, aor) {
        ExistsHasBinding(p.existing, p.route);
      }
      assert Reserved(after, aor, now) == Reserved(s, aor, now);
    }
  }

  lemma BeginStaysWithin(s: Racing, call: RaceCall, aor: string, limit: int, k: int)
    requires 1 <= limit && call.op.Begin? && RaceRespects(call.op, aor, limit)
    requires InFlightFor(RaceStep(s, call).inFlight, aor) <= k
    requires Within(s, aor, limit + k - 1, call.now)
    ensures Within(RaceStep(s, call), aor, limit + k - 1, call.now)
  {
    var found := Lookup(s.state.bindings, call.op.aor, call.now);
    if Supported(call.op.aor) && found.Ok? {
      var p := Pending(call.op.aor, call.op.route, call.op.maxContacts, found.value);
      ReservingStaysWithin(s, p, aor, limit, k, call.now);
    }
  }

  lemma AdmittedWithout(inFlight: seq<Pending>, i: nat, aor: string)
    requires i < |inFlight|
    ensures Admitted(inFlight[..i] + inFlight[i + 1..], aor) <= Admitted(inFlight, aor)
  {
    var rest := inFlight[..i] + inFlight[i + 1..];
    forall b | b in Admitted(rest, aor) ensures b in Admitted(inFlight, aor) {
      var j :| 0 <= j < |rest| && Admits(rest[j], aor) && b == BindingOf(rest[j].route);
      assert rest[j] == inFlight[if j < i then j else j + 1];
    }
  }

  /** The binding that is written was reserved by the call that writes it. */
  lemma WrittenWasReserved(s: Racing, i: nat, aor: string, now: int, after: Collections)
    requires i < |s.inFlight| && !OverLimit(s.inFlight[i].existing, s.inFlight[i].route, s.inFlight[i].maxContacts)
    requires Store(s.state.bindings, s.inFlight[i].aor, Some(s.inFlight[i].route), now) == Ok(after)
    requires Lookup(s.state.bindings, aor, now).Ok? ==> Distinct(Lookup(s.state.bindings, aor, now).value)
    ensures var next := Racing(s.state.(bindings := after), s.inFlight[..i] + s.inFlight[i + 1..]);
            && Reserved(next, aor, now) <= Reserved(s, aor, now)
            && (Lookup(after, aor, now).Ok? <==> Lookup(s.state.bindings, aor, now).Ok?)
            && (Lookup(after, aor, now).Ok? ==> Distinct(Lookup(after, aor, now).value))
  {
    var p := s.inFlight[i];
    AdmittedWithout(s.inFlight, i, aor);
    WrittenBindings(s.state.bindings, aor, p, now);
    hide Store, Lookup, Distinct, OverLimit;
    if p.aor == aor {
      assert Admits(s.inFlight[i], aor);
      assert BindingOf(p.route) in Admitted(s.inFlight, aor);
    }
  }

  lemma FinishStaysWithin(s: Racing, call: RaceCall, aor: string, bound: int)
    requires call.op.Finish? && Within(s, aor, bound, call.now)
    ensures Within(RaceStep(s, call), aor, bound, call.now)
  {
    var i := call.op.index;
    if i < |s.inFlight| {
      var p, after, now := s.inFlight[i], RaceStep(s, call), call.now;
      AdmittedWithout(s.inFlight, i, aor);
      if !OverLimit(p.existing, p.route, p.maxContacts) && Store(s.state.bindings, p.aor, Some(p.route), now).Ok? {
        WrittenWasReserved(s, i, aor, now, after.state.bindings);
      } else {
        assert after.state == s.state;
      }
      hide RaceStep, Store, OverLimit, Lookup, Distinct;
      SmallerSet(Reserved(after, aor, now), Reserved(s, aor, now));
    }
  }

  /** Finishing a call adds its own binding at most, and keeps one live route per binding. */
  lemma WrittenBindings(c: Collections, aor: string, p: Pending, now: int)
    requires Store(c, p.aor, Some(p.route), now).Ok?
    requires Lookup(c, aor, now).Ok? ==> Distinct(Lookup(c, aor, now).value)
    ensures var after := Lookup(Store(c, p.aor, Some(p.route), now).value, aor, now);
            && after.Ok? == Lookup(c, aor, now).Ok?
            && (after.Ok? ==>
                  && Distinct(after.value)
                  && BindingsOf(after.value) <=
                     BindingsOf(Lookup(c, aor, now).value) + if p.aor == aor then {BindingOf(p.route)} else {})
  {
    LookupAfterStore(c, p.aor, p.route, now, aor, now);
    if p.aor == aor {
      var live := Lookup(c, aor, now).value;
      var kept, after := Without(live, p.route), LiveOf([p.route], now) + Without(live, p.route);
      FilteredDistinct(live, p.route, now);
      WithoutMembers(live, p.route);
      assert forall i :: 0 <= i < |kept| ==> kept[i] in live && !SameBinding(kept[i], p.route);
      forall b | b in BindingsOf(after) ensures b in BindingsOf(live) + {BindingOf(p.route)} {
        MembersBindings(after, b);
        MembersBindings(live, b);
      }
    }
  }

  lemma MeanwhileAddsNoContact(s: State, call: Call, aor: string, limit: int)
    requires RaceRespects(Meanwhile(call.op), aor, limit)
    ensures var after := Lookup(Step(s, call).0.bindings, aor, call.now);
            after == Lookup(s.bindings, aor, call.now) || after == Ok([])
  {
    match call.op
    case Add(a, route, _) =>
      if Lookup(s.bindings, a, call.now).Ok? {
        LookupAfterStore(s.bindings, a, route, call.now, aor, call.now);
      }
    case Find(req) => FindEffect(s, req, call.now, aor, call.now);
    case RemoveAll(_) =>
    case Cleanup(visited) => LookupAfterPrune(s.bindings, visited, call.now, aor, call.now);
  }

  lemma MeanwhileStaysWithin(s: Racing, call: RaceCall, aor: string, limit: int, bound: int)
    requires call.op.Meanwhile? && RaceRespects(call.op, aor, limit) && Within(s, aor, bound, call.now)
    ensures Within(RaceStep(s, call), aor, bound, call.now)
  {
    MeanwhileAddsNoContact(s.state, At(call.now, call.op.op), aor, limit);
    SmallerSet(Reserved(RaceStep(s, call), aor, call.now), Reserved(s, aor, call.now));
  }

  lemma RaceStepStaysWithin(s: Racing, call: RaceCall, aor: string, limit: int, k: int)
    requires 1 <= limit && RaceRespects(call.op, aor, limit)
    requires InFlightFor(RaceStep(s, call).inFlight, aor) <= k
    requires Within(s, aor, limit + k - 1, call.now)
    ensures Within(RaceStep(s, call), aor, limit + k - 1, call.now)
  {
    match call.op
    case Begin(_, _, _) => BeginStaysWithin(s, call, aor, limit, k);
    case Finish(_) => FinishStaysWithin(s, call, aor, limit + k - 1);
    case Meanwhile(_) => MeanwhileStaysWithin(s, call, aor, limit, limit + k - 1);
  }

  lemma WithinBoundsContacts(s: Racing, aor: string, bound: int, now: int)
    requires Within(s, aor, bound, now)
    ensures Contacts(s.state.bindings, aor, now) <= bound
  {
    if Lookup(s.state.bindings, aor, now).Ok? {
      var live := Lookup(s.state.bindings, aor, now).value;
      DistinctLength(live);
      SmallerSet(BindingsOf(live), Reserved(s, aor, now));
    }
  }

  lemma NothingReserved(s: Racing, aor: string, bound: int, now: int)
    requires s.state.bindings == map[] && s.inFlight == [] && 0 <= bound
    ensures Within(s, aor, bound, now)
  {
    assert Reserved(s, aor, now) == {};
  }

  lemma {:induction false} RaceStaysWithin(s: Racing, calls: seq<RaceCall>, n: nat, aor: string, limit: int, k: int,
                                           now: int)
    requires n <= |calls| && 1 <= limit && 1 <= k
    requires s.state.bindings == map[] && s.inFlight == []
    requires forall i, j :: 0 <= i < j < n ==> calls[i].now <= calls[j].now
    requires forall i :: 0 <= i < n ==> RaceRespects(calls[i].op, aor, limit) && calls[i].now <= now
    requires forall i :: 0 <= i <= n ==> InFlightFor(RaceAfter(s, calls, i).inFlight, aor) <= k
    ensures Within(RaceAfter(s, calls, n), aor, limit + k - 1, now)
  {
    hide RaceStep, Within, InFlightFor;
    if n == 0 {
      NothingReserved(s, aor, limit + k - 1, now);
    } else {
      var call, before := calls[n - 1], RaceAfter(s, calls, n - 1);
      RaceStaysWithin(s, calls, n - 1, aor, limit, k, call.now);
      assert RaceAfter(s, calls, n) == RaceStep(before, call);
      RaceStepStaysWithin(before, call, aor, limit, k);
      WithinLater(RaceStep(before, call), aor, limit + k - 1, call.now, now);
    }
  }

  /** With at most `k` calls in flight for an address of record its live bindings never exceed `limit + k - 1`. */
  lemma RaceBound(s: Racing, calls: seq<RaceCall>, n: nat, aor: string, limit: int, k: int, now: int)
    requires n <= |calls| && 1 <= limit && 1 <= k
    requires s.state.bindings == map[] && s.inFlight == []
    requires forall i, j :: 0 <= i < j < n ==> calls[i].now <= calls[j].now
    requires forall i :: 0 <= i < n ==> RaceRespects(calls[i].op, aor, limit) && calls[i].now <= now
    requires forall i :: 0 <= i <= n ==> InFlightFor(RaceAfter(s, calls, i).inFlight, aor) <= k
    ensures Contacts(RaceAfter(s, calls, n).state.bindings, aor, now) <= limit + k - 1
  {
    RaceStaysWithin(s, calls, n, aor, limit, k, now);
    WithinBoundsContacts(RaceAfter(s, calls, n), aor, limit + k - 1, now);
  }
}
