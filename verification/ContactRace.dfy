/** The bound on racing contacts cannot be lowered: for every limit and every number of calls in flight it is met. */
module ContactRace {
  import opened Wrappers
  import opened CommonTypes
  import opened BindingStore
  import opened LocationSteps
  import opened ContactLimit

  ghost predicate AtMostInFlight(s: Racing, calls: seq<RaceCall>, aor: string, k: int) {
    forall i :: 0 <= i <= |calls| ==> InFlightFor(RaceAfter(s, calls, i).inFlight, aor) <= k
  }

  function End(s: Racing, calls: seq<RaceCall>): Racing {
    RaceAfter(s, calls, |calls|)
  }

  lemma {:induction false} RunOn(s: Racing, a: seq<RaceCall>, b: seq<RaceCall>, n: nat)
    requires n <= |a + b|
    ensures RaceAfter(s, a + b, n) == if n <= |a| then RaceAfter(s, a, n) else RaceAfter(End(s, a), b, n - |a|)
  {
    hide RaceStep;
    if n > 0 {
      RunOn(s, a, b, n - 1);
    }
  }

  lemma RunsTogether(s: Racing, a: seq<RaceCall>, b: seq<RaceCall>, aor: string, k: int)
    requires AtMostInFlight(s, a, aor, k) && AtMostInFlight(End(s, a), b, aor, k)
    ensures End(s, a + b) == End(End(s, a), b) && AtMostInFlight(s, a + b, aor, k)
  {
    hide RaceStep, InFlightFor;
    forall i | 0 <= i <= |a + b| ensures InFlightFor(RaceAfter(s, a + b, i).inFlight, aor) <= k {
      RunOn(s, a, b, i);
    }
    RunOn(s, a, b, |a + b|);
  }

  /** Nothing in flight, or these calls, and these live bindings. */
  predicate Stands(s: Racing, aor: string, live: seq<Route>, inFlight: seq<Pending>, now: int) {
    Lookup(s.state.bindings, aor, now) == Ok(live) && s.inFlight == inFlight
  }

  /** Live routes, no two of which are one binding, and none of which is live already. */
  predicate Newcomers(rs: seq<Route>, live: seq<Route>, now: int) {
    && Distinct(rs)
    && (forall i :: 0 <= i < |rs| ==> Live(rs[i], now))
    && (forall i, j :: 0 <= i < |rs| && 0 <= j < |live| ==> !SameBinding(live[j], rs[i]))
  }

  lemma {:induction false} NoneReplaced(live: seq<Route>, r: Route)
    requires forall j :: 0 <= j < |live| ==> !SameBinding(live[j], r)
    ensures Without(live, r) == live
  {
    if live != [] {
      NoneReplaced(live[1..], r);
    }
  }

  /** A newcomer that is written goes in front of the live ones. */
  lemma Written(c: Collections, aor: string, r: Route, live: seq<Route>, now: int)
    requires Lookup(c, aor, now) == Ok(live) && Live(r, now)
    requires forall j :: 0 <= j < |live| ==> !SameBinding(live[j], r)
    ensures Store(c, aor, Some(r), now).Ok? && Lookup(Store(c, aor, Some(r), now).value, aor, now) == Ok([r] + live)
  {
    LookupAfterStore(c, aor, r, now, aor, now);
    NoneReplaced(live, r);
    assert LiveOf([r], now) == [r];
  }

  lemma NewcomersLeft(rs: seq<Route>, live: seq<Route>, now: int)
    requires rs != [] && Newcomers(rs, live, now)
    ensures Newcomers(rs[1..], [rs[0]] + live, now) && Newcomers(rs[1..], live, now)
  {
    forall i, j | 0 <= i < |rs[1..]| && 0 <= j < |[rs[0]] + live|
      ensures !SameBinding(([rs[0]] + live)[j], rs[1..][i])
    {
      assert rs[1..][i] == rs[i + 1];
    }
  }

  // ---------------------------------------------------------------- the three parts of the run

  lemma Started(s: Racing, aor: string, r: Route, limit: int, live: seq<Route>, now: int)
    requires Supported(aor) && Lookup(s.state.bindings, aor, now) == Ok(live)
    ensures End(s, [RaceAt(now, Begin(aor, r, limit))]) == s.(inFlight := s.inFlight + [Pending(aor, r, limit, live)])
  {
    var calls := [RaceAt(now, Begin(aor, r, limit))];
    assert RaceAfter(s, calls, 0) == s;
  }

  /** Finishing the first call in flight, which was admitted when fewer than the limit were live, writes its route. */
  lemma Finished(s: Racing, aor: string, p: Pending, rest: seq<Pending>, live: seq<Route>, now: int)
    requires Stands(s, aor, live, [p] + rest, now)
    requires p.aor == aor && |p.existing| < p.maxContacts && Newcomers([p.route], live, now)
    ensures Stands(End(s, [RaceAt(now, Finish(0))]), aor, [p.route] + live, rest, now)
  {
    var calls := [RaceAt(now, Finish(0))];
    assert RaceAfter(s, calls, 0) == s;
    assert ([p] + rest)[..0] + ([p] + rest)[1..] == rest;
    assert [p.route][0] == p.route;
    Written(s.state.bindings, aor, p.route, live, now);
  }

  lemma {:induction false} InFlightCounted(inFlight: seq<Pending>, aor: string)
    ensures InFlightFor(inFlight, aor) <= |inFlight|
  {
    if inFlight != [] {
      InFlightCounted(inFlight[1..], aor);
    }
  }

  lemma OneCall(s: Racing, call: RaceCall, aor: string, k: int)
    requires |s.inFlight| <= k && |End(s, [call]).inFlight| <= k
    ensures AtMostInFlight(s, [call], aor, k)
  {
    InFlightCounted(s.inFlight, aor);
    InFlightCounted(End(s, [call]).inFlight, aor);
    assert RaceAfter(s, [call], 0) == s;
  }

  function Pendings(aor: string, rs: seq<Route>, limit: int, live: seq<Route>): seq<Pending> {
    seq(|rs|, i requires 0 <= i < |rs| => Pending(aor, rs[i], limit, live))
  }

  /** All of them begin while nothing has been written: all have read the same live bindings. */
  lemma {:induction false} AllBegin(s: Racing, aor: string, rs: seq<Route>, limit: int, live: seq<Route>, now: int,
                                    k: nat)
    returns (calls: seq<RaceCall>)
    requires Supported(aor) && Lookup(s.state.bindings, aor, now) == Ok(live) && |s.inFlight| + |rs| <= k
    ensures Stands(End(s, calls), aor, live, s.inFlight + Pendings(aor, rs, limit, live), now)
    ensures AtMostInFlight(s, calls, aor, k) && Carries(calls, aor, limit, now)
    decreases |rs|
  {
    if rs == [] {
      calls := [];
      InFlightCounted(s.inFlight, aor);
      assert s.inFlight + Pendings(aor, rs, limit, live) == s.inFlight;
    } else {
      var first := RaceAt(now, Begin(aor, rs[0], limit));
      Started(s, aor, rs[0], limit, live, now);
      OneCall(s, first, aor, k);
      var more := AllBegin(End(s, [first]), aor, rs[1..], limit, live, now, k);
      calls := [first] + more;
      RunsTogether(s, [first], more, aor, k);
      assert s.inFlight + [Pending(aor, rs[0], limit, live)] + Pendings(aor, rs[1..], limit, live)
          == s.inFlight + Pendings(aor, rs, limit, live);
    }
  }

  /** They finish one after the other, each admitted by what it had read. */
  lemma {:induction false} AllFinish(s: Racing, aor: string, rs: seq<Route>, limit: int, read: seq<Route>,
                                     live: seq<Route>, now: int, k: nat)
    returns (calls: seq<RaceCall>, after: seq<Route>)
    requires Stands(s, aor, live, Pendings(aor, rs, limit, read), now) && |rs| <= k
    requires |read| < limit && Newcomers(rs, live, now)
    ensures Stands(End(s, calls), aor, after, [], now) && |after| == |live| + |rs|
    ensures AtMostInFlight(s, calls, aor, k) && Carries(calls, aor, limit, now)
    decreases |rs|
  {
    if rs == [] {
      calls, after := [], live;
    } else {
      var finish, p := RaceAt(now, Finish(0)), Pending(aor, rs[0], limit, read);
      var rest := Pendings(aor, rs[1..], limit, read);
      assert Pendings(aor, rs, limit, read) == [p] + rest;
      Finished(s, aor, p, rest, live, now);
      OneCall(s, finish, aor, k);
      NewcomersLeft(rs, live, now);
      var more;
      more, after := AllFinish(End(s, [finish]), aor, rs[1..], limit, read, [rs[0]] + live, now, k);
      calls := [finish] + more;
      RunsTogether(s, [finish], more, aor, k);
    }
  }

  /** Every call is at `now`, and every add is for `aor` with this limit. */
  predicate Carries(calls: seq<RaceCall>, aor: string, limit: int, now: int) {
    forall i :: 0 <= i < |calls| ==>
      && calls[i].now == now
      && (calls[i].op.Finish? || (calls[i].op.Begin? && calls[i].op.aor == aor && calls[i].op.maxContacts == limit))
  }

  lemma CarriedTogether(a: seq<RaceCall>, b: seq<RaceCall>, aor: string, limit: int, now: int)
    requires Carries(a, aor, limit, now) && Carries(b, aor, limit, now)
    ensures Carries(a + b, aor, limit, now)
  {
  }

  /** One whole call. */
  lemma OneWhole(s: Racing, aor: string, r: Route, limit: int, live: seq<Route>, now: int, k: nat)
    returns (calls: seq<RaceCall>)
    requires Supported(aor) && Stands(s, aor, live, [], now) && 1 <= k
    requires |live| < limit && Newcomers([r], live, now)
    ensures Stands(End(s, calls), aor, [r] + live, [], now)
    ensures AtMostInFlight(s, calls, aor, k) && Carries(calls, aor, limit, now)
  {
    var begin, finish := [RaceAt(now, Begin(aor, r, limit))], [RaceAt(now, Finish(0))];
    var p := Pending(aor, r, limit, live);
    Started(s, aor, r, limit, live, now);
    OneCall(s, begin[0], aor, k);
    assert [] + [p] == [p] + [];
    Finished(End(s, begin), aor, p, [], live, now);
    OneCall(End(s, begin), finish[0], aor, k);
    RunsTogether(s, begin, finish, aor, k);
    calls := begin + finish;
  }

  /** Whole calls, one after the other, register the first `n` newcomers. */
  lemma {:induction false} Filled(s: Racing, aor: string, rs: seq<Route>, n: nat, limit: int, live: seq<Route>,
                                  now: int, k: nat)
    returns (calls: seq<RaceCall>, after: seq<Route>)
    requires Supported(aor) && Stands(s, aor, live, [], now) && 1 <= k
    requires n <= |rs| && |live| + n <= limit && Newcomers(rs, live, now)
    ensures Stands(End(s, calls), aor, after, [], now) && |after| == |live| + n
    ensures Newcomers(rs[n..], after, now)
    ensures AtMostInFlight(s, calls, aor, k) && Carries(calls, aor, limit, now)
    decreases n
  {
    if n == 0 {
      calls, after := [], live;
      assert rs[0..] == rs;
      InFlightCounted(s.inFlight, aor);
    } else {
      FirstNewcomer(rs, live, now);
      var first := OneWhole(s, aor, rs[0], limit, live, now, k);
      NewcomersLeft(rs, live, now);
      hide Stands, Newcomers, AtMostInFlight, Carries;
      var more;
      more, after := Filled(End(s, first), aor, rs[1..], n - 1, limit, [rs[0]] + live, now, k);
      RunsTogether(s, first, more, aor, k);
      CarriedTogether(first, more, aor, limit, now);
      calls := first + more;
      assert rs[1..][n - 1..] == rs[n..];
    }
  }

  lemma FirstNewcomer(rs: seq<Route>, live: seq<Route>, now: int)
    requires rs != [] && Newcomers(rs, live, now)
    ensures Newcomers([rs[0]], live, now)
  {
  }

  /**
   For every limit and every k there is a run from the empty service, with adds under that limit and at most k of
   them in flight, that ends with `limit + k - 1` live bindings.
   */
  lemma RaceBoundIsMet(s: Racing, aor: string, rs: seq<Route>, limit: nat, k: nat, now: int)
    returns (calls: seq<RaceCall>)
    requires s.state.bindings == map[] && s.inFlight == [] && Supported(aor)
    requires 1 <= limit && 1 <= k && |rs| == limit + k - 1 && Newcomers(rs, [], now)
    ensures AtMostInFlight(s, calls, aor, k) && Carries(calls, aor, limit, now)
    ensures Contacts(End(s, calls).state.bindings, aor, now) == limit + k - 1
  {
    var late := rs[limit - 1..];
    assert Stands(s, aor, [], [], now);
    hide Newcomers, AtMostInFlight, Carries, RaceStep;
    var first, live := Filled(s, aor, rs, limit - 1, limit, [], now, k);
    var begins := AllBegin(End(s, first), aor, late, limit, live, now, k);
    RunsTogether(s, first, begins, aor, k);
    CarriedTogether(first, begins, aor, limit, now);
    assert [] + Pendings(aor, late, limit, live) == Pendings(aor, late, limit, live);
    var finishes, after := AllFinish(End(s, first + begins), aor, late, limit, live, live, now, k);
    RunsTogether(s, first + begins, finishes, aor, k);
    CarriedTogether(first + begins, finishes, aor, limit, now);
    calls := first + begins + finishes;
  }
}
