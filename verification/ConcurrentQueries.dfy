/**
 Queries cut at every `await` of `findRoutes` and `nextWithAffinity` (mods/location/src/location.ts): what is left of
 stickiness when queries of one call overlap, and when nothing is lost.
 */
module ConcurrentQueries {
  import opened Wrappers
  import opened CommonTypes
  import opened BindingStore
  import opened LocationSteps
  import opened QueryEffects
  import Balancing

  /** What a query has read by the await it stands at. */
  datatype Stage =
    | ReadCall(remembered: seq<Route>)
    | ReadCallAgain(remembered: seq<Route>)
    | ReadRoutes(routes: seq<Route>)
    | ReadAffinity(routes: seq<Route>, held: seq<Route>)
    | Chose(route: Option<Route>)
  {
    function AwaitsLeft(): nat {
      match this
      case ReadCall(_) => 4
      case ReadCallAgain(_) => 3
      case ReadRoutes(_) => 2
      case ReadAffinity(_, _) => 1
      case Chose(_) => 0
    }
  }

  datatype Query = Query(req: FindRequest, stage: Stage)

  datatype Progress = Awaits(query: Query) | Ends(reply: Reply)

  /** Up to the first await. */
  function Start(s: State, req: FindRequest, now: int): Progress {
    match Lookup(s.bindings, req.StickyKey(), now)
    case Err(e) => Ends(Failed(e))
    case Ok(remembered) => Awaits(Query(req, ReadCall(remembered)))
  }

  /** From one await to the next, or to the end. */
  function Resume(s: State, q: Query, now: int): (State, Progress) {
    match q.stage
    case ReadCall(remembered) =>
      if remembered != [] then (s, Ends(Found(remembered)))
      else if q.req.Labelled() then
        (match Lookup(s.bindings, q.req.StickyKey(), now)
         case Err(e) => (s, Ends(Failed(e)))
         case Ok(again) => (s, Awaits(q.(stage := ReadCallAgain(again)))))
      else ReadCandidates(s, q, now)
    case ReadCallAgain(remembered) =>
      if remembered != [] then Decide(s, q.req, remembered, now) else ReadCandidates(s, q, now)
    case ReadRoutes(routes) => Decide(s, q.req, routes, now)
    case ReadAffinity(routes, held) =>
      if held != [] then (s, Awaits(q.(stage := Chose(Some(held[0])))))
      else
        (match Store(s.bindings, q.req.sessionAffinityRef, LeastSessions(routes), now)
         case Err(e) => (s, Ends(Failed(e)))
         case Ok(bindings) => (s.(bindings := bindings), Awaits(q.(stage := Chose(LeastSessions(routes))))))
    case Chose(r) => Remember(s, q.req, r, now)
  }

  function ReadCandidates(s: State, q: Query, now: int): (State, Progress) {
    match Candidates(s.bindings, q.req, now)
    case Err(e) => (s, Ends(Failed(e)))
    case Ok(routes) => (s, Awaits(q.(stage := ReadRoutes(routes))))
  }

  function Decide(s: State, req: FindRequest, routes: seq<Route>, now: int): (State, Progress) {
    if req.backend.None? then
      var (after, reply) := RememberFirst(s, routes, req, now);
      (after, Ends(reply))
    else if req.WithAffinity() then
      match Lookup(s.bindings, req.sessionAffinityRef, now)
      case Err(e) => (s, Ends(Failed(e)))
      case Ok(held) => (s, Awaits(Query(req, ReadAffinity(routes, held))))
    else
      var (rrCount, r) := LocationSteps.Next(s.rrCount, routes, req);
      Remember(s.(rrCount := rrCount), req, r, now)
  }

  function Remember(s: State, req: FindRequest, r: Option<Route>, now: int): (State, Progress) {
    match r
    case None => (s, Ends(Found([])))
    case Some(route) =>
      var (after, reply) := RememberChoice(s, route, req, now);
      (after, Ends(reply))
  }

  // ---------------------------------------------------------------- a query by itself

  /** The query resumed again and again with nothing in between. */
  function ToTheEnd(s: State, q: Query, now: int): (State, Reply)
    decreases q.stage.AwaitsLeft()
  {
    match Resume(s, q, now)
    case (after, Ends(reply)) => (after, reply)
    case (after, Awaits(more)) => ToTheEnd(after, more, now)
  }

  function Alone(s: State, req: FindRequest, now: int): (State, Reply) {
    match Start(s, req, now)
    case Ends(reply) => (s, reply)
    case Awaits(q) => ToTheEnd(s, q, now)
  }

  /** Undisturbed, the pieces are the query taken as one step. */
  lemma AloneIsOneStep(s: State, req: FindRequest, now: int)
    ensures Alone(s, req, now) == FindRoutes(s, req, now)
  {
    var start := Start(s, req, now);
    if Lookup(s.bindings, req.StickyKey(), now) == Ok([]) {
      var q := Query(req, ReadCall([]));
      assert start == Awaits(q);
      if req.Labelled() {
        var again := q.(stage := ReadCallAgain([]));
        assert Resume(s, q, now) == (s, Awaits(again));
        assert ToTheEnd(s, q, now) == ToTheEnd(s, again, now);
      }
      if Candidates(s.bindings, req, now).Ok? {
        ChoosingIsOneStep(s, req, Candidates(s.bindings, req, now).value, now);
      }
    }
  }

  /** The rest of the query taken as one step, once it has its candidates. */
  function ChosenAtOnce(s: State, req: FindRequest, routes: seq<Route>, now: int): (State, Reply) {
    if req.backend.None? then RememberFirst(s, routes, req, now)
    else match Choose(s, routes, req, now)
      case Err(e) => (s, Failed(e))
      case Ok((chosen, None)) => (chosen, Found([]))
      case Ok((chosen, Some(r))) => RememberChoice(chosen, r, req, now)
  }

  lemma ChoosingIsOneStep(s: State, req: FindRequest, routes: seq<Route>, now: int)
    ensures ToTheEnd(s, Query(req, ReadRoutes(routes)), now) == ChosenAtOnce(s, req, routes, now)
  {
    hide RememberFirst, RememberChoice;
    if req.WithAffinity() && Lookup(s.bindings, req.sessionAffinityRef, now).Ok? {
      var held := Lookup(s.bindings, req.sessionAffinityRef, now).value;
      var q := Query(req, ReadAffinity(routes, held));
      assert Resume(s, Query(req, ReadRoutes(routes)), now) == (s, Awaits(q));
      assert ToTheEnd(s, Query(req, ReadRoutes(routes)), now) == ToTheEnd(s, q, now);
      AffinityIsOneStep(s, req, routes, held, now);
    }
  }

  lemma AffinityIsOneStep(s: State, req: FindRequest, routes: seq<Route>, held: seq<Route>, now: int)
    requires req.WithAffinity() && Lookup(s.bindings, req.sessionAffinityRef, now) == Ok(held)
    ensures ToTheEnd(s, Query(req, ReadAffinity(routes, held)), now) == ChosenAtOnce(s, req, routes, now)
  {
    hide RememberChoice, RememberFirst;
    var q := Query(req, ReadAffinity(routes, held));
    var bindings := if held != [] then s.bindings
                    else Store(s.bindings, req.sessionAffinityRef, LeastSessions(routes), now).value;
    var chosen, r := s.(bindings := bindings), if held != [] then Some(held[0]) else LeastSessions(routes);
    assert Choose(s, routes, req, now) == Ok((chosen, r));
    assert Resume(s, q, now) == (chosen, Awaits(Query(req, Chose(r))));
    assert ToTheEnd(s, q, now) == ToTheEnd(chosen, Query(req, Chose(r)), now);
    var (after, end) := Resume(chosen, Query(req, Chose(r)), now);
    assert end.Ends?;
  }

  // ---------------------------------------------------------------- what one piece can write

  /** Only queries with a backend get to a choice, and only those with affinity to the affinity reference. */
  predicate Sane(q: Query) {
    && (q.stage.ReadAffinity? ==> q.req.WithAffinity())
    && (q.stage.Chose? ==> q.req.backend.Some?)
  }

  lemma StaysSane(s: State, q: Query, now: int)
    requires Sane(q)
    ensures Resume(s, q, now).1.Awaits? ==> Sane(Resume(s, q, now).1.query) && Resume(s, q, now).1.query.req == q.req
  {
    hide Store, LeastSessions, Candidates;
  }

  /** A piece of a query writes nothing, or one key of the query's own. */
  lemma OneWrite(s: State, q: Query, now: int)
    requires Sane(q)
    ensures var after := Resume(s, q, now).0.bindings;
            after == s.bindings
            || exists key, r :: WritesTo(q.req, key) && Store(s.bindings, key, r, now) == Ok(after)
  {
    match q.stage
    case ReadCall(_) =>
    case ReadCallAgain(remembered) => DecideWritesOnce(s, q.req, remembered, now);
    case ReadRoutes(routes) => DecideWritesOnce(s, q.req, routes, now);
    case ReadAffinity(_, _) => assert WritesTo(q.req, q.req.sessionAffinityRef);
    case Chose(r) =>
      RememberWritesOnce(s, q.req, r, now);
      assert WritesTo(q.req, q.req.StickyKey());
  }

  lemma RememberWritesOnce(s: State, req: FindRequest, r: Option<Route>, now: int)
    ensures var after := Remember(s, req, r, now).0.bindings;
            after == s.bindings || Store(s.bindings, req.StickyKey(), r, now) == Ok(after)
  {
  }

  lemma DecideWritesOnce(s: State, req: FindRequest, routes: seq<Route>, now: int)
    ensures var after := Decide(s, req, routes, now).0.bindings;
            after == s.bindings
            || exists key, r :: WritesTo(req, key) && Store(s.bindings, key, r, now) == Ok(after)
  {
    if req.backend.None? {
      assert WritesTo(req, req.CallKey());
    } else if !req.WithAffinity() {
      var (rrCount, r) := LocationSteps.Next(s.rrCount, routes, req);
      RememberWritesOnce(s.(rrCount := rrCount), req, r, now);
      assert WritesTo(req, req.StickyKey());
    }
  }

  /** How a store on any key shows in a look-up. */
  lemma StoreShows(c: Collections, key: string, r: Option<Route>, now: int, k: string)
    requires Store(c, key, r, now).Ok?
    ensures var after := Lookup(Store(c, key, r, now).value, k, now);
            if k != key then after == Lookup(c, k, now)
            else if r.None? then Lookup(c, k, now) == Ok([]) && after == Err(TypeError)
            else
              && Lookup(c, k, now).Ok?
              && after == Ok(LiveOf([r.value], now) + Without(Lookup(c, k, now).value, r.value))
  {
    if r.Some? {
      LookupAfterStore(c, key, r.value, now, k, now);
    }
  }

  // ---------------------------------------------------------------- runs

  datatype Cut = Cut(state: State, inFlight: seq<Query>)

  datatype CutOp = Ask(req: FindRequest) | Go(index: nat) | Meanwhile(op: Op)

  datatype CutCall = CutAt(now: int, op: CutOp)

  function CutStep(s: Cut, call: CutCall): Cut {
    match call.op
    case Ask(req) =>
      (match Start(s.state, req, call.now)
       case Ends(_) => s
       case Awaits(q) => s.(inFlight := s.inFlight + [q]))
    case Go(i) =>
      if i >= |s.inFlight| then s
      else
        var (after, progress) := Resume(s.state, s.inFlight[i], call.now);
        Cut(after, match progress
                   case Ends(_) => s.inFlight[..i] + s.inFlight[i + 1..]
                   case Awaits(q) => s.inFlight[i := q])
    case Meanwhile(op) => s.(state := Step(s.state, LocationSteps.At(call.now, op)).0)
  }

  /** The request that is answered in this step, and its answer. */
  function Answered(s: Cut, call: CutCall): Option<(FindRequest, Reply)> {
    match call.op
    case Ask(req) =>
      (match Start(s.state, req, call.now)
       case Ends(reply) => Some((req, reply))
       case Awaits(_) => None)
    case Go(i) =>
      if i >= |s.inFlight| then None
      else
        (match Resume(s.state, s.inFlight[i], call.now).1
         case Ends(reply) => Some((s.inFlight[i].req, reply))
         case Awaits(_) => None)
    case Meanwhile(_) => None
  }

  function CutAfter(s: Cut, calls: seq<CutCall>, n: nat): Cut
    requires n <= |calls|
  {
    if n == 0 then s else CutStep(CutAfter(s, calls, n - 1), calls[n - 1])
  }

  ghost predicate InOrder(calls: seq<CutCall>) {
    forall i, j :: 0 <= i < j < |calls| ==> calls[i].now <= calls[j].now
  }

  // ---------------------------------------------------------------- when a call sticks

  /** The request writes `key` only as its own call key. */
  predicate Reserves(req: FindRequest, key: string) {
    (WritesTo(req, key) ==> req.StickyKey() == key) && (req.WithAffinity() ==> req.sessionAffinityRef != key)
  }

  /** Every query is cut, and adds and removals leave the key alone. */
  predicate Respects(op: CutOp, key: string) {
    match op
    case Ask(req) => Reserves(req, key)
    case Go(_) => true
    case Meanwhile(Add(aor, _, _)) => aor != key
    case Meanwhile(RemoveAll(aor)) => aor != key
    case Meanwhile(Cleanup(_)) => true
    case Meanwhile(Find(_)) => false
  }

  ghost predicate Orderly(inFlight: seq<Query>, key: string) {
    forall i :: 0 <= i < |inFlight| ==> Sane(inFlight[i]) && Reserves(inFlight[i].req, key)
  }

  /**
   While `r` is live the key answers exactly it, and every query of the call that is in flight has read exactly it.
   */
  ghost predicate Settled(s: Cut, key: string, r: Route, now: int) {
    && Orderly(s.inFlight, key)
    && (Live(r, now) ==>
          && Lookup(s.state.bindings, key, now) == Ok([r])
          && forall i :: 0 <= i < |s.inFlight| && s.inFlight[i].req.StickyKey() == key ==>
               s.inFlight[i].stage == ReadCall([r]))
  }

  lemma SettledLater(s: Cut, key: string, r: Route, now: int, later: int)
    requires Settled(s, key, r, now) && now <= later
    ensures Settled(s, key, r, later)
  {
    LookupLater(s.state.bindings, key, now, later);
    if Live(r, later) {
      assert LiveOf([r], later) == [r];
    }
  }

  lemma OrderlyStep(s: Cut, call: CutCall, key: string)
    requires Orderly(s.inFlight, key) && Respects(call.op, key)
    ensures Orderly(CutStep(s, call).inFlight, key)
  {
    hide Resume, WritesTo, Lookup;
    if call.op.Go? && call.op.index < |s.inFlight| {
      StaysSane(s.state, s.inFlight[call.op.index], call.now);
    }
  }

  lemma OtherQueriesLeaveTheKey(s: State, q: Query, now: int, key: string)
    requires Sane(q) && Reserves(q.req, key) && q.req.StickyKey() != key
    ensures Lookup(Resume(s, q, now).0.bindings, key, now) == Lookup(s.bindings, key, now)
  {
    hide Resume, Store, Lookup;
    OneWrite(s, q, now);
    var after := Resume(s, q, now).0.bindings;
    if after != s.bindings {
      var k, r :| WritesTo(q.req, k) && Store(s.bindings, k, r, now) == Ok(after);
      StoreShows(s.bindings, k, r, now, key);
    }
  }

  lemma MeanwhileLeavesTheKey(s: State, op: Op, now: int, key: string)
    requires Respects(Meanwhile(op), key)
    ensures Lookup(Step(s, LocationSteps.At(now, op)).0.bindings, key, now) == Lookup(s.bindings, key, now)
  {
    match op
    case Add(aor, route, _) =>
      if Lookup(s.bindings, aor, now).Ok? {
        LookupAfterStore(s.bindings, aor, route, now, key, now);
      }
    case RemoveAll(_) =>
    case Cleanup(visited) => LookupAfterPrune(s.bindings, visited, now, key, now);
  }

  lemma SettledStep(s: Cut, call: CutCall, key: string, r: Route)
    requires Settled(s, key, r, call.now) && Respects(call.op, key)
    ensures Settled(CutStep(s, call), key, r, call.now)
    ensures var answered := Answered(s, call);
            answered.Some? && answered.value.0.StickyKey() == key && Live(r, call.now) ==>
              answered.value.1 == Found([r])
  {
    OrderlyStep(s, call, key);
    match call.op
    case Ask(_) =>
    case Go(i) =>
      if i < |s.inFlight| {
        var q := s.inFlight[i];
        StaysSane(s.state, q, call.now);
        if q.req.StickyKey() != key {
          OtherQueriesLeaveTheKey(s.state, q, call.now, key);
          hide Resume;
        }
      }
    case Meanwhile(op) => MeanwhileLeavesTheKey(s.state, op, call.now, key);
  }

  lemma {:induction false} SettledThroughout(s: Cut, calls: seq<CutCall>, i: nat, j: nat, key: string, r: Route)
    requires InOrder(calls) && i < j < |calls|
    requires Settled(CutAfter(s, calls, i + 1), key, r, calls[i].now)
    requires forall k :: i < k < j ==> Respects(calls[k].op, key)
    ensures Settled(CutAfter(s, calls, j), key, r, calls[j].now)
  {
    hide Settled, CutStep;
    if j == i + 1 {
      SettledLater(CutAfter(s, calls, j), key, r, calls[i].now, calls[j].now);
    } else {
      SettledThroughout(s, calls, i, j - 1, key, r);
      SettledStep(CutAfter(s, calls, j - 1), calls[j - 1], key, r);
      SettledLater(CutAfter(s, calls, j), key, r, calls[j - 1].now, calls[j].now);
    }
  }

  /**
   The query is done with its choice of `r` while the call key answers nothing, and no other query of the call is in
   flight.
   */
  ghost predicate SoleChoice(s: Cut, call: CutCall, key: string, r: Route) {
    && call.op.Go? && call.op.index < |s.inFlight| && Orderly(s.inFlight, key)
    && s.inFlight[call.op.index].req.StickyKey() == key && s.inFlight[call.op.index].req.backend.Some?
    && !s.inFlight[call.op.index].stage.ReadCall?
    && Lookup(s.state.bindings, key, call.now) == Ok([])
    && (forall i :: 0 <= i < |s.inFlight| && i != call.op.index ==> s.inFlight[i].req.StickyKey() != key)
    && Answered(s, call) == Some((s.inFlight[call.op.index].req, Found([r])))
  }

  lemma ChoiceIsRemembered(s: State, q: Query, now: int, r: Route)
    requires Sane(q) && q.req.backend.Some? && !q.stage.ReadCall?
    requires Resume(s, q, now).1 == Ends(Found([r]))
    ensures Store(s.bindings, q.req.StickyKey(), Some(r), now) == Ok(Resume(s, q, now).0.bindings)
  {
    if q.stage.ReadRoutes? || (q.stage.ReadCallAgain? && q.stage.remembered != []) {
      var routes := if q.stage.ReadRoutes? then q.stage.routes else q.stage.remembered;
      assert Resume(s, q, now) == Decide(s, q.req, routes, now);
      var (rrCount, chosen) := LocationSteps.Next(s.rrCount, routes, q.req);
      RememberedFound(s.(rrCount := rrCount), q.req, chosen, now, r);
    } else if q.stage.Chose? {
      RememberedFound(s, q.req, q.stage.route, now, r);
    }
  }

  lemma RememberedFound(s: State, req: FindRequest, chosen: Option<Route>, now: int, r: Route)
    ensures Remember(s, req, chosen, now).1 == Ends(Found([r])) ==>
              Store(s.bindings, req.StickyKey(), Some(r), now) == Ok(Remember(s, req, chosen, now).0.bindings)
  {
    if chosen.Some? && Remember(s, req, chosen, now).1 == Ends(Found([r])) {
      assert [chosen.value][0] == [r][0];
    }
  }

  lemma ChoiceIsAnswered(s: State, q: Query, now: int, r: Route)
    requires Sane(q) && q.req.backend.Some? && !q.stage.ReadCall? && Live(r, now)
    requires Resume(s, q, now).1 == Ends(Found([r])) && Lookup(s.bindings, q.req.StickyKey(), now) == Ok([])
    ensures Lookup(Resume(s, q, now).0.bindings, q.req.StickyKey(), now) == Ok([r])
  {
    hide Resume, Store, Lookup;
    ChoiceIsRemembered(s, q, now, r);
    StoreShows(s.bindings, q.req.StickyKey(), Some(r), now, q.req.StickyKey());
    assert LiveOf([r], now) == [r] && Without([], r) == [] && [r] + [] == [r];
  }

  lemma OthersStay(inFlight: seq<Query>, index: nat, key: string)
    requires index < |inFlight| && Orderly(inFlight, key)
    requires forall i :: 0 <= i < |inFlight| && i != index ==> inFlight[i].req.StickyKey() != key
    ensures var left := inFlight[..index] + inFlight[index + 1..];
            && Orderly(left, key)
            && forall i :: 0 <= i < |left| ==> left[i].req.StickyKey() != key
  {
    hide Sane, Reserves;
    var left := inFlight[..index] + inFlight[index + 1..];
    assert forall i :: 0 <= i < |left| ==> left[i] == inFlight[if i < index then i else i + 1];
  }

  lemma SoleChoiceSettles(s: Cut, call: CutCall, key: string, r: Route)
    requires SoleChoice(s, call, key, r)
    ensures Settled(CutStep(s, call), key, r, call.now)
  {
    hide Resume, Lookup, Sane, Reserves;
    OthersStay(s.inFlight, call.op.index, key);
    if Live(r, call.now) {
      ChoiceIsAnswered(s.state, s.inFlight[call.op.index], call.now, r);
    }
  }

  /**
   When a query with a backend is done with its choice and no other query of its call is in flight, every query of
   the call that is answered later answers exactly that route until it expires, however later queries overlap.
   */
  lemma SoleChoiceSticks(s: Cut, calls: seq<CutCall>, i: nat, j: nat, key: string, r: Route)
    requires InOrder(calls) && i < j < |calls|
    requires SoleChoice(CutAfter(s, calls, i), calls[i], key, r)
    requires forall k :: i < k <= j ==> Respects(calls[k].op, key)
    requires Live(r, calls[j].now)
    requires Answered(CutAfter(s, calls, j), calls[j]).Some?
    requires Answered(CutAfter(s, calls, j), calls[j]).value.0.StickyKey() == key
    ensures Answered(CutAfter(s, calls, j), calls[j]).value.1 == Found([r])
  {
    hide SoleChoice, Settled, Answered;
    SoleChoiceSettles(CutAfter(s, calls, i), calls[i], key, r);
    SettledThroughout(s, calls, i, j, key, r);
    SettledStep(CutAfter(s, calls, j), calls[j], key, r);
  }

  /** The same endpoint at another host. */
  function Elsewhere(r: Route): Route {
    r.(host := r.host + "x")
  }

  /** The address of record is cleared, the endpoint registers elsewhere, and the query goes on to its end. */
  function MovingRun(aor: string, r: Route, index: nat, now: int): seq<CutCall> {
    [CutAt(now, Meanwhile(RemoveAll(aor))), CutAt(now, Meanwhile(Add(aor, Elsewhere(r), -1))),
     CutAt(now, Go(index)), CutAt(now, Go(index))]
  }

  /**
   A query of the call that has read that the call key answers nothing, and can reach its end without another await.
   */
  predicate HasReadNothing(q: Query) {
    q.stage == ReadCall([]) && !q.req.Labelled() && !q.req.WithAffinity() && Supported(q.req.aor)
  }

  /**
   Why no other query of the call may be in flight: one that has read nothing can still be answered differently from
   what the call key answers by now, though nothing has touched the call key.
   */
  lemma AnotherInFlightMayDiffer(s: Cut, i: nat, r: Route, now: int)
    requires i < |s.inFlight| && HasReadNothing(s.inFlight[i]) && Live(r, now)
    requires Lookup(s.state.bindings, s.inFlight[i].req.StickyKey(), now) == Ok([r])
    ensures var req := s.inFlight[i].req;
            var calls := MovingRun(req.aor, r, i, now);
            && (forall k :: 0 <= k < |calls| ==> Respects(calls[k].op, req.StickyKey()))
            && Answered(CutAfter(s, calls, 3), calls[3]).Some?
            && Answered(CutAfter(s, calls, 3), calls[3]).value.0 == req
            && Answered(CutAfter(s, calls, 3), calls[3]).value.1 in {Found([Elsewhere(r)]), Found([])}
            && Found([Elsewhere(r)]) != Found([r]) && Found([]) != Found([r])
  {
    hide Lookup, Resume;
    var req, key := s.inFlight[i].req, s.inFlight[i].req.StickyKey();
    var calls, x := MovingRun(req.aor, r, i, now), Elsewhere(r);
    assert |key| > |req.aor|;
    assert |x.host| == |r.host| + 1 && [x][0] == x && [r][0] == r;
    MovedAway(s.state, req.aor, r, key, now);
    var s1 := CutAfter(s, calls, 1);
    assert CutAfter(s, calls, 0) == s && s1 == CutStep(s, calls[0]);
    var s2 := CutAfter(s, calls, 2);
    assert s2 == CutStep(s1, calls[1]) && s2.inFlight == s.inFlight;
    ReadsCandidates(s2.state, req, [x], now);
    var s3 := CutAfter(s, calls, 3);
    assert s3 == CutStep(s2, calls[2]);
    assert s3.state == s2.state && s3.inFlight[i] == Query(req, ReadRoutes([x]));
    DecidesFromOne(s3.state, req, x, r, now);
  }

  lemma MovedAway(s: State, aor: string, r: Route, key: string, now: int)
    requires Supported(aor) && key != aor && Live(r, now)
    ensures var cleared := Step(s, LocationSteps.At(now, RemoveAll(aor))).0;
            var moved := Step(cleared, LocationSteps.At(now, Add(aor, Elsewhere(r), -1))).0;
            && Lookup(moved.bindings, aor, now) == Ok([Elsewhere(r)])
            && Lookup(moved.bindings, key, now) == Lookup(s.bindings, key, now)
  {
    var cleared, x := Step(s, LocationSteps.At(now, RemoveAll(aor))).0, Elsewhere(r);
    assert Lookup(cleared.bindings, aor, now) == Ok([]);
    LookupAfterStore(cleared.bindings, aor, x, now, aor, now);
    LookupAfterStore(cleared.bindings, aor, x, now, key, now);
    assert LiveOf([x], now) == [x] && Without([], x) == [] && [x] + [] == [x];
  }

  /** Whatever the balancing, one route to choose from is chosen, or none where the counter stands beyond it. */
  lemma DecidesFromOne(s: State, req: FindRequest, x: Route, r: Route, now: int)
    requires !req.Labelled() && !req.WithAffinity() && Lookup(s.bindings, req.StickyKey(), now) == Ok([r])
    ensures Resume(s, Query(req, ReadRoutes([x])), now).1 in {Ends(Found([x])), Ends(Found([]))}
  {
    assert SortBySessions([x]) == [x] by { assert [x][1..] == []; }
    StoresOk(s.bindings, req.StickyKey(), x, now);
  }

  lemma StoresOk(c: Collections, key: string, x: Route, now: int)
    requires Lookup(c, key, now).Ok?
    ensures Store(c, key, Some(x), now).Ok?
  {
  }

  // ---------------------------------------------------------------- what survives an overlap

  ghost predicate Answers(s: Cut, key: string, r: Route, now: int) {
    Lookup(s.state.bindings, key, now).Ok? && r in Lookup(s.state.bindings, key, now).value
  }

  /** The step puts another route of the binding of `r` in front under the key. */
  ghost predicate Rebinds(before: Cut, after: Cut, key: string, r: Route, now: int) {
    exists q :: q != r && SameBinding(q, r)
      && Store(before.state.bindings, key, Some(q), now) == Ok(after.state.bindings)
  }

  ghost predicate RebindsAt(s: Cut, calls: seq<CutCall>, k: nat, key: string, r: Route)
    requires k < |calls|
  {
    var before := CutAfter(s, calls, k);
    Rebinds(before, CutStep(before, calls[k]), key, r, calls[k].now)
  }

  lemma AnswersAreLive(s: Cut, key: string, r: Route, now: int)
    requires Answers(s, key, r, now)
    ensures Live(r, now)
  {
    if key in s.state.bindings {
      LiveOfMembers(s.state.bindings[key].routes, now);
    }
  }

  lemma ResumeKeeps(s: Cut, call: CutCall, key: string, r: Route)
    requires call.op.Go? && call.op.index < |s.inFlight| && Sane(s.inFlight[call.op.index])
    requires Answers(s, key, r, call.now)
    ensures Answers(CutStep(s, call), key, r, call.now) || Rebinds(s, CutStep(s, call), key, r, call.now)
  {
    hide Resume, Store;
    var q, c := s.inFlight[call.op.index], s.state.bindings;
    AnswersAreLive(s, key, r, call.now);
    OneWrite(s.state, q, call.now);
    var after := Resume(s.state, q, call.now).0.bindings;
    if after != c {
      var k, x :| WritesTo(q.req, k) && Store(c, k, x, call.now) == Ok(after);
      StoreShows(c, k, x, call.now, key);
      if k == key && x.Some? {
        WithoutMembers(Lookup(c, key, call.now).value, x.value);
        LiveOfMembers([x.value], call.now);
        if x.value != r && SameBinding(x.value, r) {
          assert Rebinds(s, CutStep(s, call), key, r, call.now);
        }
      }
    }
  }

  lemma StepKeepsAnswering(s: Cut, call: CutCall, key: string, r: Route)
    requires Answers(s, key, r, call.now) && Respects(call.op, key)
    requires forall i :: 0 <= i < |s.inFlight| ==> Sane(s.inFlight[i])
    ensures Answers(CutStep(s, call), key, r, call.now) || Rebinds(s, CutStep(s, call), key, r, call.now)
  {
    match call.op
    case Ask(_) =>
    case Go(i) =>
      if i < |s.inFlight| {
        ResumeKeeps(s, call, key, r);
      }
    case Meanwhile(op) => MeanwhileLeavesTheKey(s.state, op, call.now, key);
  }

  /**
   However queries overlap, a route that a call key answers stays among its answers until it expires or another route
   of the very same binding takes its place.
   */
  lemma {:induction false} ChosenRouteIsNotLost(s: Cut, calls: seq<CutCall>, i: nat, j: nat, key: string, r: Route)
    requires InOrder(calls) && i <= j < |calls|
    requires Orderly(CutAfter(s, calls, i).inFlight, key) && Answers(CutAfter(s, calls, i), key, r, calls[i].now)
    requires forall k :: i <= k < j ==> Respects(calls[k].op, key)
    requires forall k :: i <= k < j ==> !RebindsAt(s, calls, k, key, r)
    requires Live(r, calls[j].now)
    ensures Orderly(CutAfter(s, calls, j).inFlight, key) && Answers(CutAfter(s, calls, j), key, r, calls[j].now)
  {
    hide CutStep, Rebinds, Orderly, Answers, Respects;
    if i < j {
      assert Live(r, calls[j - 1].now) by { LiveBefore(r, calls[j - 1].now, calls[j].now); }
      ChosenRouteIsNotLost(s, calls, i, j - 1, key, r);
      var before := CutAfter(s, calls, j - 1);
      assert CutAfter(s, calls, j) == CutStep(before, calls[j - 1]);
      assert !RebindsAt(s, calls, j - 1, key, r);
      OrderlyStep(before, calls[j - 1], key);
      OrderlyIsSane(before.inFlight, key);
      StepKeepsAnswering(before, calls[j - 1], key, r);
      AnswersLater(CutAfter(s, calls, j), key, r, calls[j - 1].now, calls[j].now);
    }
  }

  lemma LiveBefore(r: Route, now: int, later: int)
    requires Live(r, later) && now <= later
    ensures Live(r, now)
  {
  }

  lemma OrderlyIsSane(inFlight: seq<Query>, key: string)
    requires Orderly(inFlight, key)
    ensures forall i :: 0 <= i < |inFlight| ==> Sane(inFlight[i])
  {
  }

  lemma AnswersLater(s: Cut, key: string, r: Route, now: int, later: int)
    requires Answers(s, key, r, now) && now <= later && Live(r, later)
    ensures Answers(s, key, r, later)
  {
    LookupLater(s.state.bindings, key, now, later);
    LiveOfMembers(Lookup(s.state.bindings, key, now).value, later);
  }

  // ---------------------------------------------------------------- an overlap that does not stick

  function OverlappingRun(req: FindRequest, now: int): seq<CutCall> {
    [CutAt(now, Ask(req)), CutAt(now, Ask(req)),
     CutAt(now, Go(0)), CutAt(now, Go(1)), CutAt(now, Go(0)), CutAt(now, Go(0))]
  }

  /** A query that asks a round-robin counter and has no labels. */
  predicate RoundRobin(req: FindRequest) {
    && req.backend.Some? && req.backend.value.balancingAlgorithm == ROUND_ROBIN
    && !req.WithAffinity() && !req.Labelled()
  }

  /** A first query of its call, with at least two bindings to choose from and the counter anywhere among them. */
  predicate FirstOfSeveral(s: State, req: FindRequest, routes: seq<Route>, now: int) {
    && RoundRobin(req) && Position(s.rrCount, req.CounterRef()) < |routes|
    && Lookup(s.bindings, req.StickyKey(), now) == Ok([])
    && Lookup(s.bindings, req.aor, now) == Ok(routes) && |routes| >= 2
    && (forall i :: 0 <= i < |routes| ==> Live(routes[i], now))
    && (forall i, j :: 0 <= i < j < |routes| ==> !SameBinding(routes[i], routes[j]))
  }

  /** The place after `c` in a list of `n`, cyclically. */
  function Following(c: nat, n: nat): nat {
    if c + 1 >= n then 0 else c + 1
  }

  /** Both have read the same routes when the first of them decides. */
  lemma BothRead(s: Cut, req: FindRequest, routes: seq<Route>, now: int)
    requires s.inFlight == [] && FirstOfSeveral(s.state, req, routes, now)
    ensures var read := Query(req, ReadRoutes(routes));
            CutAfter(s, OverlappingRun(req, now), 4) == Cut(s.state, [read, read])
  {
    hide Lookup, Resume;
    var calls, asked, read := OverlappingRun(req, now), Query(req, ReadCall([])), Query(req, ReadRoutes(routes));
    assert CutAfter(s, calls, 1).inFlight == [asked];
    assert CutAfter(s, calls, 2) == Cut(s.state, [asked, asked]);
    ReadsCandidates(s.state, req, routes, now);
    assert CutAfter(s, calls, 3) == Cut(s.state, [read, asked]);
  }

  /**
   A query that has read these routes decides: it is answered the one at the counter, which its call key answers
   first.
   */
  lemma OneDecides(s: State, req: FindRequest, routes: seq<Route>, live: seq<Route>, now: int)
    requires RoundRobin(req) && Position(s.rrCount, req.CounterRef()) < |routes|
    requires Lookup(s.bindings, req.StickyKey(), now) == Ok(live)
    requires var r := routes[Position(s.rrCount, req.CounterRef())];
             Live(r, now) && forall q :: q in live ==> !SameBinding(q, r)
    ensures var c, (after, progress) := Position(s.rrCount, req.CounterRef()),
                                        Resume(s, Query(req, ReadRoutes(routes)), now);
            && progress == Ends(Found([routes[c]]))
            && Position(after.rrCount, req.CounterRef()) == Following(c, |routes|)
            && Lookup(after.bindings, req.StickyKey(), now) == Ok([routes[c]] + live)
  {
    hide Lookup, Resume, Position;
    var r := routes[Position(s.rrCount, req.CounterRef())];
    DecidesByTurn(s, req, routes, live, now);
    Balancing.NothingWithout(live, r);
    assert LiveOf([r], now) == [r];
  }

  /**
   Two first queries of one call that overlap get the route at the counter and the one after it, cyclically; the call
   key then answers both.
   */
  lemma OverlappingFirstQueriesDiffer(s: Cut, req: FindRequest, routes: seq<Route>, now: int)
    requires s.inFlight == [] && FirstOfSeveral(s.state, req, routes, now)
    ensures var calls, c := OverlappingRun(req, now), Position(s.state.rrCount, req.CounterRef());
            var a, b := routes[c], routes[Following(c, |routes|)];
            && !SameBinding(a, b)
            && Answered(CutAfter(s, calls, 4), calls[4]) == Some((req, Found([a])))
            && Answered(CutAfter(s, calls, 5), calls[5]) == Some((req, Found([b])))
            && Lookup(CutAfter(s, calls, 6).state.bindings, req.StickyKey(), now) == Ok([b, a])
  {
    hide Lookup, Resume, Position;
    var calls, read := OverlappingRun(req, now), Query(req, ReadRoutes(routes));
    var c := Position(s.state.rrCount, req.CounterRef());
    var a, b := routes[c], routes[Following(c, |routes|)];
    assert !SameBinding(a, b) && Live(a, now) && Live(b, now);
    BothRead(s, req, routes, now);
    hide FirstOfSeveral, CutStep;
    OneDecides(s.state, req, routes, [], now);
    var after := Resume(s.state, read, now).0;
    FirstEnds(Cut(s.state, [read, read]), now);
    assert CutAfter(s, calls, 5) == CutStep(CutAfter(s, calls, 4), calls[4]) == Cut(after, [read]);
    assert [a] + [] == [a] && [b] + [a] == [b, a];
    OneDecides(after, req, routes, [a], now);
    FirstEnds(Cut(after, [read]), now);
    assert CutAfter(s, calls, 6) == CutStep(CutAfter(s, calls, 5), calls[5]);
  }

  /** When the first query in flight ends, the others stay. */
  lemma FirstEnds(s: Cut, now: int)
    requires s.inFlight != [] && Resume(s.state, s.inFlight[0], now).1.Ends?
    ensures CutStep(s, CutAt(now, Go(0))) == Cut(Resume(s.state, s.inFlight[0], now).0, s.inFlight[1..])
  {
    hide Resume;
    assert s.inFlight[..0] + s.inFlight[1..] == s.inFlight[1..];
  }

  /** A new service gets there with two adds, for any call. */
  lemma NewServiceGetsThere(s: State, req: FindRequest, a: Route, b: Route, now: int)
    requires Created(s) && Supported(req.aor) && RoundRobin(req)
    requires Live(a, now) && Live(b, now) && !SameBinding(a, b)
    ensures var calls := [LocationSteps.At(now, Add(req.aor, a, -1)), LocationSteps.At(now, Add(req.aor, b, -1))];
            FirstOfSeveral(After(s, calls, 2), req, [b, a], now)
  {
    var calls := [LocationSteps.At(now, Add(req.aor, a, -1)), LocationSteps.At(now, Add(req.aor, b, -1))];
    Balancing.AfterTwoAdds(s, calls, req.aor, a, b, now);
    hide Lookup;
    assert |req.StickyKey()| > |req.aor|;
  }

  lemma ReadsCandidates(s: State, req: FindRequest, routes: seq<Route>, now: int)
    requires !req.Labelled() && Lookup(s.bindings, req.aor, now) == Ok(routes)
    ensures Resume(s, Query(req, ReadCall([])), now) == (s, Awaits(Query(req, ReadRoutes(routes))))
  {
  }

  /** The choice among the routes that were read is by the counter as it stands now. */
  lemma DecidesByTurn(s: State, req: FindRequest, routes: seq<Route>, live: seq<Route>, now: int)
    requires req.backend.Some? && req.backend.value.balancingAlgorithm == ROUND_ROBIN && !req.WithAffinity()
    requires Lookup(s.bindings, req.StickyKey(), now) == Ok(live) && Position(s.rrCount, req.CounterRef()) < |routes|
    ensures var position, (after, progress) := Position(s.rrCount, req.CounterRef()),
                                               Resume(s, Query(req, ReadRoutes(routes)), now);
            && progress == Ends(Found([routes[position]]))
            && Position(after.rrCount, req.CounterRef()) == (if position >= |routes| - 1 then 0 else position + 1)
            && Lookup(after.bindings, req.StickyKey(), now) ==
               Ok(LiveOf([routes[position]], now) + Without(live, routes[position]))
  {
    var position := Position(s.rrCount, req.CounterRef());
    StoreShows(s.bindings, req.StickyKey(), Some(routes[position]), now, req.StickyKey());
  }
}
