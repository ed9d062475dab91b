/**
 What one call to the location service does to its state and what it answers
 (mods/location/src/location.ts), with each public operation taken as one step.
 */
module LocationSteps {
  import opened Wrappers
  import opened CommonTypes
  import opened BindingStore

  datatype LoadBalancingAlgorithm = UNSPECIFIED | ROUND_ROBIN | LEAST_SESSIONS

  /** `ref` is `""` when the request names no backend. */
  datatype Backend = Backend(ref: string, balancingAlgorithm: LoadBalancingAlgorithm, withSessionAffinity: bool)

  /** The labels in the request's order, and their sorted `key=value` text, which is `""` for no labels. */
  datatype Labels = Labels(pairs: seq<(string, string)>, text: string)

  datatype FindRequest = FindRequest(
    aor: string,
    callId: string,
    sessionAffinityRef: string,
    backend: Option<Backend>,
    labels: Option<Labels>)
  {
    function CallKey(): string {
      aor + ":" + callId
    }

    predicate Labelled() {
      labels.Some? && labels.value.text != ""
    }

    /** The key under which a balanced answer is remembered. */
    function StickyKey(): string {
      if Labelled() then CallKey() + ":" + labels.value.text else CallKey()
    }

    predicate WithAffinity() {
      backend.Some? && backend.value.withSessionAffinity && sessionAffinityRef != ""
    }

    function CounterRef(): string {
      if backend.Some? && backend.value.ref != "" then backend.value.ref else aor
    }
  }

  datatype State = State(bindings: Collections, rrCount: map<string, nat>)

  datatype Reply = Accepted | Found(routes: seq<Route>) | Failed(error: Error)

  function Head(s: seq<Route>): Option<Route> {
    if s == [] then None else Some(s[0])
  }

  // ---------------------------------------------------------------- addRoute

  predicate StartsWith(s: string, prefix: string) {
    prefix <= s
  }

  predicate Supported(aor: string) {
    StartsWith(aor, "sip:") || StartsWith(aor, "backend:")
  }

  predicate SameContact(a: Route, b: Route) {
    a.user == b.user && SameBinding(a, b)
  }

  predicate Exists(s: seq<Route>, r: Route) {
    exists i :: 0 <= i < |s| && SameContact(s[i], r)
  }

  /** Whether `route` is refused given the bindings found for the same address of record. */
  predicate OverLimit(existing: seq<Route>, route: Route, maxContacts: int) {
    !Exists(existing, route) && maxContacts != -1 && |existing| >= maxContacts
  }

  function AddRoute(s: State, aor: string, route: Route, maxContacts: int, now: int): (State, Reply) {
    if !Supported(aor) then (s, Failed(UnsupportedSchema(aor)))
    else match Lookup(s.bindings, aor, now)
      case Err(e) => (s, Failed(e))
      case Ok(existing) =>
        if OverLimit(existing, route, maxContacts) then (s, Failed(TooManyContacts(maxContacts)))
        else (s.(bindings := Store(s.bindings, aor, Some(route), now).value), Accepted)
  }

  // ---------------------------------------------------------------- findRoutes

  /** Every value of one label list is in the other, and both are equally long. */
  predicate CompareArrays(arr: seq<string>, target: seq<string>) {
    |arr| == |target| && forall i :: 0 <= i < |target| ==> target[i] in arr
  }

  function MergeKeyValue(pairs: seq<(string, string)>): seq<string> {
    seq(|pairs|, i requires 0 <= i < |pairs| => pairs[i].0 + pairs[i].1)
  }

  function OnlyMatchingLabels(s: seq<Route>, labels: seq<(string, string)>): seq<Route> {
    if s == [] then []
    else
      var rest := OnlyMatchingLabels(s[1..], labels);
      if s[0].labels.Some? && CompareArrays(MergeKeyValue(labels), MergeKeyValue(s[0].labels.value)) then [s[0]] + rest
      else rest
  }

  /** The routes a query that remembers nothing may choose from. */
  function Candidates(c: Collections, req: FindRequest, now: int): Result<seq<Route>, Error> {
    var routes :- Lookup(c, req.aor, now);
    Ok(if req.Labelled() then OnlyMatchingLabels(routes, req.labels.value.pairs) else routes)
  }

  /** The first element of the stable sort by session count. */
  function LeastSessions(s: seq<Route>): Option<Route> {
    Head(SortBySessions(s))
  }

  function SortBySessions(s: seq<Route>): seq<Route> {
    if s == [] then [] else InsertBySessions(s[0], SortBySessions(s[1..]))
  }

  function InsertBySessions(r: Route, s: seq<Route>): seq<Route> {
    if s == [] || r.sessionCount <= s[0].sessionCount then [r] + s
    else [s[0]] + InsertBySessions(r, s[1..])
  }

  function Position(rrCount: map<string, nat>, ref: string): nat {
    if ref in rrCount then rrCount[ref] else 0
  }

  /** The balanced choice, or nothing when there is no route at the counter's position. */
  function Next(rrCount: map<string, nat>, routes: seq<Route>, req: FindRequest): (map<string, nat>, Option<Route>) {
    if req.backend.Some? && req.backend.value.balancingAlgorithm == LEAST_SESSIONS then
      (rrCount, LeastSessions(routes))
    else
      var position := Position(rrCount, req.CounterRef());
      (rrCount[req.CounterRef() := if position >= |routes| - 1 then 0 else position + 1],
       if position < |routes| then Some(routes[position]) else None)
  }

  /** Reuses the route held by the affinity reference, or gives it the least loaded one. */
  function NextWithAffinity(c: Collections, routes: seq<Route>, ref: string, now: int)
    : Result<(Collections, Option<Route>), Error>
  {
    var held :- Lookup(c, ref, now);
    if held != [] then Ok((c, Some(held[0])))
    else
      var r := LeastSessions(routes);
      Ok((Store(c, ref, r, now).value, r))
  }

  function Choose(s: State, routes: seq<Route>, req: FindRequest, now: int): Result<(State, Option<Route>), Error> {
    if req.WithAffinity() then
      var (bindings, r) :- NextWithAffinity(s.bindings, routes, req.sessionAffinityRef, now);
      Ok((s.(bindings := bindings), r))
    else
      var (rrCount, r) := Next(s.rrCount, routes, req);
      Ok((s.(rrCount := rrCount), r))
  }

  function FindRoutes(s: State, req: FindRequest, now: int): (State, Reply) {
    match Lookup(s.bindings, req.StickyKey(), now)
    case Err(e) => (s, Failed(e))
    case Ok(remembered) =>
      if remembered != [] then (s, Found(remembered))
      else match Candidates(s.bindings, req, now)
        case Err(e) => (s, Failed(e))
        case Ok(routes) =>
          if req.backend.None? then RememberFirst(s, routes, req, now)
          else match Choose(s, routes, req, now)
            case Err(e) => (s, Failed(e))
            case Ok((chosen, None)) => (chosen, Found([]))
            case Ok((chosen, Some(r))) => RememberChoice(chosen, r, req, now)
  }

  /** Without a backend all candidates are returned; the first one, or `undefined`, is stored under the call. */
  function RememberFirst(s: State, routes: seq<Route>, req: FindRequest, now: int): (State, Reply) {
    match Store(s.bindings, req.CallKey(), Head(routes), now)
    case Err(e) => (s, Failed(e))
    case Ok(bindings) => (s.(bindings := bindings), Found(routes))
  }

  function RememberChoice(s: State, r: Route, req: FindRequest, now: int): (State, Reply) {
    match Store(s.bindings, req.StickyKey(), Some(r), now)
    case Err(e) => (s, Failed(e))
    case Ok(bindings) => (s.(bindings := bindings), Found([r]))
  }

  // ---------------------------------------------------------------- steps and runs

  datatype Op =
    | Add(aor: string, route: Route, maxContacts: int)
    | Find(req: FindRequest)
    | RemoveAll(aor: string)
    | Cleanup(visited: set<string>)

  datatype Call = At(now: int, op: Op)

  function Step(s: State, call: Call): (State, Reply) {
    match call.op
    case Add(aor, route, maxContacts) => AddRoute(s, aor, route, maxContacts, call.now)
    case Find(req) => FindRoutes(s, req, call.now)
    case RemoveAll(aor) => (s.(bindings := Delete(s.bindings, aor)), Accepted)
    case Cleanup(visited) => (s.(bindings := Prune(s.bindings, visited, call.now)), Accepted)
  }

  /** A service that has just been created. */
  predicate Created(s: State) {
    s.bindings == map[] && s.rrCount == map[]
  }

  /** The state after the first `n` calls. */
  function After(s: State, calls: seq<Call>, n: nat): State
    requires n <= |calls|
  {
    if n == 0 then s else Step(After(s, calls, n - 1), calls[n - 1]).0
  }

  /** The answer to the i-th call. */
  function ReplyAt(s: State, calls: seq<Call>, i: nat): Reply
    requires i < |calls|
  {
    Step(After(s, calls, i), calls[i]).1
  }

  ghost predicate Chronological(calls: seq<Call>) {
    forall i, j :: 0 <= i < j < |calls| ==> calls[i].now <= calls[j].now
  }
}
