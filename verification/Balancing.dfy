/** The choice among several bindings: round-robin over many calls, and least sessions. */
module Balancing {
  import opened Wrappers
  import opened CommonTypes
  import opened BindingStore
  import opened LocationSteps
  import opened QueryEffects

  // ---------------------------------------------------------------- round-robin

  /** The call is a query that has to choose, and chooses by the round-robin counter `ref`. */
  predicate Turns(s: State, call: Call, ref: string) {
    && call.op.Find?
    && var req := call.op.req;
       && req.backend.Some? && req.backend.value.balancingAlgorithm != LEAST_SESSIONS && !req.WithAffinity()
       && req.CounterRef() == ref
       && Lookup(s.bindings, req.StickyKey(), call.now) == Ok([])
       && Candidates(s.bindings, req, call.now).Ok?
  }

  /** What a turn chooses from. */
  function Choices(s: State, call: Call, ref: string): seq<Route>
    requires Turns(s, call, ref)
  {
    Candidates(s.bindings, call.op.req, call.now).value
  }

  /** A turn answers the route at the counter, or nothing when there is none there, and moves the counter. */
  lemma OneTurn(s: State, call: Call, ref: string)
    requires Turns(s, call, ref)
    ensures var position, routes, (after, reply) := Position(s.rrCount, ref), Choices(s, call, ref), Step(s, call);
            && reply == Found(if position < |routes| then [routes[position]] else [])
            && Position(after.rrCount, ref) == (if position >= |routes| - 1 then 0 else position + 1)
            && (position >= |routes| ==> after.bindings == s.bindings)
  {
    var req, routes := call.op.req, Choices(s, call, ref);
    assert Choose(s, routes, req, call.now).Ok?;
  }

  lemma NoTurn(s: State, call: Call, ref: string)
    requires !Turns(s, call, ref)
    ensures Position(Step(s, call).0.rrCount, ref) == Position(s.rrCount, ref)
  {
  }

  /** How many of the first `n` calls are turns of the counter. */
  function Turn(s: State, calls: seq<Call>, ref: string, n: nat): nat
    requires n <= |calls|
  {
    if n == 0 then 0
    else Turn(s, calls, ref, n - 1) + if Turns(After(s, calls, n - 1), calls[n - 1], ref) then 1 else 0
  }

  /** Every turn among the first `n` calls chooses from the same routes. What the other calls do is left open. */
  ghost predicate Steady(s: State, calls: seq<Call>, ref: string, n: nat, routes: seq<Route>)
    requires n <= |calls|
  {
    forall i :: 0 <= i < n && Turns(After(s, calls, i), calls[i], ref) ==>
      Choices(After(s, calls, i), calls[i], ref) == routes
  }

  lemma {:induction false} CounterAfterTurns(s: State, calls: seq<Call>, ref: string, n: nat, routes: seq<Route>)
    requires n <= |calls| && Steady(s, calls, ref, n, routes) && Position(s.rrCount, ref) < |routes|
    ensures Position(After(s, calls, n).rrCount, ref) == (Position(s.rrCount, ref) + Turn(s, calls, ref, n)) % |routes|
  {
    hide Step, Position, Choices, Turns;
    var c := Position(s.rrCount, ref);
    if n == 0 {
      SmallModulus(c, |routes|);
    } else {
      CounterAfterTurns(s, calls, ref, n - 1, routes);
      var before, call, turn := After(s, calls, n - 1), calls[n - 1], c + Turn(s, calls, ref, n - 1);
      assert After(s, calls, n) == Step(before, call).0;
      if Turns(before, call, ref) {
        OneTurn(before, call, ref);
        RemainderIsSmall(turn, |routes|);
        NextPosition(turn % |routes|, |routes|);
        ModulusOfNext(turn, |routes|);
      } else {
        NoTurn(before, call, ref);
      }
    }
  }

  /**
   In any run, as long as its turns choose from the same n routes, the turn that has had k turns before it answers
   the route k places after the counter, cyclically.
   */
  lemma RoundRobinOrder(s: State, calls: seq<Call>, k: nat, ref: string, routes: seq<Route>)
    requires k < |calls| && Turns(After(s, calls, k), calls[k], ref)
    requires Steady(s, calls, ref, k + 1, routes) && Position(s.rrCount, ref) < |routes|
    ensures ReplyAt(s, calls, k) == Found([routes[(Position(s.rrCount, ref) + Turn(s, calls, ref, k)) % |routes|]])
  {
    CounterAfterTurns(s, calls, ref, k, routes);
    OneTurn(After(s, calls, k), calls[k], ref);
    RemainderIsSmall(Position(s.rrCount, ref) + Turn(s, calls, ref, k), |routes|);
  }

  /** How many of the first `m` turns are at place `j`, with the counter at `c`. */
  function TimesChosen(c: nat, n: nat, j: nat, m: nat): nat
    requires 0 < n
  {
    if m == 0 then 0 else TimesChosen(c, n, j, m - 1) + if (c + m - 1) % n == j then 1 else 0
  }

  /** The turns before `j` comes up for the first time. */
  function Wait(c: nat, n: nat, j: nat): nat
    requires c < n && j < n
  {
    if c <= j then j - c else n + j - c
  }

  /** After m turns every one of the n places was chosen m/n times, rounded down or up. */
  lemma {:induction false} RoundRobinIsFair(c: nat, n: nat, j: nat, m: nat)
    requires c < n && j < n
    ensures TimesChosen(c, n, j, m) == m / n + (if Wait(c, n, j) < m % n then 1 else 0)
    ensures m / n <= TimesChosen(c, n, j, m) <= m / n + (if m % n == 0 then 0 else 1)
  {
    if m == 0 {
      SmallModulus(0, n);
    } else {
      RoundRobinIsFair(c, n, j, m - 1);
      TurnOf(c, n, j, m - 1);
      ModulusOfNext(m - 1, n);
    }
  }

  /** How many of the turns among the first `n` calls were answered with exactly this route. */
  function TimesAnswered(s: State, calls: seq<Call>, ref: string, r: Route, n: nat): nat
    requires n <= |calls|
  {
    if n == 0 then 0
    else
      var last := Turns(After(s, calls, n - 1), calls[n - 1], ref) && ReplyAt(s, calls, n - 1) == Found([r]);
      TimesAnswered(s, calls, ref, r, n - 1) + if last then 1 else 0
  }

  /** Whether the turn is answered with the j-th of different routes is whether it is at place `j`. */
  lemma AnsweredAtItsPlace(s: State, calls: seq<Call>, ref: string, routes: seq<Route>, j: nat, k: nat)
    requires k < |calls| && Turns(After(s, calls, k), calls[k], ref)
    requires Steady(s, calls, ref, k + 1, routes) && Position(s.rrCount, ref) < |routes| && j < |routes|
    requires forall i :: 0 <= i < |routes| && routes[i] == routes[j] ==> i == j
    ensures ReplyAt(s, calls, k) == Found([routes[j]]) <==>
              (Position(s.rrCount, ref) + Turn(s, calls, ref, k)) % |routes| == j
  {
    hide Turns, ReplyAt, Position, Steady, Turn;
    RoundRobinOrder(s, calls, k, ref, routes);
    var turn := Position(s.rrCount, ref) + Turn(s, calls, ref, k);
    RemainderIsSmall(turn, |routes|);
    var at := turn % |routes|;
    assert [routes[at]][0] == routes[at] && [routes[j]][0] == routes[j];
  }

  lemma OneMorePlace(c: nat, n: nat, j: nat, m: nat)
    requires 0 < n
    ensures TimesChosen(c, n, j, m + 1) == TimesChosen(c, n, j, m) + if (c + m) % n == j then 1 else 0
  {
  }

  lemma {:induction false} AnsweredIsChosen(s: State, calls: seq<Call>, ref: string, routes: seq<Route>, j: nat, n: nat)
    requires n <= |calls| && Steady(s, calls, ref, n, routes)
    requires Position(s.rrCount, ref) < |routes| && j < |routes|
    requires forall i :: 0 <= i < |routes| && routes[i] == routes[j] ==> i == j
    ensures TimesAnswered(s, calls, ref, routes[j], n) ==
            TimesChosen(Position(s.rrCount, ref), |routes|, j, Turn(s, calls, ref, n))
  {
    hide Turns, Choices, ReplyAt, Position, TimesChosen;
    var c := Position(s.rrCount, ref);
    if n == 0 {
      assert TimesChosen(c, |routes|, j, 0) == 0 by { NoneChosenYet(c, |routes|, j); }
    } else {
      AnsweredIsChosen(s, calls, ref, routes, j, n - 1);
      if Turns(After(s, calls, n - 1), calls[n - 1], ref) {
        AnsweredAtItsPlace(s, calls, ref, routes, j, n - 1);
        OneMorePlace(c, |routes|, j, Turn(s, calls, ref, n - 1));
      }
    }
  }

  lemma NoneChosenYet(c: nat, n: nat, j: nat)
    requires 0 < n
    ensures TimesChosen(c, n, j, 0) == 0
  {
  }

  /** In any run, of the turns that choose from the same n routes each route answers 1/n, rounded down or up. */
  lemma TurnsAreSharedEvenly(s: State, calls: seq<Call>, ref: string, routes: seq<Route>, j: nat, n: nat)
    requires n <= |calls| && Steady(s, calls, ref, n, routes)
    requires Position(s.rrCount, ref) < |routes| && j < |routes|
    requires forall i :: 0 <= i < |routes| && routes[i] == routes[j] ==> i == j
    ensures var turns, size := Turn(s, calls, ref, n), |routes|;
            && turns / size <= TimesAnswered(s, calls, ref, routes[j], n)
            && TimesAnswered(s, calls, ref, routes[j], n) <= turns / size + (if turns % size == 0 then 0 else 1)
  {
    AnsweredIsChosen(s, calls, ref, routes, j, n);
    RoundRobinIsFair(Position(s.rrCount, ref), |routes|, j, Turn(s, calls, ref, n));
  }

  // ---------------------------------------------------------------- a counter beyond the list

  /**
   In any run, a turn with routes to choose from is answered with none if and only if the counter stands beyond
   the end of the list. Then nothing is remembered, and the counter starts over.
   */
  lemma EmptyAnswerIffBeyondTheList(s: State, calls: seq<Call>, k: nat, ref: string)
    requires k < |calls| && Turns(After(s, calls, k), calls[k], ref) && Choices(After(s, calls, k), calls[k], ref) != []
    ensures var before, after := After(s, calls, k), After(s, calls, k + 1);
            && (ReplyAt(s, calls, k) == Found([]) <==>
                  Position(before.rrCount, ref) >= |Choices(before, calls[k], ref)|)
            && (ReplyAt(s, calls, k) == Found([]) ==>
                  after.bindings == before.bindings && Position(after.rrCount, ref) == 0)
  {
    OneTurn(After(s, calls, k), calls[k], ref);
  }

  function FreshQuery(aor: string, callId: string): FindRequest {
    FindRequest(aor, callId, "", Some(Backend("", ROUND_ROBIN, false)), None)
  }

  /** Two endpoints register, one call moves the counter, the address is cleared and one endpoint registers again. */
  function ShrinkingRun(aor: string, a: Route, b: Route, now: int): seq<Call> {
    [At(now, Add(aor, a, -1)), At(now, Add(aor, b, -1)), At(now, Find(FreshQuery(aor, "1"))),
     At(now, RemoveAll(aor)), At(now, Add(aor, a, -1)), At(now, Find(FreshQuery(aor, "2")))]
  }

  lemma AddedInFront(s: State, aor: string, r: Route, live: seq<Route>, now: int)
    requires Supported(aor) && Lookup(s.bindings, aor, now) == Ok(live) && Live(r, now)
    requires forall q :: q in live ==> !SameBinding(q, r)
    ensures var after := AddRoute(s, aor, r, -1, now).0;
            && Lookup(after.bindings, aor, now) == Ok([r] + live) && after.rrCount == s.rrCount
            && forall key :: key != aor ==> Lookup(after.bindings, key, now) == Lookup(s.bindings, key, now)
  {
    var after := AddRoute(s, aor, r, -1, now).0;
    forall key ensures Lookup(after.bindings, key, now) ==
                       if key != aor then Lookup(s.bindings, key, now) else Ok([r] + Without(live, r))
    {
      LookupAfterStore(s.bindings, aor, r, now, key, now);
      LookupLater(s.bindings, key, now, now);
      assert LiveOf([r], now) == [r];
    }
    NothingWithout(live, r);
  }

  lemma {:induction false} NothingWithout(live: seq<Route>, r: Route)
    requires forall q :: q in live ==> !SameBinding(q, r)
    ensures Without(live, r) == live
  {
    if live != [] {
      NothingWithout(live[1..], r);
    }
  }

  /** That run ends with a call that is answered with no route, though the address of record has one. */
  lemma ShrinkingListSkipsACall(s: State, aor: string, a: Route, b: Route, now: int)
    requires Created(s) && Supported(aor) && Live(a, now) && Live(b, now) && !SameBinding(a, b)
    ensures var calls := ShrinkingRun(aor, a, b, now);
            && Lookup(After(s, calls, 5).bindings, aor, now) == Ok([a])
            && ReplyAt(s, calls, 5) == Found([])
  {
    hide Lookup, AddRoute, FindRoutes;
    var calls, first, second := ShrinkingRun(aor, a, b, now), FreshQuery(aor, "1"), FreshQuery(aor, "2");
    var s2, s3, s5 := After(s, calls, 2), After(s, calls, 3), After(s, calls, 5);
    AfterTwoAdds(s, calls, aor, a, b, now);
    assert first.CounterRef() == aor && second.CounterRef() == aor;
    assert first.StickyKey() == aor + ":1" && second.StickyKey() == aor + ":2";
    assert first.StickyKey()[|aor| + 1] != second.StickyKey()[|aor| + 1];
    assert |first.StickyKey()| == |aor| + 2 && |second.StickyKey()| == |aor| + 2;
    assert Choices(s2, calls[2], aor) == [b, a];
    OneTurn(s2, calls[2], aor);
    assert s3 == Step(s2, calls[2]).0;
    assert Position(s2.rrCount, aor) == 0;
    assert Position(s3.rrCount, aor) == 1;
    UntouchedLookup(s2, first, now, second.StickyKey());
    AfterClearing(s3, aor, a, second.StickyKey(), now);
    assert After(s, calls, 4) == Step(s3, calls[3]).0;
    assert s5 == Step(After(s, calls, 4), calls[4]).0;
    OneTurn(s5, calls[5], aor);
  }

  lemma AfterTwoAdds(s: State, calls: seq<Call>, aor: string, a: Route, b: Route, now: int)
    requires Created(s) && Supported(aor) && Live(a, now) && Live(b, now) && !SameBinding(a, b)
    requires 2 <= |calls| && calls[0] == At(now, Add(aor, a, -1)) && calls[1] == At(now, Add(aor, b, -1))
    ensures var s2 := After(s, calls, 2);
            && Lookup(s2.bindings, aor, now) == Ok([b, a]) && s2.rrCount == map[]
            && forall key :: key != aor ==> Lookup(s2.bindings, key, now) == Ok([])
  {
    hide AddRoute;
    AddedInFront(s, aor, a, [], now);
    var s1 := AddRoute(s, aor, a, -1, now).0;
    assert [a] + [] == [a] && [b] + [a] == [b, a];
    AddedInFront(s1, aor, b, [a], now);
    assert After(s, calls, 0) == s && After(s, calls, 1) == s1;
  }

  lemma UntouchedLookup(s: State, req: FindRequest, now: int, key: string)
    requires !WritesTo(req, key)
    ensures Lookup(FindRoutes(s, req, now).0.bindings, key, now) == Lookup(s.bindings, key, now)
  {
    UntouchedByQuery(s, req, now, key);
  }

  lemma AfterClearing(s: State, aor: string, a: Route, key: string, now: int)
    requires Supported(aor) && Live(a, now) && key != aor
    ensures var after := AddRoute(s.(bindings := Delete(s.bindings, aor)), aor, a, -1, now).0;
            && Lookup(after.bindings, aor, now) == Ok([a]) && after.rrCount == s.rrCount
            && Lookup(after.bindings, key, now) == Lookup(s.bindings, key, now)
  {
    var cleared := s.(bindings := Delete(s.bindings, aor));
    AddedInFront(cleared, aor, a, [], now);
    assert [a] + [] == [a];
  }

  // ---------------------------------------------------------------- counting modulo n

  lemma NextPosition(position: nat, n: nat)
    requires position < n
    ensures (if position >= n - 1 then 0 else position + 1) == (position + 1) % n
  {
    if position < n - 1 {
      SmallModulus(position + 1, n);
    }
  }

  lemma SmallModulus(k: nat, n: nat)
    requires k < n
    ensures k % n == k && k / n == 0
  {}

  lemma RemainderIsSmall(k: nat, n: nat)
    requires 0 < n
    ensures 0 <= k % n < n
  {}

  lemma NextQuotient(k: nat, n: nat, q: nat, r: nat)
    requires r < n && k == n * q + r
    ensures if r == n - 1 then k + 1 == n * (q + 1) + 0 else k + 1 == n * q + (r + 1)
  {
    assert n * (q + 1) == n * q + n;
  }

  lemma ModulusOfNext(k: nat, n: nat)
    requires 0 < n
    ensures (k % n + 1) % n == (k + 1) % n
    ensures k % n == n - 1 ==> (k + 1) % n == 0 && (k + 1) / n == k / n + 1
    ensures k % n < n - 1 ==> (k + 1) % n == k % n + 1 && (k + 1) / n == k / n
  {
    var q, r := k / n, k % n;
    assert k == n * q + r;
    NextQuotient(k, n, q, r);
    if r == n - 1 {
      Quotient(k + 1, n, q + 1, 0);
      Quotient(n, n, 1, 0);
    } else {
      Quotient(k + 1, n, q, r + 1);
      SmallModulus(r + 1, n);
    }
  }

  lemma Quotient(k: nat, n: nat, q: nat, r: nat)
    requires r < n && k == n * q + r
    ensures k / n == q && k % n == r
  {
    var d := k / n - q;
    assert k == n * (k / n) + k % n;
    assert n * d == r - k % n by { assert n * (k / n) - n * q == n * d; }
    assert d == 0;
  }

  lemma TurnOf(c: nat, n: nat, j: nat, k: nat)
    requires c < n && j < n
    ensures (c + k) % n == j <==> k % n == Wait(c, n, j)
  {
    var q, r := k / n, k % n;
    assert k == n * q + r;
    if c + r < n {
      Quotient(c + k, n, q, c + r);
    } else {
      OneRound(c, k, n, q, r);
      Quotient(c + k, n, q + 1, c + r - n);
    }
  }

  lemma OneRound(c: nat, k: nat, n: nat, q: nat, r: nat)
    requires k == n * q + r
    ensures c + k == n * (q + 1) + (c + r - n)
  {
  }

  // ---------------------------------------------------------------- least sessions

  /** The i-th route has the fewest sessions, and none before it has as few. */
  predicate FirstOfFewest(s: seq<Route>, i: nat)
    requires i < |s|
  {
    && (forall j :: 0 <= j < |s| ==> s[i].sessionCount <= s[j].sessionCount)
    && (forall j :: 0 <= j < i ==> s[i].sessionCount < s[j].sessionCount)
  }

  /** The least loaded route is the earliest of those with the fewest sessions. */
  lemma {:induction false} LeastSessionsIsFirstOfFewest(s: seq<Route>) returns (i: nat)
    requires s != []
    ensures i < |s| && FirstOfFewest(s, i) && LeastSessions(s) == Some(s[i])
  {
    if |s| == 1 {
      i := 0;
      assert SortBySessions(s[1..]) == [];
    } else {
      var k := LeastSessionsIsFirstOfFewest(s[1..]);
      assert forall j :: 1 <= j < |s| ==> s[j] == s[1..][j - 1];
      i := if s[0].sessionCount <= s[1..][k].sessionCount then 0 else k + 1;
    }
  }

  /** A new least-sessions call is answered with the earliest least loaded binding, and reorders no list. */
  lemma LeastSessionsAnswer(s: State, req: FindRequest, now: int, routes: seq<Route>) returns (i: nat)
    requires req.backend.Some? && req.backend.value.balancingAlgorithm == LEAST_SESSIONS
    requires !req.WithAffinity() && !req.Labelled()
    requires Lookup(s.bindings, req.StickyKey(), now) == Ok([])
    requires Lookup(s.bindings, req.aor, now) == Ok(routes) && routes != []
    ensures i < |routes| && FirstOfFewest(routes, i)
    ensures FindRoutes(s, req, now).1 == Found([routes[i]])
    ensures req.aor in FindRoutes(s, req, now).0.bindings
    ensures FindRoutes(s, req, now).0.bindings[req.aor] == s.bindings[req.aor]
  {
    i := LeastSessionsIsFirstOfFewest(routes);
    assert req.aor != req.StickyKey() by { assert |req.StickyKey()| > |req.aor|; }
    UntouchedByQuery(s, req, now, req.aor);
  }
}
