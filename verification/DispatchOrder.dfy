/**
 Which calls a run of the dispatcher makes, in the fields of its configuration and the answers it gets
 (mods/dispatcher/src/run_middlewares.ts, mods/dispatcher/src/run_processor.ts, mods/dispatcher/src/find_processor.ts).
 */
module DispatchOrder {
  import opened Wrappers
  import opened Dispatcher

  // ---------------------------------------------------------------- the middlewares of a flag

  /** `places` are all the places of the list where the flag is `post`, in order. */
  ghost predicate Selects(middlewares: seq<MiddlewareConfig>, post: bool, places: seq<nat>) {
    && (forall k :: 0 <= k < |places| ==> places[k] < |middlewares| && middlewares[places[k]].postProcessor == post)
    && (forall j, k :: 0 <= j < k < |places| ==> places[j] < places[k])
    && (forall i :: 0 <= i < |middlewares| && middlewares[i].postProcessor == post ==> i in places)
  }

  lemma OnlyOneSelects(middlewares: seq<MiddlewareConfig>, post: bool, a: seq<nat>, b: seq<nat>)
    requires Selects(middlewares, post, a) && Selects(middlewares, post, b)
    ensures a == b
  {
    SelectsAlike(middlewares, post, a, b, |a|);
    SelectsAlike(middlewares, post, b, a, |b|);
  }

  lemma {:induction false} SelectsAlike(middlewares: seq<MiddlewareConfig>, post: bool, a: seq<nat>, b: seq<nat>,
                                        n: nat)
    requires Selects(middlewares, post, a) && Selects(middlewares, post, b) && n <= |a|
    ensures n <= |b| && a[..n] == b[..n]
  {
    if n > 0 {
      SelectsAlike(middlewares, post, a, b, n - 1);
      NextIsNotLater(middlewares, post, a, b, n - 1);
      NextIsNotLater(middlewares, post, b, a, n - 1);
      hide Selects;
      assert a[..n] == a[..n - 1] + [a[n - 1]] && b[..n] == b[..n - 1] + [b[n - 1]];
    }
  }

  lemma NextIsNotLater(middlewares: seq<MiddlewareConfig>, post: bool, a: seq<nat>, b: seq<nat>, n: nat)
    requires Selects(middlewares, post, a) && Selects(middlewares, post, b)
    requires n < |a| && n <= |b| && a[..n] == b[..n]
    ensures n < |b| && b[n] <= a[n]
  {
    assert a[n] in b;
    var j :| 0 <= j < |b| && b[j] == a[n];
    assert forall i :: 0 <= i < n ==> a[i] == a[..n][i] == b[..n][i] == b[i];
  }

  /** The same from the n-th place on. */
  ghost predicate SelectsFrom(middlewares: seq<MiddlewareConfig>, post: bool, n: nat, places: seq<nat>) {
    && (forall k :: 0 <= k < |places| ==>
          n <= places[k] < |middlewares| && middlewares[places[k]].postProcessor == post)
    && (forall j, k :: 0 <= j < k < |places| ==> places[j] < places[k])
    && (forall i :: n <= i < |middlewares| && middlewares[i].postProcessor == post ==> i in places)
  }

  predicate PlacesOf(middlewares: seq<MiddlewareConfig>, phase: seq<MiddlewareConfig>, places: seq<nat>) {
    && |phase| == |places|
    && forall k :: 0 <= k < |places| ==> places[k] < |middlewares| && phase[k] == middlewares[places[k]]
  }

  lemma SelectsOneMore(middlewares: seq<MiddlewareConfig>, post: bool, n: nat, rest: seq<nat>)
    requires n < |middlewares| && middlewares[n].postProcessor == post && SelectsFrom(middlewares, post, n + 1, rest)
    ensures SelectsFrom(middlewares, post, n, [n] + rest)
  {
    var places := [n] + rest;
    assert n == places[0] && forall i :: i in rest ==> i in places;
  }

  lemma SelectsNoMore(middlewares: seq<MiddlewareConfig>, post: bool, n: nat, rest: seq<nat>)
    requires n < |middlewares| && middlewares[n].postProcessor != post && SelectsFrom(middlewares, post, n + 1, rest)
    ensures SelectsFrom(middlewares, post, n, rest)
  {
  }

  lemma PlacesOneMore(middlewares: seq<MiddlewareConfig>, phase: seq<MiddlewareConfig>, n: nat, rest: seq<nat>)
    requires n < |middlewares| && PlacesOf(middlewares, phase, rest)
    ensures PlacesOf(middlewares, [middlewares[n]] + phase, [n] + rest)
  {
  }

  lemma {:induction false} PhaseSelects(middlewares: seq<MiddlewareConfig>, post: bool, n: nat)
    returns (places: seq<nat>)
    requires n <= |middlewares|
    ensures SelectsFrom(middlewares, post, n, places) && PlacesOf(middlewares, Phase(middlewares[n..], post), places)
    decreases |middlewares| - n
  {
    places := [];
    if n < |middlewares| {
      var rest := PhaseSelects(middlewares, post, n + 1);
      hide SelectsFrom, PlacesOf;
      assert middlewares[n..][0] == middlewares[n] && middlewares[n..][1..] == middlewares[n + 1..];
      if middlewares[n].postProcessor == post {
        SelectsOneMore(middlewares, post, n, rest);
        PlacesOneMore(middlewares, Phase(middlewares[n + 1..], post), n, rest);
        places := [n] + rest;
      } else {
        SelectsNoMore(middlewares, post, n, rest);
        places := rest;
      }
    }
  }

  // ---------------------------------------------------------------- what a run does

  predicate ErrorResponse(req: Request) {
    && req.message.messageType == RESPONSE
    && req.message.responseType != "OK" && req.message.responseType != "RINGING"
  }

  /** The i-th processor is the first that serves the method and whose own match function accepts the request. */
  ghost predicate FirstServing(processors: seq<ProcessorConfig>, req: Request, i: int) {
    && 0 <= i < |processors| && req.sipMethod in processors[i].methods && processors[i].matchFunc(req)
    && forall j :: 0 <= j < i ==> req.sipMethod !in processors[j].methods || !processors[j].matchFunc(req)
  }

  ghost predicate NoneServes(processors: seq<ProcessorConfig>, req: Request) {
    forall j :: 0 <= j < |processors| ==> req.sipMethod !in processors[j].methods || !processors[j].matchFunc(req)
  }

  /** The answer to the i-th call. */
  function AnswerTo(world: World, calls: seq<Call>, i: nat): Answer
    requires i < |calls|
  {
    world(calls[..i], calls[i])
  }

  predicate Continues(answer: Answer) {
    answer.Replied? && answer.message.messageType == REQUEST
  }

  /** The request with the message of the answer, when it was answered. */
  function WithAnswer(req: Request, answer: Answer): Request {
    if answer.Replied? then req.(message := answer.message) else req
  }

  /** Every call gets what the call before it was answered, the first one the request that came in. */
  ghost predicate Handed(world: World, calls: seq<Call>, req: Request) {
    forall i :: 0 <= i < |calls| ==>
      calls[i].request == if i == 0 then req else WithAnswer(calls[i - 1].request, AnswerTo(world, calls, i - 1))
  }

  /**
   A run with `p` calls before its processor's: the first `p` are to the first `p` middlewares with the flag unset, then
   comes the processor, and the others are to the first middlewares with the flag set. A middleware is followed by
   another one if and only if it answers with a request, or the phase is over.
   */
  ghost predicate CallsAsConfigured(world: World, processors: seq<ProcessorConfig>, middlewares: seq<MiddlewareConfig>,
                                    calls: seq<Call>, pre: seq<nat>, post: seq<nat>, p: nat)
    requires Selects(middlewares, false, pre) && Selects(middlewares, true, post)
  {
    && p <= |pre| && p <= |calls| <= p + 1 + |post|
    && (forall i :: 0 <= i < p ==> calls[i].peer == Middleware(middlewares[pre[i]].ref))
    && (forall i :: 0 <= i < p - 1 ==> Continues(AnswerTo(world, calls, i)))
    && (p < |pre| ==> 0 < p && !Continues(AnswerTo(world, calls, p - 1)))
    && (p < |calls| ==>
          && (p == 0 || AnswerTo(world, calls, p - 1).Replied?)
          && exists k :: FirstServing(processors, calls[p].request, k) && calls[p].peer == Processor(processors[k].ref))
    && (forall i :: p < i < |calls| ==> calls[i].peer == Middleware(middlewares[post[i - p - 1]].ref))
    && (p + 1 < |calls| ==> !AnswerTo(world, calls, p).Unavailable?)
    && (forall i :: p < i < |calls| - 1 ==> Continues(AnswerTo(world, calls, i)))
    && (p < |calls| <= p + |post| ==>
          if |calls| == p + 1 then AnswerTo(world, calls, p).Unavailable?
          else !Continues(AnswerTo(world, calls, |calls| - 1)))
  }

  /** How a run ends: by the answer to its last call, or for want of a processor that serves what has been answered. */
  ghost predicate EndsAsAnswered(world: World, processors: seq<ProcessorConfig>, ran: Ran, req: Request) {
    if ran.calls == [] then ran.result == Err(NotMatchingProcessorFound(req.ref)) && NoneServes(processors, req)
    else
      var last := ran.calls[|ran.calls| - 1];
      match AnswerTo(world, ran.calls, |ran.calls| - 1)
      case Replied(message) =>
        || ran.result == Ok(last.request.(message := message))
        || (&& (forall i :: 0 <= i < |ran.calls| ==> ran.calls[i].peer.Middleware?)
            && ran.result == Err(NotMatchingProcessorFound(req.ref))
            && NoneServes(processors, last.request.(message := message)))
      case Unavailable =>
        ran.result == Err(if last.peer.Middleware? then MiddlewareUnavailable(last.peer.ref)
                          else ProcessorUnavailable(last.peer.ref))
      case OtherError => ran.result == if last.peer.Middleware? then Err(TypeError) else Ok(last.request)
  }

  lemma FindsTheFirstServing(processors: seq<ProcessorConfig>, req: Request) returns (k: int)
    ensures match FindProcessor(processors, req)
            case None => NoneServes(processors, req)
            case Some(config) => FirstServing(processors, req, k) && processors[k] == config
  {
    k := 0;
    FindsTheFirstMatch(processors, req);
    if FindProcessor(processors, req).Some? {
      var config := FindProcessor(processors, req).value;
      k :| 0 <= k < |processors| && processors[k] == config && Matches(config, req) &&
           forall j :: 0 <= j < k ==> !Matches(processors[j], req);
      assert forall j :: 0 <= j < k ==> !Matches(processors[j], req);
    } else {
      assert forall j :: 0 <= j < |processors| ==> !Matches(processors[j], req);
    }
  }

  // ---------------------------------------------------------------- the proofs

  /** The calls from `from` to `to` are one phase, and `req` went into it. */
  ghost predicate PhaseRun(world: World, calls: seq<Call>, from: nat, to: nat, middlewares: seq<MiddlewareConfig>,
                           places: seq<nat>, req: Request)
    requires forall k :: 0 <= k < |places| ==> places[k] < |middlewares|
  {
    && from <= to <= |calls| && to <= from + |places|
    && (forall i :: from <= i < to ==> calls[i].peer == Middleware(middlewares[places[i - from]].ref))
    && (forall i :: from <= i < to - 1 ==> Continues(AnswerTo(world, calls, i)))
    && (to < from + |places| ==> from < to && !Continues(AnswerTo(world, calls, to - 1)))
    && (from < to ==> calls[from].request == req)
    && (forall i :: from < i < to ==>
          calls[i].request == WithAnswer(calls[i - 1].request, AnswerTo(world, calls, i - 1)))
  }

  /** The phase is the middlewares at the places of its flag. */
  lemma PhaseIsAt(middlewares: seq<MiddlewareConfig>, post: bool, places: seq<nat>)
    requires Selects(middlewares, post, places)
    ensures PlacesOf(middlewares, Phase(middlewares, post), places)
  {
    var same := PhaseSelects(middlewares, post, 0);
    assert middlewares[0..] == middlewares;
    OnlyOneSelects(middlewares, post, places, same);
  }

  lemma PhaseCalls(world: World, calls: seq<Call>, from: nat, middlewares: seq<MiddlewareConfig>, post: bool,
                   places: seq<nat>, req: Request)
    requires Selects(middlewares, post, places)
    requires PhaseTrace(world, calls, from, Phase(middlewares, post), req)
    ensures PhaseRun(world, calls, from, |calls|, middlewares, places, req)
  {
    PhaseIsAt(middlewares, post, places);
    PhaseCallsAt(world, calls, from, middlewares, Phase(middlewares, post), places, req);
  }

  lemma PhaseCallsAt(world: World, calls: seq<Call>, from: nat, middlewares: seq<MiddlewareConfig>,
                     phase: seq<MiddlewareConfig>, places: seq<nat>, req: Request)
    requires PlacesOf(middlewares, phase, places) && PhaseTrace(world, calls, from, phase, req)
    ensures PhaseRun(world, calls, from, |calls|, middlewares, places, req)
  {
    forall i | from <= i < |calls|
      ensures calls[i].peer == Middleware(middlewares[places[i - from]].ref)
      ensures i == from ==> calls[i].request == req
      ensures i > from ==> calls[i].request == WithAnswer(calls[i - 1].request, AnswerTo(world, calls, i - 1))
    {
      assert calls[i] == Call(Middleware(phase[i - from].ref), Carried(world, calls, from, i, req));
    }
    hide Carried;
  }

  /** How the request or the failure comes out of the last call, when it is to a middleware. */
  function Answered(call: Call, answer: Answer): Result<Request, Failure> {
    match answer
    case Replied(message) => Ok(call.request.(message := message))
    case Unavailable => Err(MiddlewareUnavailable(call.peer.ref))
    case OtherError => Err(TypeError)
  }

  lemma PhaseEnds(world: World, ran: Ran, from: nat, middlewares: seq<MiddlewareConfig>, places: seq<nat>, req: Request)
    requires forall k :: 0 <= k < |places| ==> places[k] < |middlewares|
    requires PhaseRun(world, ran.calls, from, |ran.calls|, middlewares, places, req)
    requires PhaseOutcome(world, ran, from, req)
    ensures from <= |ran.calls| && forall i :: from <= i < |ran.calls| ==> ran.calls[i].peer.Middleware?
    ensures ran.result ==
            if |ran.calls| == from then Ok(req)
            else Answered(ran.calls[|ran.calls| - 1], AnswerTo(world, ran.calls, |ran.calls| - 1))
  {
  }

  /** What was answered to a call does not depend on the calls made after it. */
  lemma AnswerStands(world: World, calls: seq<Call>, n: nat, i: nat)
    requires i < n <= |calls|
    ensures AnswerTo(world, calls[..n], i) == AnswerTo(world, calls, i) && calls[..n][i] == calls[i]
  {
    assert calls[..n][..i] == calls[..i];
  }

  lemma PhaseRunStands(world: World, calls: seq<Call>, n: nat, middlewares: seq<MiddlewareConfig>, places: seq<nat>,
                       req: Request)
    requires forall k :: 0 <= k < |places| ==> places[k] < |middlewares|
    requires n <= |calls| && PhaseRun(world, calls[..n], 0, n, middlewares, places, req)
    ensures PhaseRun(world, calls, 0, n, middlewares, places, req)
  {
    hide AnswerTo, Continues, WithAnswer;
    forall i | 0 <= i < n
      ensures AnswerTo(world, calls[..n], i) == AnswerTo(world, calls, i) && calls[..n][i] == calls[i]
    {
      AnswerStands(world, calls, n, i);
    }
  }

  /** The request as the first `p` calls of a run leave it. */
  function Left(world: World, calls: seq<Call>, req: Request, p: nat): Request
    requires p <= |calls|
  {
    if p == 0 then req else WithAnswer(calls[p - 1].request, AnswerTo(world, calls, p - 1))
  }

  /** A run in its stages: the phase before the processor, its call, and the phase after it. */
  ghost predicate Stages(world: World, processors: seq<ProcessorConfig>, middlewares: seq<MiddlewareConfig>,
                         ran: Ran, pre: seq<nat>, post: seq<nat>, req: Request, p: nat)
    requires forall k :: 0 <= k < |pre| ==> pre[k] < |middlewares|
    requires forall k :: 0 <= k < |post| ==> post[k] < |middlewares|
  {
    && p <= |ran.calls| && PhaseRun(world, ran.calls, 0, p, middlewares, pre, req)
    && if p > 0 && !AnswerTo(world, ran.calls, p - 1).Replied? then |ran.calls| == p
       else if p == |ran.calls| then NoneServes(processors, Left(world, ran.calls, req, p))
       else
         && ran.calls[p].request == Left(world, ran.calls, req, p)
         && (exists k :: FirstServing(processors, ran.calls[p].request, k)
                         && ran.calls[p].peer == Processor(processors[k].ref))
         && if AnswerTo(world, ran.calls, p).Unavailable? then |ran.calls| == p + 1
            else PhaseRun(world, ran.calls, p + 1, |ran.calls|, middlewares, post, Left(world, ran.calls, req, p + 1))
  }

  lemma RunsInStages(world: World, processors: seq<ProcessorConfig>, middlewares: seq<MiddlewareConfig>, req: Request,
                     pre: seq<nat>, post: seq<nat>)
    returns (p: nat)
    requires !ErrorResponse(req) && Selects(middlewares, false, pre) && Selects(middlewares, true, post)
    ensures Stages(world, processors, middlewares, Dispatched(world, processors, middlewares, req), pre, post, req, p)
  {
    hide PhaseTrace, Phase, NoneServes, FirstServing, PhaseRun, PhaseOutcome;
    DispatchTrace(world, processors, middlewares, req);
    var ran := Dispatched(world, processors, middlewares, req);
    var first := Chain(world, Phase(middlewares, false), req, []);
    hide Dispatched, Chain;
    p := |first.calls|;
    PhaseCalls(world, first.calls, 0, middlewares, false, pre, req);
    PhaseEnds(world, first, 0, middlewares, pre, req);
    assert ran.calls[..p] == first.calls;
    PhaseRunStands(world, ran.calls, p, middlewares, pre, req);
    if p > 0 {
      AnswerStands(world, ran.calls, p, p - 1);
    }
    hide PhaseTrace, Phase, Selects;
    if first.result.Ok? {
      var k := FindsTheFirstServing(processors, first.result.value);
      if p < |ran.calls| {
        var processed := AfterProcessor(world, first.calls, ran.calls[p]);
        if processed.Ok? {
          PhaseCalls(world, ran.calls, p + 1, middlewares, true, post, processed.value);
        }
      }
    }
  }

  /** Every run calls the middlewares for before the processor, then the processor, then those for after it. */
  lemma RunsAsConfigured(world: World, processors: seq<ProcessorConfig>, middlewares: seq<MiddlewareConfig>,
                         req: Request, pre: seq<nat>, post: seq<nat>)
    returns (p: nat)
    requires !ErrorResponse(req) && Selects(middlewares, false, pre) && Selects(middlewares, true, post)
    ensures CallsAsConfigured(world, processors, middlewares, Dispatched(world, processors, middlewares, req).calls,
                              pre, post, p)
  {
    hide Dispatched, AnswerTo, FirstServing, NoneServes;
    p := RunsInStages(world, processors, middlewares, req, pre, post);
  }

  /** Every run hands each service what the one before answered. */
  lemma HandsOnWhatWasAnswered(world: World, processors: seq<ProcessorConfig>, middlewares: seq<MiddlewareConfig>,
                               req: Request)
    requires !ErrorResponse(req)
    ensures Handed(world, Dispatched(world, processors, middlewares, req).calls, req)
  {
    var pre := SomeSelects(middlewares, false);
    var post := SomeSelects(middlewares, true);
    hide Dispatched, AnswerTo, FirstServing, NoneServes;
    var p := RunsInStages(world, processors, middlewares, req, pre, post);
  }

  lemma EndsInAPhase(world: World, processors: seq<ProcessorConfig>, middlewares: seq<MiddlewareConfig>, ran: Ran,
                     from: nat, places: seq<nat>, handed: Request, req: Request)
    requires forall k :: 0 <= k < |places| ==> places[k] < |middlewares|
    requires PhaseRun(world, ran.calls, from, |ran.calls|, middlewares, places, handed)
    requires PhaseOutcome(world, ran, from, handed) && from < |ran.calls|
    ensures EndsAsAnswered(world, processors, ran, req)
  {
    PhaseEnds(world, ran, from, middlewares, places, handed);
  }

  lemma EndsWithTheProcessor(world: World, processors: seq<ProcessorConfig>, ran: Ran, at: nat, req: Request)
    requires |ran.calls| == at + 1 && ran.calls[at].peer.Processor?
    requires ran.result == AfterProcessor(world, ran.calls[..at], ran.calls[at])
    ensures EndsAsAnswered(world, processors, ran, req)
  {
  }

  /** After the phase before the processor, which has ended well, none of the processors serves the request. */
  lemma EndsUnserved(world: World, processors: seq<ProcessorConfig>, middlewares: seq<MiddlewareConfig>, first: Ran,
                     places: seq<nat>, req: Request)
    requires forall k :: 0 <= k < |places| ==> places[k] < |middlewares|
    requires PhaseRun(world, first.calls, 0, |first.calls|, middlewares, places, req)
    requires PhaseOutcome(world, first, 0, req) && first.result.Ok? && NoneServes(processors, first.result.value)
    ensures EndsAsAnswered(world, processors, Ran(first.calls, Err(NotMatchingProcessorFound(req.ref))), req)
  {
    PhaseEnds(world, first, 0, middlewares, places, req);
    hide PhaseRun, PhaseOutcome, NoneServes, AnswerTo;
  }

  lemma EndsAsItsPhases(world: World, processors: seq<ProcessorConfig>, middlewares: seq<MiddlewareConfig>,
                        req: Request, pre: seq<nat>, post: seq<nat>)
    requires !ErrorResponse(req) && Selects(middlewares, false, pre) && Selects(middlewares, true, post)
    ensures EndsAsAnswered(world, processors, Dispatched(world, processors, middlewares, req), req)
  {
    assert forall k :: 0 <= k < |pre| ==> pre[k] < |middlewares|;
    assert forall k :: 0 <= k < |post| ==> post[k] < |middlewares|;
    hide PhaseTrace, Phase, NoneServes, FirstServing, PhaseRun, PhaseOutcome, Selects, EndsAsAnswered, Chain;
    var ran := Dispatched(world, processors, middlewares, req);
    var first := Chain(world, Phase(middlewares, false), req, []);
    ChainTrace(world, Phase(middlewares, false), req, []);
    PhaseCalls(world, first.calls, 0, middlewares, false, pre, req);
    if first.result.Err? {
      PhaseEnds(world, first, 0, middlewares, pre, req);
      EndsInAPhase(world, processors, middlewares, ran, 0, pre, req, req);
    } else {
      EndsAfterThePhase(world, processors, middlewares, first, req, pre, post);
    }
  }

  lemma EndsAfterThePhase(world: World, processors: seq<ProcessorConfig>, middlewares: seq<MiddlewareConfig>,
                          first: Ran, req: Request, pre: seq<nat>, post: seq<nat>)
    requires !ErrorResponse(req) && Selects(middlewares, false, pre) && Selects(middlewares, true, post)
    requires first == Chain(world, Phase(middlewares, false), req, []) && first.result.Ok?
    requires PhaseRun(world, first.calls, 0, |first.calls|, middlewares, pre, req)
    requires PhaseOutcome(world, first, 0, req)
    ensures EndsAsAnswered(world, processors, Dispatched(world, processors, middlewares, req), req)
  {
    assert forall k :: 0 <= k < |post| ==> post[k] < |middlewares|;
    hide PhaseTrace, Phase, NoneServes, FirstServing, PhaseRun, PhaseOutcome, Selects, EndsAsAnswered, Chain;
    var ran := Dispatched(world, processors, middlewares, req);
    var processed := RunProcessor(world, processors, first.result.value, first.calls);
    ChainKeepsRef(world, Phase(middlewares, false), req, []);
    var k := FindsTheFirstServing(processors, first.result.value);
    if FindProcessor(processors, first.result.value).None? {
      EndsUnserved(world, processors, middlewares, first, pre, req);
    } else {
      var at := |first.calls|;
      assert processed.calls[..at] == first.calls;
      EndsWithTheProcessor(world, processors, processed, at, req);
      if processed.result.Ok? {
        ChainTrace(world, Phase(middlewares, true), processed.result.value, processed.calls);
        PhaseCalls(world, ran.calls, at + 1, middlewares, true, post, processed.result.value);
        PhaseEnds(world, ran, at + 1, middlewares, post, processed.result.value);
        if |ran.calls| > at + 1 {
          EndsInAPhase(world, processors, middlewares, ran, at + 1, post, processed.result.value, req);
        } else {
          assert ran == processed;
        }
      }
    }
  }

  /** Every run ends as its last call was answered. */
  lemma EndsAsTheLastAnswered(world: World, processors: seq<ProcessorConfig>, middlewares: seq<MiddlewareConfig>,
                              req: Request)
    requires !ErrorResponse(req)
    ensures EndsAsAnswered(world, processors, Dispatched(world, processors, middlewares, req), req)
  {
    var pre := SomeSelects(middlewares, false);
    var post := SomeSelects(middlewares, true);
    EndsAsItsPhases(world, processors, middlewares, req, pre, post);
  }

  lemma SomeSelects(middlewares: seq<MiddlewareConfig>, post: bool) returns (places: seq<nat>)
    ensures Selects(middlewares, post, places)
  {
    places := PhaseSelects(middlewares, post, 0);
  }

  /** Whatever a run calls before its processor is configured for before it, and what it calls after it for after it. */
  lemma EachPhaseOnItsSide(world: World, processors: seq<ProcessorConfig>, middlewares: seq<MiddlewareConfig>,
                           req: Request, p: nat, i: nat)
    returns (k: int)
    requires !ErrorResponse(req)
    requires var calls := Dispatched(world, processors, middlewares, req).calls;
             p < |calls| && calls[p].peer.Processor? && i < |calls| && i != p
    ensures IsConfigured(Dispatched(world, processors, middlewares, req).calls[i], middlewares, k, i > p)
  {
    hide Dispatched, AnswerTo, FirstServing;
    var pre := SomeSelects(middlewares, false);
    var post := SomeSelects(middlewares, true);
    var same := RunsAsConfigured(world, processors, middlewares, req, pre, post);
    assert p == same;
    k := if i < p then pre[i] else post[i - p - 1];
  }

  /** When no middleware responds or fails, a run that ends well has called each once, in order, on its side. */
  lemma NothingIsLeftOut(world: World, processors: seq<ProcessorConfig>, middlewares: seq<MiddlewareConfig>,
                         req: Request, pre: seq<nat>, post: seq<nat>)
    requires !ErrorResponse(req) && Selects(middlewares, false, pre) && Selects(middlewares, true, post)
    requires Dispatched(world, processors, middlewares, req).result.Ok?
    requires AllContinue(world, Dispatched(world, processors, middlewares, req).calls)
    ensures AllCalled(Dispatched(world, processors, middlewares, req).calls, middlewares, pre, post)
  {
    hide CallsAsConfigured, EndsAsAnswered, AllContinue, AllCalled, Selects, AnswerTo;
    var p := RunsAsConfigured(world, processors, middlewares, req, pre, post);
    EndsAsTheLastAnswered(world, processors, middlewares, req);
    ExactlyOneProcessor(world, processors, middlewares, req);
    var ran := Dispatched(world, processors, middlewares, req);
    hide Dispatched;
    GoodRunsCallAll(world, processors, middlewares, ran, req, pre, post, p);
  }

  ghost predicate AllContinue(world: World, calls: seq<Call>) {
    forall i :: 0 <= i < |calls| && calls[i].peer.Middleware? ==> Continues(AnswerTo(world, calls, i))
  }

  predicate AllCalled(calls: seq<Call>, middlewares: seq<MiddlewareConfig>, pre: seq<nat>, post: seq<nat>)
    requires forall k :: 0 <= k < |pre| ==> pre[k] < |middlewares|
    requires forall k :: 0 <= k < |post| ==> post[k] < |middlewares|
  {
    && |calls| == |pre| + 1 + |post|
    && (forall i :: 0 <= i < |pre| ==> calls[i].peer == Middleware(middlewares[pre[i]].ref))
    && calls[|pre|].peer.Processor?
    && (forall i :: |pre| < i < |calls| ==> calls[i].peer == Middleware(middlewares[post[i - |pre| - 1]].ref))
  }

  lemma GoodRunsCallAll(world: World, processors: seq<ProcessorConfig>, middlewares: seq<MiddlewareConfig>, ran: Ran,
                        req: Request, pre: seq<nat>, post: seq<nat>, p: nat)
    requires Selects(middlewares, false, pre) && Selects(middlewares, true, post)
    requires CallsAsConfigured(world, processors, middlewares, ran.calls, pre, post, p)
    requires EndsAsAnswered(world, processors, ran, req) && ran.result.Ok? && ProcessorCalls(ran.calls) == 1
    requires AllContinue(world, ran.calls)
    ensures AllCalled(ran.calls, middlewares, pre, post)
  {
    hide Selects, AnswerTo, FirstServing, NoneServes;
    var calls := ran.calls;
    if p == |calls| {
      NoProcessorAmong(calls);
    }
    hide ProcessorCalls;
    assert p > 0 ==> calls[p - 1].peer.Middleware?;
    assert p == |pre|;
    assert |calls| > p + 1 ==> calls[|calls| - 1].peer.Middleware?;
    assert |calls| == |pre| + 1 + |post|;
  }

  lemma {:induction false} NoProcessorAmong(calls: seq<Call>)
    requires forall i :: 0 <= i < |calls| ==> calls[i].peer.Middleware?
    ensures ProcessorCalls(calls) == 0
  {
    if calls != [] {
      NoProcessorAmong(calls[..|calls| - 1]);
    }
  }

  /** A response that is neither OK nor RINGING goes to the processor that serves it, and to no middleware. */
  lemma ErrorResponsesGoToTheProcessorOnly(world: World, processors: seq<ProcessorConfig>,
                                           middlewares: seq<MiddlewareConfig>, req: Request)
    requires ErrorResponse(req)
    ensures var ran := Dispatched(world, processors, middlewares, req);
            && |ran.calls| <= 1 && EndsAsAnswered(world, processors, ran, req)
            && (ran.calls != [] ==>
                  && ran.calls[0].request == req
                  && exists k :: FirstServing(processors, req, k) && ran.calls[0].peer == Processor(processors[k].ref))
  {
    hide FirstServing, NoneServes;
    var k := FindsTheFirstServing(processors, req);
    var ran := Dispatched(world, processors, middlewares, req);
    assert ran == RunProcessor(world, processors, req, []);
    if ran.calls != [] {
      assert ran.calls == [ran.calls[0]] && ran.calls[..0] == [];
    }
  }
}
