/**
 The message dispatcher: middlewares before a processor, the processor, middlewares after it
 (mods/dispatcher/src). The services it calls are one function of all calls made so far, so that a statement
 for every such function is a statement for every behaviour of theirs.
 */
module Dispatcher {
  import opened Wrappers

  datatype MessageType = REQUEST | RESPONSE

  datatype SipMessage = SipMessage(messageType: MessageType, responseType: string, content: string)

  datatype Request = Request(ref: string, sipMethod: string, message: SipMessage)

  datatype ProcessorConfig = ProcessorConfig(ref: string, methods: set<string>, matchFunc: Request -> bool)

  datatype MiddlewareConfig = MiddlewareConfig(ref: string, postProcessor: bool)

  datatype Peer = Middleware(ref: string) | Processor(ref: string)

  datatype Call = Call(peer: Peer, request: Request)

  datatype Answer = Replied(message: SipMessage) | Unavailable | OtherError

  type World = (seq<Call>, Call) -> Answer

  datatype Failure =
    | MiddlewareUnavailable(ref: string)
    | ProcessorUnavailable(ref: string)
    | NotMatchingProcessorFound(ref: string)
    | TypeError

  /** All calls made so far, and the request that comes out or the failure. */
  datatype Ran = Ran(calls: seq<Call>, result: Result<Request, Failure>)

  // ---------------------------------------------------------------- middlewares

  /**
   The answer to `call` when `calls` have been made before. Any error but unavailability leaves no message to read.
   */
  function AfterMiddleware(world: World, calls: seq<Call>, call: Call): Result<Request, Failure> {
    match world(calls, call)
    case Replied(message) => Ok(call.request.(message := message))
    case Unavailable => Err(MiddlewareUnavailable(call.peer.ref))
    case OtherError => Err(TypeError)
  }

  function Phase(middlewares: seq<MiddlewareConfig>, post: bool): seq<MiddlewareConfig> {
    if middlewares == [] then []
    else if middlewares[0].postProcessor == post then [middlewares[0]] + Phase(middlewares[1..], post)
    else Phase(middlewares[1..], post)
  }

  /** Each middleware gets what the one before answered, up to the first response or failure. */
  function Chain(world: World, middlewares: seq<MiddlewareConfig>, req: Request, calls: seq<Call>): Ran
    decreases |middlewares|
  {
    if middlewares == [] then Ran(calls, Ok(req))
    else
      var call := Call(Middleware(middlewares[0].ref), req);
      match AfterMiddleware(world, calls, call)
      case Err(e) => Ran(calls + [call], Err(e))
      case Ok(answered) =>
        if answered.message.messageType == RESPONSE then Ran(calls + [call], Ok(answered))
        else Chain(world, middlewares[1..], answered, calls + [call])
  }

  /** The k-th middleware is the one that is called, and it is configured with that flag. */
  ghost predicate IsConfigured(call: Call, middlewares: seq<MiddlewareConfig>, k: int, post: bool) {
    && 0 <= k < |middlewares| && middlewares[k].postProcessor == post
    && call.peer == Middleware(middlewares[k].ref)
  }

  ghost predicate IsOneOf(call: Call, middlewares: seq<MiddlewareConfig>, post: bool) {
    exists k :: IsConfigured(call, middlewares, k, post)
  }

  /** The loop visits all middlewares and skips those of the other phase. */
  method RunMiddlewares(world: World, middlewares: seq<MiddlewareConfig>, request: Request, post: bool, made: seq<Call>)
    returns (ran: Ran)
    ensures ran == Chain(world, Phase(middlewares, post), request, made)
    ensures made <= ran.calls
    ensures forall j :: |made| <= j < |ran.calls| ==> IsOneOf(ran.calls[j], middlewares, post)
  {
    var req, calls := request, made;
    for i := 0 to |middlewares|
      invariant made <= calls
      invariant forall j :: |made| <= j < |calls| ==> IsOneOf(calls[j], middlewares, post)
      invariant Chain(world, Phase(middlewares, post), request, made)
             == Chain(world, Phase(middlewares[i..], post), req, calls)
    {
      var midd := middlewares[i];
      assert middlewares[i..][0] == midd && middlewares[i..][1..] == middlewares[i + 1..];
      if post != midd.postProcessor {
        continue;
      }
      assert Phase(middlewares[i..], post)[1..] == Phase(middlewares[i + 1..], post);
      var call := Call(Middleware(midd.ref), req);
      assert IsConfigured(call, middlewares, i, post);
      var answered := AfterMiddleware(world, calls, call);
      calls := calls + [call];
      if answered.Err? {
        return Ran(calls, Err(answered.error));
      }
      req := req.(message := answered.value.message);
      if req.message.messageType == RESPONSE {
        return Ran(calls, Ok(req));
      }
    }
    return Ran(calls, Ok(req));
  }

  // ---------------------------------------------------------------- processors

  predicate Matches(config: ProcessorConfig, req: Request) {
    req.sipMethod in config.methods && config.matchFunc(req)
  }

  function FindProcessor(processors: seq<ProcessorConfig>, req: Request): Option<ProcessorConfig> {
    if processors == [] then None
    else if Matches(processors[0], req) then Some(processors[0])
    else FindProcessor(processors[1..], req)
  }

  /** Any error but unavailability hands the request on as it was. */
  function AfterProcessor(world: World, calls: seq<Call>, call: Call): Result<Request, Failure> {
    match world(calls, call)
    case Replied(message) => Ok(call.request.(message := message))
    case Unavailable => Err(ProcessorUnavailable(call.peer.ref))
    case OtherError => Ok(call.request)
  }

  function RunProcessor(world: World, processors: seq<ProcessorConfig>, req: Request, calls: seq<Call>): Ran {
    match FindProcessor(processors, req)
    case None => Ran(calls, Err(NotMatchingProcessorFound(req.ref)))
    case Some(config) =>
      var call := Call(Processor(config.ref), req);
      Ran(calls + [call], AfterProcessor(world, calls, call))
  }

  // ---------------------------------------------------------------- dispatching

  predicate IsErrorResponse(req: Request) {
    req.message.messageType == RESPONSE && req.message.responseType != "OK" && req.message.responseType != "RINGING"
  }

  /** What the handler does before its one callback. The later checks look at the original request again. */
  method Dispatch(world: World, processors: seq<ProcessorConfig>, middlewares: seq<MiddlewareConfig>, request: Request)
    returns (ran: Ran)
    ensures ran == Dispatched(world, processors, middlewares, request)
  {
    if IsErrorResponse(request) {
      return RunProcessor(world, processors, request, []);
    }
    ran := RunMiddlewares(world, middlewares, request, false, []);
    if ran.result.Err? || IsErrorResponse(request) {
      return;
    }
    ran := RunProcessor(world, processors, ran.result.value, ran.calls);
    if ran.result.Err? || IsErrorResponse(request) {
      return;
    }
    ran := RunMiddlewares(world, middlewares, ran.result.value, true, ran.calls);
  }

  function Dispatched(world: World, processors: seq<ProcessorConfig>, middlewares: seq<MiddlewareConfig>, req: Request)
    : Ran
  {
    if IsErrorResponse(req) then RunProcessor(world, processors, req, [])
    else
      var pre := Chain(world, Phase(middlewares, false), req, []);
      if pre.result.Err? then pre
      else
        var processed := RunProcessor(world, processors, pre.result.value, pre.calls);
        if processed.result.Err? then processed
        else Chain(world, Phase(middlewares, true), processed.result.value, processed.calls)
  }

  // ---------------------------------------------------------------- what a run looks like

  /** The first matching processor, and none before it matches. */
  lemma {:induction false} FindsTheFirstMatch(processors: seq<ProcessorConfig>, req: Request)
    ensures match FindProcessor(processors, req)
            case None => forall i :: 0 <= i < |processors| ==> !Matches(processors[i], req)
            case Some(config) =>
              exists i :: 0 <= i < |processors| && processors[i] == config && Matches(config, req) &&
                forall j :: 0 <= j < i ==> !Matches(processors[j], req)
  {
    if processors != [] && !Matches(processors[0], req) {
      FindsTheFirstMatch(processors[1..], req);
      assert forall i :: 1 <= i < |processors| ==> processors[i] == processors[1..][i - 1];
      if FindProcessor(processors, req).Some? {
        var config := FindProcessor(processors, req).value;
        var i :| 0 <= i < |processors[1..]| && processors[1..][i] == config && Matches(config, req) &&
                 forall j :: 0 <= j < i ==> !Matches(processors[1..][j], req);
        assert processors[i + 1] == config;
      }
    }
  }

  /** The request as the calls before `i` have left it, with `from` the first call of the phase. */
  function Carried(world: World, calls: seq<Call>, from: nat, i: nat, req: Request): Request
    requires from <= i <= |calls|
  {
    if i == from then req
    else match world(calls[..i - 1], calls[i - 1])
      case Replied(message) => calls[i - 1].request.(message := message)
      case _ => calls[i - 1].request
  }

  predicate ChainGoesOn(answer: Answer) {
    answer.Replied? && answer.message.messageType != RESPONSE
  }

  /**
   The calls from `from` to the end of `calls` are the middlewares in order, each with what the one before
   answered; all but the last one answered with something that is not a response; and unless they are all of
   them the last one did not.
   */
  ghost predicate PhaseTrace(world: World, calls: seq<Call>, from: nat, middlewares: seq<MiddlewareConfig>,
                             req: Request)
  {
    && from <= |calls| <= from + |middlewares|
    && (forall i :: from <= i < |calls| ==>
          calls[i] == Call(Middleware(middlewares[i - from].ref), Carried(world, calls, from, i, req)))
    && (forall i :: from <= i < |calls| - 1 ==> ChainGoesOn(world(calls[..i], calls[i])))
    && (|calls| < from + |middlewares| ==>
          from < |calls| && !ChainGoesOn(world(calls[..|calls| - 1], calls[|calls| - 1])))
  }

  /** The outcome of a phase is the answer of its last call. */
  ghost predicate PhaseOutcome(world: World, ran: Ran, from: nat, req: Request) {
    && from <= |ran.calls|
    && ran.result ==
       if |ran.calls| == from then Ok(req)
       else AfterMiddleware(world, ran.calls[..|ran.calls| - 1], ran.calls[|ran.calls| - 1])
  }

  /** One more call in front: what held of the calls after it holds of all of them. */
  lemma TraceFromOneEarlier(world: World, calls: seq<Call>, from: nat, middlewares: seq<MiddlewareConfig>,
                            req: Request, answered: Request)
    requires middlewares != [] && from < |calls| && calls[from] == Call(Middleware(middlewares[0].ref), req)
    requires AfterMiddleware(world, calls[..from], calls[from]) == Ok(answered)
             && answered.message.messageType != RESPONSE
    requires PhaseTrace(world, calls, from + 1, middlewares[1..], answered)
    ensures PhaseTrace(world, calls, from, middlewares, req)
  {
    forall i | from < i < |calls|
      ensures calls[i] == Call(Middleware(middlewares[i - from].ref), Carried(world, calls, from, i, req))
    {
      assert Carried(world, calls, from, i, req) == Carried(world, calls, from + 1, i, answered);
      assert middlewares[1..][i - (from + 1)] == middlewares[i - from];
    }
    assert Carried(world, calls, from, from, req) == req;
  }

  lemma {:induction false} ChainExtends(world: World, middlewares: seq<MiddlewareConfig>, req: Request,
                                        calls: seq<Call>)
    ensures calls <= Chain(world, middlewares, req, calls).calls
    decreases |middlewares|
  {
    if middlewares != [] {
      var call := Call(Middleware(middlewares[0].ref), req);
      var answered := AfterMiddleware(world, calls, call);
      if answered.Ok? && answered.value.message.messageType != RESPONSE {
        ChainExtends(world, middlewares[1..], answered.value, calls + [call]);
      }
    }
  }

  lemma {:induction false} ChainTrace(world: World, middlewares: seq<MiddlewareConfig>, req: Request, calls: seq<Call>)
    ensures var ran := Chain(world, middlewares, req, calls);
            && calls <= ran.calls
            && PhaseTrace(world, ran.calls, |calls|, middlewares, req)
            && PhaseOutcome(world, ran, |calls|, req)
    decreases |middlewares|
  {
    ChainExtends(world, middlewares, req, calls);
    if middlewares != [] {
      var call := Call(Middleware(middlewares[0].ref), req);
      var one, answered := calls + [call], AfterMiddleware(world, calls, call);
      assert one[..|calls|] == calls;
      if answered.Ok? && answered.value.message.messageType != RESPONSE {
        ChainTrace(world, middlewares[1..], answered.value, one);
        ChainTraceContinues(world, middlewares, req, calls, answered.value);
      }
    }
  }

  lemma ChainTraceContinues(world: World, middlewares: seq<MiddlewareConfig>, req: Request, calls: seq<Call>,
                            answered: Request)
    requires middlewares != [] && answered.message.messageType != RESPONSE
    requires AfterMiddleware(world, calls, Call(Middleware(middlewares[0].ref), req)) == Ok(answered)
    requires var one := calls + [Call(Middleware(middlewares[0].ref), req)];
             var ran := Chain(world, middlewares[1..], answered, one);
             one <= ran.calls && PhaseTrace(world, ran.calls, |one|, middlewares[1..], answered)
             && PhaseOutcome(world, ran, |one|, answered)
    ensures var ran := Chain(world, middlewares, req, calls);
            && PhaseTrace(world, ran.calls, |calls|, middlewares, req)
            && PhaseOutcome(world, ran, |calls|, req)
  {
    hide PhaseTrace, Carried;
    var call := Call(Middleware(middlewares[0].ref), req);
    var one := calls + [call];
    var ran := Chain(world, middlewares[1..], answered, one);
    assert ran == Chain(world, middlewares, req, calls);
    assert ran.calls[|calls|] == one[|calls|] == call;
    assert ran.calls[..|calls|] == one[..|calls|] == calls;
    TraceFromOneEarlier(world, ran.calls, |calls|, middlewares, req, answered);
  }

  /**
   A message that is not an error response goes through the pre-processing middlewares up to the first response
   or failure; if none failed, to the first matching processor, once, even when a middleware has answered with a
   response; and if that was available, through the post-processing middlewares likewise. Then the run is over.
   */
  lemma DispatchTrace(world: World, processors: seq<ProcessorConfig>, middlewares: seq<MiddlewareConfig>, req: Request)
    requires !IsErrorResponse(req)
    ensures var ran := Dispatched(world, processors, middlewares, req);
            var pre := Chain(world, Phase(middlewares, false), req, []);
            && PhaseTrace(world, pre.calls, 0, Phase(middlewares, false), req)
            && PhaseOutcome(world, pre, 0, req)
            && if pre.result.Err? then ran == pre
               else match FindProcessor(processors, pre.result.value)
                 case None => ran == Ran(pre.calls, Err(NotMatchingProcessorFound(req.ref)))
                 case Some(config) =>
                   var at, call := |pre.calls|, Call(Processor(config.ref), pre.result.value);
                   && at < |ran.calls| && ran.calls[..at] == pre.calls && ran.calls[at] == call
                   && match AfterProcessor(world, pre.calls, call)
                      case Err(e) => |ran.calls| == at + 1 && ran.result == Err(e)
                      case Ok(processed) =>
                        && PhaseTrace(world, ran.calls, at + 1, Phase(middlewares, true), processed)
                        && PhaseOutcome(world, ran, at + 1, processed)
  {
    hide PhaseTrace, PhaseOutcome, Chain, Phase;
    var pre := Chain(world, Phase(middlewares, false), req, []);
    ChainTrace(world, Phase(middlewares, false), req, []);
    if pre.result.Ok? {
      ChainKeepsRef(world, Phase(middlewares, false), req, []);
      var processed := RunProcessor(world, processors, pre.result.value, pre.calls);
      if processed.result.Ok? {
        ChainTrace(world, Phase(middlewares, true), processed.result.value, processed.calls);
        var ran := Dispatched(world, processors, middlewares, req);
        assert ran.calls[..|pre.calls|] == ran.calls[..|processed.calls|][..|pre.calls|] == pre.calls;
        assert ran.calls[|pre.calls|] == processed.calls[|pre.calls|];
      }
    }
  }

  lemma {:induction false} ChainKeepsRef(world: World, middlewares: seq<MiddlewareConfig>, req: Request,
                                         calls: seq<Call>)
    ensures Chain(world, middlewares, req, calls).result.Ok? ==>
              && Chain(world, middlewares, req, calls).result.value.ref == req.ref
              && Chain(world, middlewares, req, calls).result.value.sipMethod == req.sipMethod
    decreases |middlewares|
  {
    if middlewares != [] {
      var call := Call(Middleware(middlewares[0].ref), req);
      var answered := AfterMiddleware(world, calls, call);
      if answered.Ok? {
        ChainKeepsRef(world, middlewares[1..], answered.value, calls + [call]);
      }
    }
  }

  function ProcessorCalls(calls: seq<Call>): nat {
    if calls == [] then 0
    else ProcessorCalls(calls[..|calls| - 1]) + if calls[|calls| - 1].peer.Processor? then 1 else 0
  }

  lemma {:induction false} ChainCallsNoProcessor(world: World, middlewares: seq<MiddlewareConfig>, req: Request,
                                                 calls: seq<Call>)
    ensures ProcessorCalls(Chain(world, middlewares, req, calls).calls) == ProcessorCalls(calls)
    decreases |middlewares|
  {
    if middlewares != [] {
      var call := Call(Middleware(middlewares[0].ref), req);
      var answered, one := AfterMiddleware(world, calls, call), calls + [call];
      assert one[..|one| - 1] == calls;
      if answered.Ok? && answered.value.message.messageType != RESPONSE {
        ChainCallsNoProcessor(world, middlewares[1..], answered.value, one);
      }
    }
  }

  /** Whatever the services do, a run that ends well has called exactly one processor, and no run calls two. */
  lemma ExactlyOneProcessor(world: World, processors: seq<ProcessorConfig>, middlewares: seq<MiddlewareConfig>,
                            req: Request)
    ensures var ran := Dispatched(world, processors, middlewares, req);
            && ProcessorCalls(ran.calls) <= 1
            && (ran.result.Ok? ==> ProcessorCalls(ran.calls) == 1)
            && (IsErrorResponse(req) ==> ProcessorCalls(ran.calls) == |ran.calls|)
  {
    var start := if IsErrorResponse(req) then Ran([], Ok(req)) else Chain(world, Phase(middlewares, false), req, []);
    if !IsErrorResponse(req) {
      ChainCallsNoProcessor(world, Phase(middlewares, false), req, []);
    }
    if start.result.Ok? {
      var processed := RunProcessor(world, processors, start.result.value, start.calls);
      if processed.calls != start.calls {
        assert processed.calls[..|processed.calls| - 1] == start.calls;
      }
      if processed.result.Ok? && !IsErrorResponse(req) {
        ChainCallsNoProcessor(world, Phase(middlewares, true), processed.result.value, processed.calls);
      }
    }
  }
}
