/**
 The alterations as the proxy runs them: each one deep-copies the request it is given and assigns fields of
 the copy (mods/processor/src/alterations.ts, mods/common/src/helper.ts). No method here modifies its input.
 */
module MessageAlterations {
  import opened Wrappers
  import opened CommonTypes
  import opened Sip
  import opened Text
  import opened EdgeInterface
  import A = Alterations
  import PipelineResults

  /** An object that alterations assign to in place: the request URI, or the URI of the contact. */
  class Uri {
    var user: string
    var host: string
    var port: Option<int>
    var transportParam: string
    var lrParam: bool

    function Value(): SipUri
      reads this
    {
      SipUri(user, host, port, transportParam, lrParam)
    }

    constructor Copy(source: Uri)
      ensures Value() == source.Value()
    {
      user, host, port := source.user, source.host, source.port;
      transportParam, lrParam := source.transportParam, source.lrParam;
    }
  }

  class MaxForwards {
    var maxForwards: int

    constructor Copy(source: MaxForwards)
      ensures maxForwards == source.maxForwards
    {
      maxForwards := source.maxForwards;
    }
  }

  class SipMessage {
    var requestUri: Uri
    var via: seq<Via>
    var route: seq<RouteHeader>
    var recordRoute: seq<RouteHeader>
    var maxForwards: MaxForwards?
    var extensions: seq<Extension>
    var authorization: Option<string>
    var contact: Uri?
    var body: string

    /** The message and the objects it refers to. */
    ghost function Repr(): set<object>
      reads this
    {
      {this, requestUri}
      + (if maxForwards == null then {} else var m: MaxForwards := maxForwards; {m})
      + (if contact == null then {} else var c: Uri := contact; {c})
    }

    /** Assigning to the request URI leaves the contact alone, and the other way round. */
    ghost predicate Unshared()
      reads this
    {
      contact != requestUri
    }

    function Value(): Message
      reads this, requestUri, maxForwards, contact
    {
      Message(requestUri.Value(), via, route, recordRoute,
              if maxForwards == null then None else Some(maxForwards.maxForwards),
              extensions, authorization,
              if contact == null then None else Some(contact.Value()), body)
    }

    constructor Copy(source: SipMessage)
      ensures Value() == source.Value() && Unshared() && fresh(Repr())
    {
      var uri := new Uri.Copy(source.requestUri);
      requestUri, via, route, recordRoute := uri, source.via, source.route, source.recordRoute;
      if source.maxForwards == null {
        maxForwards := null;
      } else {
        var copied := new MaxForwards.Copy(source.maxForwards);
        maxForwards := copied;
      }
      if source.contact == null {
        contact := null;
      } else {
        var copied := new Uri.Copy(source.contact);
        contact := copied;
      }
      extensions, authorization, body := source.extensions, source.authorization, source.body;
    }
  }

  class MessageRequest {
    var ref: string
    var sipMethod: string
    var edgePort: EdgePort
    var sender: NetInterface
    var message: SipMessage

    ghost function Repr(): set<object>
      reads this, message
    {
      {this} + message.Repr()
    }

    function Value(): Request
      reads this, message, message.requestUri, message.maxForwards, message.contact
    {
      Request(ref, sipMethod, edgePort, sender, message.Value())
    }

    constructor Copy(source: MessageRequest, message: SipMessage)
      ensures this.message == message
      ensures ref == source.ref && sipMethod == source.sipMethod && edgePort == source.edgePort
               && sender == source.sender
    {
      ref, sipMethod, edgePort, sender := source.ref, source.sipMethod, source.edgePort, source.sender;
      this.message := message;
    }
  }

  /** A request that shares no object with its source, whatever the source shares within itself. */
  method DeepCopy(source: MessageRequest) returns (copy: MessageRequest)
    ensures fresh(copy.Repr()) && copy.message.Unshared() && copy.Value() == source.Value()
  {
    var message := new SipMessage.Copy(source.message);
    copy := new MessageRequest.Copy(source, message);
  }

  /** The outcome of a method is the outcome the alteration has on values. */
  ghost predicate Gives(outcome: Result<MessageRequest, Error>, expected: Result<Request, Error>)
    reads if outcome.Ok? then {outcome.value, outcome.value.message} + outcome.value.Repr() else {}
  {
    match outcome
    case Ok(req) => expected == Ok(req.Value())
    case Err(e) => expected == Err(e)
  }

  // ---------------------------------------------------------------- request URI, Via

  method FixRequestURI(route: Route, request: MessageRequest) returns (req: MessageRequest)
    ensures fresh(req.Repr()) && req.message.Unshared()
    ensures req.Value() == A.FixRequestURI(route, old(request.Value()))
  {
    req := DeepCopy(request);
    req.message.requestUri.host := route.host;
    req.message.requestUri.port := route.port;
    req.message.requestUri.transportParam := route.transport;
  }

  method AddSelfVia(route: Route, request: MessageRequest, hasIp: Subnets) returns (r: Result<MessageRequest, Error>)
    ensures r.Ok? ==> fresh(r.value.Repr()) && r.value.message.Unshared()
    ensures Gives(r, A.AddSelfVia(route, old(request.Value()), hasIp))
  {
    var req := DeepCopy(request);
    var routingObjects := if request.edgePort.ref == route.edgePortRef then A.EdgePortOf(route) else request.edgePort;
    var found := InterfaceTowards(routingObjects, route.host, route.transport, hasIp);
    if found.Err? {
      return Err(found.error);
    }
    req.message.via := [A.SelfVia(found.value.host, Some(found.value.port), found.value.transport)] + req.message.via;
    return Ok(req);
  }

  method AddSelfViaUsingTheRouteHeaders(request: MessageRequest) returns (req: MessageRequest)
    ensures fresh(req.Repr()) && req.message.Unshared()
    ensures req.Value() == A.AddSelfViaUsingTheRouteHeaders(old(request.Value()))
  {
    req := DeepCopy(request);
    var routes := request.message.route;
    if |routes| == 0 {
      return;
    }
    var egress := if |routes| == 1 then routes[0] else routes[1];
    var transport := if egress.uri.transportParam == "" then UDP else ToUpper(egress.uri.transportParam);
    req.message.via := [A.SelfVia(egress.uri.host, egress.uri.port, transport)] + req.message.via;
  }

  method AddSelfViaUsingExternalAddrs(request: MessageRequest, hasIp: Subnets)
    returns (r: Result<MessageRequest, Error>)
    ensures r.Ok? ==> fresh(r.value.Repr()) && r.value.message.Unshared()
    ensures Gives(r, A.AddSelfViaUsingExternalAddrs(old(request.Value()), hasIp))
  {
    var req := DeepCopy(request);
    var uri := request.message.requestUri;
    var found := InterfaceTowards(request.edgePort, uri.host, uri.transportParam, hasIp);
    if found.Err? {
      return Err(found.error);
    }
    req.message.via := [A.SelfVia(found.value.host, Some(found.value.port), found.value.transport)] + req.message.via;
    return Ok(req);
  }

  method RemoveTopVia(request: MessageRequest) returns (req: MessageRequest)
    ensures fresh(req.Repr()) && req.message.Unshared()
    ensures req.Value() == A.RemoveTopVia(old(request.Value()))
  {
    req := DeepCopy(request);
    if |req.message.via| > 0 {
      req.message.via := req.message.via[1..];
    }
  }

  // ---------------------------------------------------------------- Route, Record-Route

  /** The one alteration that can answer with the very request it was given. */
  method AddRouteToNextHop(route: Route, request: MessageRequest) returns (req: MessageRequest)
    ensures req == request || (fresh(req.Repr()) && req.message.Unshared())
    ensures req.Value() == A.AddRouteToNextHop(route, old(request.Value()))
    ensures request.Value() == old(request.Value())
  {
    if request.message.requestUri.host == route.host {
      return request;
    }
    req := DeepCopy(request);
    req.message.route := [A.LooseRoute(route.host, route.port, route.transport, map[])] + req.message.route;
  }

  method AddRouteToPeerEdgePort(route: Route, request: MessageRequest, hasIp: Subnets)
    returns (r: Result<MessageRequest, Error>)
    ensures r.Ok? ==> fresh(r.value.Repr()) && r.value.message.Unshared()
    ensures Gives(r, A.AddRouteToPeerEdgePort(route, old(request.Value()), hasIp))
  {
    var req := DeepCopy(request);
    var found := InterfaceTowards(A.EdgePortOf(route), route.host, route.transport, hasIp);
    if found.Err? {
      return Err(found.error);
    }
    req.message.route := [A.HeaderFor(found.value, map[])] + req.message.route;
    return Ok(req);
  }

  method AddSelfRecordRoute(route: Route, request: MessageRequest, hasIp: Subnets)
    returns (r: Result<MessageRequest, Error>)
    ensures r.Ok? ==> fresh(r.value.Repr()) && r.value.message.Unshared()
    ensures Gives(r, A.AddSelfRecordRoute(route, old(request.Value()), hasIp))
  {
    var req := DeepCopy(request);
    var origin := InterfaceTowards(request.edgePort, request.sender.host, request.sender.transport, hasIp);
    if origin.Err? {
      return Err(origin.error);
    }
    var target := InterfaceTowards(request.edgePort, route.advertisedHost, route.transport, hasIp);
    if target.Err? {
      return Err(target.error);
    }
    var originRoute := A.HeaderFor(origin.value, map[]);
    if origin.value != target.value {
      var targetRoute := A.HeaderFor(target.value, A.R2_ON);
      originRoute := originRoute.(parameters := A.R2_ON);
      req.message.recordRoute := [targetRoute, originRoute] + req.message.recordRoute;
    } else {
      req.message.recordRoute := [originRoute] + req.message.recordRoute;
    }
    return Ok(req);
  }

  method RemoveSelfRoutes(request: MessageRequest) returns (r: Result<MessageRequest, Error>)
    ensures r.Ok? ==> fresh(r.value.Repr()) && r.value.message.Unshared()
    ensures Gives(r, A.RemoveSelfRoutes(old(request.Value())))
  {
    var req := DeepCopy(request);
    var edgePort, headers := request.edgePort, request.message.route;
    var localIps := LocalIps(edgePort.localnets);
    var foreign, rest := [], headers;
    ghost var expected := A.Foreign(edgePort, headers);
    while rest != []
      invariant match A.Foreign(edgePort, rest)
                case Err(e) => expected == Err(e)
                case Ok(remaining) => expected.Ok? && expected.value == foreign + remaining
      decreases |rest|
    {
      var uri := rest[0].uri;
      var lp := ListeningPoint(edgePort.listeningPoints, uri.transportParam);
      if lp.Err? {
        return Err(lp.error);
      }
      if !((uri.host in localIps || uri.host in edgePort.externalAddrs) && uri.port == Some(lp.value.port)) {
        foreign := foreign + [rest[0]];
      }
      rest := rest[1..];
    }
    assert foreign + [] == foreign;
    req.message.route := foreign;
    return Ok(req);
  }

  // ---------------------------------------------------------------- extension headers

  method ApplyXHeaders(route: Route, request: MessageRequest) returns (req: MessageRequest)
    ensures fresh(req.Repr()) && req.message.Unshared()
    ensures req.Value() == A.ApplyXHeaders(route, old(request.Value()))
  {
    req := DeepCopy(request);
    if |route.headers| > 0 {
      var headersToRemove := A.NamesToRemove(route.headers);
      req.message.extensions := A.Kept(req.message.extensions, headersToRemove);
      PushAll(req.message, route.headers);
    }
  }

  /** The loop over the headers to add. */
  method PushAll(message: SipMessage, headers: seq<HeaderModifier>)
    modifies message`extensions
    ensures message.extensions == old(message.extensions) + A.ExtensionsToAdd(headers)
  {
    var rest := headers;
    while rest != []
      invariant message.extensions + A.ExtensionsToAdd(rest) == old(message.extensions) + A.ExtensionsToAdd(headers)
      decreases |rest|
    {
      if rest[0].action == ADD {
        message.extensions := message.extensions + [Extension(rest[0].name, rest[0].value)];
      }
      rest := rest[1..];
    }
  }

  method AddXEdgePortRef(request: MessageRequest) returns (req: MessageRequest)
    ensures fresh(req.Repr()) && req.message.Unshared()
    ensures req.Value() == A.AddXEdgePortRef(old(request.Value()))
  {
    req := DeepCopy(request);
    req.message.extensions := [Extension(EDGEPORT_REF, request.edgePort.ref)] + req.message.extensions;
  }

  method RemoveXEdgePortRef(request: MessageRequest) returns (req: MessageRequest)
    ensures fresh(req.Repr()) && req.message.Unshared()
    ensures req.Value() == A.RemoveXEdgePortRef(old(request.Value()))
  {
    req := DeepCopy(request);
    req.message.extensions := A.NotNamed(req.message.extensions, EDGEPORT_REF);
  }

  // ---------------------------------------------------------------- the other headers

  method RemoveAuthorization(request: MessageRequest) returns (req: MessageRequest)
    ensures fresh(req.Repr()) && req.message.Unshared()
    ensures req.Value() == A.RemoveAuthorization(old(request.Value()))
  {
    req := DeepCopy(request);
    req.message.authorization := None;
  }

  method DecreaseMaxForwards(request: MessageRequest) returns (req: MessageRequest)
    ensures fresh(req.Repr()) && req.message.Unshared()
    ensures req.Value() == A.DecreaseMaxForwards(old(request.Value()))
  {
    req := DeepCopy(request);
    if req.message.maxForwards != null {
      req.message.maxForwards.maxForwards := req.message.maxForwards.maxForwards - 1;
    }
  }

  method FixInvalidContact(request: MessageRequest) returns (r: Result<MessageRequest, Error>)
    ensures r.Ok? ==> fresh(r.value.Repr()) && r.value.message.Unshared()
    ensures Gives(r, A.FixInvalidContact(old(request.Value())))
  {
    var req := DeepCopy(request);
    if req.message.contact != null && Contains(req.message.contact.host, ".invalid") {
      if |req.message.via| == 0 {
        return Err(TypeError);
      }
      var via := req.message.via[0];
      req.message.contact.host := if via.received != "" then via.received else via.host;
      req.message.contact.port := if via.rPort != Some(-1) then via.rPort else via.port;
      req.message.contact.transportParam := ToUpper(via.transport);
    }
    return Ok(req);
  }

  method OverwriteContactWithSenderInfo(request: MessageRequest) returns (req: MessageRequest)
    ensures fresh(req.Repr()) && req.message.Unshared()
    ensures req.Value() == A.OverwriteContactWithSenderInfo(old(request.Value()))
  {
    req := DeepCopy(request);
    if req.message.contact != null {
      req.message.contact.host := req.sender.host;
      req.message.contact.port := Some(req.sender.port);
      req.message.contact.transportParam := req.sender.transport;
    }
  }

  // ---------------------------------------------------------------- pipelines

  method Tailor(route: Route, request: MessageRequest, hasIp: Subnets) returns (r: Result<MessageRequest, Error>)
    ensures Gives(r, A.Tailor(route, old(request.Value()), hasIp))
  {
    var decreased := DecreaseMaxForwards(request);
    var unauthorized := RemoveAuthorization(decreased);
    var stripped :- RemoveSelfRoutes(unauthorized);
    var unmarked := RemoveXEdgePortRef(stripped);
    var reachable :- FixInvalidContact(unmarked);
    var addressed := FixRequestURI(route, reachable);
    var signed :- AddSelfVia(route, addressed, hasIp);
    var extended := ApplyXHeaders(route, signed);
    var recorded :- AddSelfRecordRoute(route, extended, hasIp);
    var routed := AddRouteToNextHop(route, recorded);
    return Ok(routed);
  }

  method ToPeerEdgePort(route: Route, request: MessageRequest, hasIp: Subnets)
    returns (r: Result<MessageRequest, Error>)
    ensures Gives(r, A.ToPeerEdgePort(route, old(request.Value()), hasIp))
  {
    var signed :- AddSelfVia(route, request, hasIp);
    var recorded :- AddSelfRecordRoute(route, signed, hasIp);
    var toPeer :- AddRouteToPeerEdgePort(route, recorded, hasIp);
    var routed := AddRouteToNextHop(route, toPeer);
    var marked := AddXEdgePortRef(routed);
    var decreased := DecreaseMaxForwards(marked);
    return Ok(decreased);
  }

  method RegisterOut(request: MessageRequest, hasIp: Subnets) returns (r: Result<MessageRequest, Error>)
    ensures Gives(r, A.RegisterOut(old(request.Value()), hasIp))
  {
    var route :- A.RouteFromLastMessage(request.Value());
    var signed :- AddSelfVia(route, request, hasIp);
    var decreased := DecreaseMaxForwards(signed);
    var unauthorized := RemoveAuthorization(decreased);
    var stripped :- RemoveSelfRoutes(unauthorized);
    var unmarked := RemoveXEdgePortRef(stripped);
    return Ok(unmarked);
  }

  method ByeOrAck(request: MessageRequest, hasIp: Subnets) returns (r: Result<MessageRequest, Error>)
    ensures Gives(r, A.ByeOrAck(old(request.Value()), hasIp))
    ensures r.Ok? ==>
              PipelineResults.ForeignInOrder(old(request.edgePort), old(request.message.route), r.value.message.route)
  {
    if A.ByeOrAck(request.Value(), hasIp).Ok? {
      PipelineResults.ByeOrAckResult(request.Value(), hasIp);
    }
    var decreased := DecreaseMaxForwards(request);
    var signed :- AddSelfViaUsingExternalAddrs(decreased, hasIp);
    var stripped :- RemoveSelfRoutes(signed);
    return Ok(stripped);
  }

  /** A route found by the router is marked with the direction of the call before the request is forwarded. */
  method Forward(found: Route, direction: string, request: MessageRequest, hasIp: Subnets)
    returns (r: Result<MessageRequest, Error>)
    ensures Gives(r, A.ForwardRouted(found, direction, old(request.Value()), hasIp))
  {
    var route := found;
    if A.HeaderValue(request.message.extensions, EDGEPORT_REF).Some? {
      route :- A.RouteFromLastMessage(request.Value());
    } else {
      route := route.(headers := route.headers + [HeaderModifier(CALL_DIRECTION, direction, ADD)]);
    }
    if request.edgePort.ref != route.edgePortRef {
      r := ToPeerEdgePort(route, request, hasIp);
    } else {
      r := Tailor(route, request, hasIp);
    }
  }
}
