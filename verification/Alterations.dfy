/** What each alteration does to a request, on values (mods/processor/src/alterations.ts, extensions.ts). */
module Alterations {
  import opened Wrappers
  import opened CommonTypes
  import opened Sip
  import opened Text
  import opened EdgeInterface

  function EdgePortOf(route: Route): EdgePort {
    EdgePort(route.edgePortRef, route.listeningPoints, route.localnets, route.externalAddrs)
  }

  function LooseRoute(host: string, port: Option<int>, transport: string, parameters: map<string, string>)
    : RouteHeader
  {
    RouteHeader(SipUri("", host, port, transport, true), parameters)
  }

  function HeaderFor(intf: NetInterface, parameters: map<string, string>): RouteHeader {
    LooseRoute(intf.host, Some(intf.port), intf.transport, parameters)
  }

  function SelfVia(host: string, port: Option<int>, transport: string): Via {
    Via(host, port, transport, "", None, true)
  }

  function PushVia(req: Request, via: Via): Request {
    req.(message := req.message.(via := [via] + req.message.via))
  }

  // ---------------------------------------------------------------- request URI, Via

  function FixRequestURI(route: Route, req: Request): Request {
    req.(message := req.message.(requestUri :=
      req.message.requestUri.(host := route.host, port := route.port, transportParam := route.transport)))
  }

  function AddSelfVia(route: Route, req: Request, hasIp: Subnets): Result<Request, Error> {
    var edgePort := if req.edgePort.ref == route.edgePortRef then EdgePortOf(route) else req.edgePort;
    var intf :- InterfaceTowards(edgePort, route.host, route.transport, hasIp);
    Ok(PushVia(req, SelfVia(intf.host, Some(intf.port), intf.transport)))
  }

  function AddSelfViaUsingTheRouteHeaders(req: Request): Request {
    var routes := req.message.route;
    if routes == [] then req
    else
      var uri := (if |routes| == 1 then routes[0] else routes[1]).uri;
      PushVia(req, SelfVia(uri.host, uri.port, if uri.transportParam == "" then UDP else ToUpper(uri.transportParam)))
  }

  function AddSelfViaUsingExternalAddrs(req: Request, hasIp: Subnets): Result<Request, Error> {
    var uri := req.message.requestUri;
    var intf :- InterfaceTowards(req.edgePort, uri.host, uri.transportParam, hasIp);
    Ok(PushVia(req, SelfVia(intf.host, Some(intf.port), intf.transport)))
  }

  function RemoveTopVia(req: Request): Request {
    if req.message.via == [] then req
    else req.(message := req.message.(via := req.message.via[1..]))
  }

  // ---------------------------------------------------------------- Route, Record-Route

  function AddRouteToNextHop(route: Route, req: Request): Request {
    if req.message.requestUri.host == route.host then req
    else req.(message := req.message.(route :=
           [LooseRoute(route.host, route.port, route.transport, map[])] + req.message.route))
  }

  function AddRouteToPeerEdgePort(route: Route, req: Request, hasIp: Subnets): Result<Request, Error> {
    var intf :- InterfaceTowards(EdgePortOf(route), route.host, route.transport, hasIp);
    Ok(req.(message := req.message.(route := [HeaderFor(intf, map[])] + req.message.route)))
  }

  const R2_ON: map<string, string> := map["r2" := "on"]

  /** One entry when both interfaces are the same, else one for each, the target's first, both marked `r2=on`. */
  function SelfRecordRoutes(origin: NetInterface, target: NetInterface): seq<RouteHeader> {
    if origin == target then [HeaderFor(origin, map[])] else [HeaderFor(target, R2_ON), HeaderFor(origin, R2_ON)]
  }

  function AddSelfRecordRoute(route: Route, req: Request, hasIp: Subnets): Result<Request, Error> {
    var origin :- InterfaceTowards(req.edgePort, req.sender.host, req.sender.transport, hasIp);
    var target :- InterfaceTowards(req.edgePort, route.advertisedHost, route.transport, hasIp);
    Ok(req.(message := req.message.(recordRoute := SelfRecordRoutes(origin, target) + req.message.recordRoute)))
  }

  /** Whether a Route entry names the edge port itself; raises when no listening point has its transport. */
  function IsSelf(edgePort: EdgePort, h: RouteHeader): Result<bool, Error> {
    var lp :- ListeningPoint(edgePort.listeningPoints, h.uri.transportParam);
    Ok((h.uri.host in LocalIps(edgePort.localnets) || h.uri.host in edgePort.externalAddrs)
      && h.uri.port == Some(lp.port))
  }

  function Foreign(edgePort: EdgePort, headers: seq<RouteHeader>): Result<seq<RouteHeader>, Error> {
    if headers == [] then Ok([])
    else
      var isSelf :- IsSelf(edgePort, headers[0]);
      var rest :- Foreign(edgePort, headers[1..]);
      Ok(if isSelf then rest else [headers[0]] + rest)
  }

  function RemoveSelfRoutes(req: Request): Result<Request, Error> {
    var foreign :- Foreign(req.edgePort, req.message.route);
    Ok(req.(message := req.message.(route := foreign)))
  }

  // ---------------------------------------------------------------- extension headers

  /** The lower-cased names a route asks to remove. */
  function NamesToRemove(headers: seq<HeaderModifier>): seq<string> {
    if headers == [] then []
    else (if headers[0].action == REMOVE then [ToLower(headers[0].name)] else []) + NamesToRemove(headers[1..])
  }

  function ExtensionsToAdd(headers: seq<HeaderModifier>): seq<Extension> {
    if headers == [] then []
    else
      (if headers[0].action == ADD then [Extension(headers[0].name, headers[0].value)] else [])
      + ExtensionsToAdd(headers[1..])
  }

  function Kept(extensions: seq<Extension>, names: seq<string>): seq<Extension> {
    if extensions == [] then []
    else if ToLower(extensions[0].name) in names then Kept(extensions[1..], names)
    else [extensions[0]] + Kept(extensions[1..], names)
  }

  function ApplyXHeaders(route: Route, req: Request): Request {
    if route.headers == [] then req
    else req.(message := req.message.(extensions :=
           Kept(req.message.extensions, NamesToRemove(route.headers)) + ExtensionsToAdd(route.headers)))
  }

  function AddXEdgePortRef(req: Request): Request {
    req.(message := req.message.(extensions := [Extension(EDGEPORT_REF, req.edgePort.ref)] + req.message.extensions))
  }

  /** The extensions whose lower-cased name is not `name`, compared as it stands. */
  function NotNamed(extensions: seq<Extension>, name: string): seq<Extension> {
    Kept(extensions, [name])
  }

  function RemoveXEdgePortRef(req: Request): Request {
    req.(message := req.message.(extensions := NotNamed(req.message.extensions, EDGEPORT_REF)))
  }

  /** The value of the first extension of that name in any letter case; an empty value reads as none. */
  function HeaderValue(extensions: seq<Extension>, name: string): Option<string> {
    if extensions == [] then None
    else if EqualsIgnoreCase(extensions[0].name, name) then
      if extensions[0].value == "" then None else Some(extensions[0].value)
    else HeaderValue(extensions[1..], name)
  }

  // ---------------------------------------------------------------- the other headers

  function RemoveAuthorization(req: Request): Request {
    req.(message := req.message.(authorization := None))
  }

  /** There is no lower bound: a request that arrives with zero leaves with minus one. */
  function DecreaseMaxForwards(req: Request): Request {
    match req.message.maxForwards
    case None => req
    case Some(n) => req.(message := req.message.(maxForwards := Some(n - 1)))
  }

  function FixInvalidContact(req: Request): Result<Request, Error> {
    if req.message.contact.None? || !Contains(req.message.contact.value.host, ".invalid") then Ok(req)
    else if req.message.via == [] then Err(TypeError)
    else
      var via := req.message.via[0];
      Ok(req.(message := req.message.(contact := Some(req.message.contact.value.(
           host := if via.received != "" then via.received else via.host,
           port := if via.rPort != Some(-1) then via.rPort else via.port,
           transportParam := ToUpper(via.transport))))))
  }

  function OverwriteContactWithSenderInfo(req: Request): Request {
    if req.message.contact.None? then req
    else req.(message := req.message.(contact := Some(req.message.contact.value.(
           host := req.sender.host, port := Some(req.sender.port), transportParam := req.sender.transport))))
  }

  // ---------------------------------------------------------------- pipelines

  /** The route a message names by itself; session count, registration time and expiry play no part in forwarding. */
  function RouteFromLastMessage(req: Request): Result<Route, Error> {
    var uri := req.message.requestUri;
    if req.message.via == [] then Err(TypeError)
    else Ok(Route(uri.user, uri.host, uri.port, req.message.via[0].host, req.message.via[0].port,
                  ToUpper(uri.transportParam), 0, 0, 0, req.edgePort.ref, req.edgePort.listeningPoints,
                  req.edgePort.localnets, req.edgePort.externalAddrs, None, []))
  }

  /** To an endpoint of this edge port (mods/connect/src/tailor.ts). */
  function Tailor(route: Route, req: Request, hasIp: Subnets): Result<Request, Error> {
    var r1 := RemoveAuthorization(DecreaseMaxForwards(req));
    var r2 :- RemoveSelfRoutes(r1);
    var r3 :- FixInvalidContact(RemoveXEdgePortRef(r2));
    var r4 :- AddSelfVia(route, FixRequestURI(route, r3), hasIp);
    var r5 :- AddSelfRecordRoute(route, ApplyXHeaders(route, r4), hasIp);
    Ok(AddRouteToNextHop(route, r5))
  }

  /** To the edge port an endpoint is registered at (mods/connect/src/handlers/request.ts). */
  function ToPeerEdgePort(route: Route, req: Request, hasIp: Subnets): Result<Request, Error> {
    var r1 :- AddSelfVia(route, req, hasIp);
    var r2 :- AddSelfRecordRoute(route, r1, hasIp);
    var r3 :- AddRouteToPeerEdgePort(route, r2, hasIp);
    Ok(DecreaseMaxForwards(AddXEdgePortRef(AddRouteToNextHop(route, r3))))
  }

  /** A REGISTER to a trunk (mods/connect/src/handlers/registry.ts). */
  function RegisterOut(req: Request, hasIp: Subnets): Result<Request, Error> {
    var route :- RouteFromLastMessage(req);
    var r1 :- AddSelfVia(route, req, hasIp);
    var r2 :- RemoveSelfRoutes(RemoveAuthorization(DecreaseMaxForwards(r1)));
    Ok(RemoveXEdgePortRef(r2))
  }

  /** BYE and ACK (mods/connect/src/service.ts). */
  function ByeOrAck(req: Request, hasIp: Subnets): Result<Request, Error> {
    var r1 :- AddSelfViaUsingExternalAddrs(DecreaseMaxForwards(req), hasIp);
    RemoveSelfRoutes(r1)
  }

  /**
   A request that is not answered by the proxy itself (mods/connect/src/handlers/request.ts). One marked by
   another edge port goes where its request URI says; else `found` is the router's route.
   */
  function ForwardRouted(found: Route, direction: string, req: Request, hasIp: Subnets): Result<Request, Error> {
    var route :- if HeaderValue(req.message.extensions, EDGEPORT_REF).Some? then RouteFromLastMessage(req)
                 else Ok(found.(headers := found.headers + [HeaderModifier(CALL_DIRECTION, direction, ADD)]));
    if req.edgePort.ref != route.edgePortRef then ToPeerEdgePort(route, req, hasIp) else Tailor(route, req, hasIp)
  }
}
