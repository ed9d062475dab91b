/**
 The choice between the local pipeline and the peer edge port, and what a request goes through when it is handed over
 (mods/connect/src/handlers/request.ts).
 */
module HandOver {
  import opened Wrappers
  import opened CommonTypes
  import opened Sip
  import opened EdgeInterface
  import opened Alterations
  import opened OwnRoutes
  import opened HopConservation
  import opened HeaderRewriting

  /** Handing over marks the request with the edge port's reference, which reads as no mark when it is empty. */
  lemma HandingOverMarks(route: Route, req: Request, hasIp: Subnets)
    requires ToPeerEdgePort(route, req, hasIp).Ok?
    ensures var after := ToPeerEdgePort(route, req, hasIp).value.message;
            && after.extensions == [Extension(EDGEPORT_REF, req.edgePort.ref)] + req.message.extensions
            && HeaderValue(after.extensions, EDGEPORT_REF) ==
               (if req.edgePort.ref == "" then None else Some(req.edgePort.ref))
            && after.via != []
  {
    hide InterfaceTowards, HeaderValue;
    var r1 := AddSelfVia(route, req, hasIp).value;
    var r2 := AddSelfRecordRoute(route, r1, hasIp).value;
    assert r2.message.extensions == req.message.extensions && r2.message.via == r1.message.via;
    FirstReads(Extension(EDGEPORT_REF, req.edgePort.ref), req.message.extensions);
  }

  lemma FirstReads(first: Extension, rest: seq<Extension>)
    ensures HeaderValue([first] + rest, first.name) == if first.value == "" then None else Some(first.value)
  {
  }

  /**
   A request that has been handed over is not handed over again: wherever it arrives, and whatever a router would
   have found for it there, it goes through the local pipeline to where its request URI says.
   */
  lemma HandedOverOnce(route: Route, req: Request, hasIp: Subnets, there: Request, found: Route, direction: string)
    requires ToPeerEdgePort(route, req, hasIp).Ok? && req.edgePort.ref != ""
    requires there.message == ToPeerEdgePort(route, req, hasIp).value.message
    ensures RouteFromLastMessage(there).Ok?
    ensures ForwardRouted(found, direction, there, hasIp) == Tailor(RouteFromLastMessage(there).value, there, hasIp)
  {
    hide ToPeerEdgePort, Tailor;
    HandingOverMarks(route, req, hasIp);
  }

  /**
   The route that the peer makes of the request leads to the endpoint if and only if the request was addressed to its
   host when it arrived: handing over does not change the request URI.
   */
  lemma PeerRouteLeadsToTheEndpointIff(route: Route, req: Request, hasIp: Subnets, there: Request)
    requires ToPeerEdgePort(route, req, hasIp).Ok?
    requires there.message == ToPeerEdgePort(route, req, hasIp).value.message
    ensures RouteFromLastMessage(there).Ok?
    ensures RouteFromLastMessage(there).value.host == route.host <==> req.message.requestUri.host == route.host
  {
    hide ToPeerEdgePort;
    HandingOverMarks(route, req, hasIp);
    HandedOverRoutes(route, req, hasIp);
  }

  /** Without a reference of the first edge port the mark does not read, and the request is routed all over again. */
  lemma UnnamedEdgePortIsNotRemembered(route: Route, req: Request, hasIp: Subnets, there: Request, found: Route,
                                       direction: string)
    requires ToPeerEdgePort(route, req, hasIp).Ok? && req.edgePort.ref == ""
    requires there.message == ToPeerEdgePort(route, req, hasIp).value.message
    requires found.edgePortRef != there.edgePort.ref
    ensures var marked := found.(headers := found.headers + [HeaderModifier(CALL_DIRECTION, direction, ADD)]);
            ForwardRouted(found, direction, there, hasIp) == ToPeerEdgePort(marked, there, hasIp)
  {
    hide ToPeerEdgePort, Tailor;
    HandingOverMarks(route, req, hasIp);
  }

  /** A request that arrives unmarked for an endpoint of another edge port, with a name of its own to mark it with. */
  predicate GoesThroughThePeer(found: Route, req: Request) {
    && HeaderValue(req.message.extensions, EDGEPORT_REF) == None
    && found.edgePortRef != req.edgePort.ref && req.edgePort.ref != ""
  }

  lemma FirstHop(found: Route, direction: string, req: Request, hasIp: Subnets)
    requires GoesThroughThePeer(found, req)
    ensures ForwardRouted(found, direction, req, hasIp) == ToPeerEdgePort(found, req, hasIp)
  {
    hide InterfaceTowards, AddRouteToNextHop, AddXEdgePortRef, DecreaseMaxForwards;
    var marked := found.(headers := found.headers + [HeaderModifier(CALL_DIRECTION, direction, ADD)]);
    assert ForwardRouted(found, direction, req, hasIp) == ToPeerEdgePort(marked, req, hasIp);
    HeadersPlayNoPart(found, marked.headers, req, hasIp);
  }

  /** The peer edge port pipeline reads nothing of the route's header modifiers. */
  lemma HeadersPlayNoPart(route: Route, headers: seq<HeaderModifier>, req: Request, hasIp: Subnets)
    ensures ToPeerEdgePort(route.(headers := headers), req, hasIp) == ToPeerEdgePort(route, req, hasIp)
  {
    hide InterfaceTowards, AddXEdgePortRef, DecreaseMaxForwards;
    var other := route.(headers := headers);
    assert EdgePortOf(other) == EdgePortOf(route);
    assert AddSelfVia(other, req, hasIp) == AddSelfVia(route, req, hasIp);
    if AddSelfVia(route, req, hasIp).Ok? {
      var r1 := AddSelfVia(route, req, hasIp).value;
      assert AddSelfRecordRoute(other, r1, hasIp) == AddSelfRecordRoute(route, r1, hasIp);
      if AddSelfRecordRoute(route, r1, hasIp).Ok? {
        var r2 := AddSelfRecordRoute(route, r1, hasIp).value;
        assert AddRouteToPeerEdgePort(other, r2, hasIp) == AddRouteToPeerEdgePort(route, r2, hasIp);
      }
    }
  }

  /**
   Both hops together. The request leaves the peer with two Vias and two forwards spent, with exactly the foreign
   part of the Route list it came with behind the foreign part of its next hop, and still addressed to the host it
   was addressed to. Neither the headers that the router asked for nor the direction of the call have been applied
   on the way, and the mark is still on it.
   */
  lemma ThroughThePeer(found: Route, direction: string, req: Request, hasIp: Subnets, there: Request, found2: Route,
                       direction2: string)
    requires GoesThroughThePeer(found, req) && ForwardRouted(found, direction, req, hasIp).Ok?
    requires there.edgePort == EdgePortOf(found)
    requires there.message == ForwardRouted(found, direction, req, hasIp).value.message
    requires ForwardRouted(found2, direction2, there, hasIp).Ok?
    ensures Foreign(there.edgePort, NextHop(found, req)).Ok? && Foreign(there.edgePort, req.message.route).Ok?
    ensures var left := ForwardRouted(found2, direction2, there, hasIp).value.message;
            && left.route
               == Foreign(there.edgePort, NextHop(found, req)).value + Foreign(there.edgePort, req.message.route).value
            && |left.via| == |req.message.via| + 2 && left.via[2..] == req.message.via
            && Forwards(left) == Forwards(req.message) - (if req.message.maxForwards.Some? then 2 else 0)
            && left.requestUri.host == req.message.requestUri.host
            && left.extensions == [Extension(EDGEPORT_REF, req.edgePort.ref)] + req.message.extensions
  {
    hide ForwardRouted, ToPeerEdgePort, Tailor, Foreign, InterfaceTowards;
    FirstHop(found, direction, req, hasIp);
    HandedOverOnce(found, req, hasIp, there, found2, direction2);
    var next := RouteFromLastMessage(there).value;
    ThroughThePeerEdgePort(found, req, hasIp, there, next);
    PeerIsOneHop(found, req, hasIp);
    LocalIsOneHop(next, there, hasIp);
    HandingOverMarks(found, req, hasIp);
    HandedOverRoutes(found, req, hasIp);
    TailorResult(next, there, hasIp);
    var left := ForwardRouted(found2, direction2, there, hasIp).value.message;
    assert left.via[2..] == left.via[1..][1..];
  }
}
