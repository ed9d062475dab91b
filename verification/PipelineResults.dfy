/**
 What each pipeline makes of a whole message: which Route entries are left, what it records, where its Via points, and
 everything it leaves as it was (mods/connect/src/service.ts, mods/connect/src/handlers, mods/connect/src/tailor.ts).
 */
module PipelineResults {
  import opened Wrappers
  import opened CommonTypes
  import opened Sip
  import opened Text
  import opened EdgeInterface
  import opened Alterations
  import opened OwnRoutes
  import opened HopConservation
  import opened HeaderRewriting

  // ---------------------------------------------------------------- own entries

  predicate IsAddressOf(host: string, edgePort: EdgePort) {
    || (exists i :: 0 <= i < |edgePort.localnets| && IsBefore(host, edgePort.localnets[i], '/'))
    || host in edgePort.externalAddrs
  }

  /** The entry names an address of the edge port and the port of its listening point for the entry's transport. */
  ghost predicate OwnEntry(edgePort: EdgePort, h: RouteHeader) {
    && IsAddressOf(h.uri.host, edgePort)
    && exists k :: FirstListening(edgePort.listeningPoints, h.uri.transportParam, k)
                   && h.uri.port == Some(edgePort.listeningPoints[k].port)
  }

  lemma LocalAddresses(edgePort: EdgePort, host: string)
    ensures host in LocalIps(edgePort.localnets) || host in edgePort.externalAddrs <==> IsAddressOf(host, edgePort)
  {
    var nets := edgePort.localnets;
    assert |LocalIps(nets)| == |nets| && forall i :: 0 <= i < |nets| ==> LocalIps(nets)[i] == Before(nets[i], '/');
    forall i | 0 <= i < |nets| ensures IsBefore(host, nets[i], '/') <==> host == LocalIps(nets)[i] {
      BeforeIsUpToTheMark(nets[i], '/');
      if IsBefore(host, nets[i], '/') {
        OnePartBefore(host, LocalIps(nets)[i], nets[i], '/');
      }
    }
    if i :| 0 <= i < |nets| && IsBefore(host, nets[i], '/') {
      assert LocalIps(nets)[i] == host;
    }
  }

  lemma SelfIsOwn(edgePort: EdgePort, h: RouteHeader)
    requires IsSelf(edgePort, h).Ok?
    ensures IsSelf(edgePort, h).value <==> OwnEntry(edgePort, h)
  {
    hide IsAddressOf, FirstListening, ListeningPoint, ListensOn;
    LocalAddresses(edgePort, h.uri.host);
    var k := ListeningPointIsTheFirst(edgePort.listeningPoints, h.uri.transportParam);
    OneFirstPoint(edgePort.listeningPoints, h.uri.transportParam, k);
  }

  /** `kept` is `all` without the edge port's own entries, in order. */
  ghost predicate ForeignInOrder(edgePort: EdgePort, all: seq<RouteHeader>, kept: seq<RouteHeader>)
    decreases |all|
  {
    if all == [] then kept == []
    else if OwnEntry(edgePort, all[0]) then ForeignInOrder(edgePort, all[1..], kept)
    else kept != [] && kept[0] == all[0] && ForeignInOrder(edgePort, all[1..], kept[1..])
  }

  lemma {:induction false} StrippingLeavesTheForeign(edgePort: EdgePort, headers: seq<RouteHeader>)
    requires Foreign(edgePort, headers).Ok?
    ensures ForeignInOrder(edgePort, headers, Foreign(edgePort, headers).value)
  {
    hide IsSelf, OwnEntry;
    if headers != [] {
      SelfIsOwn(edgePort, headers[0]);
      StrippingLeavesTheForeign(edgePort, headers[1..]);
    }
  }

  lemma {:induction false} NoOwnIsLeft(edgePort: EdgePort, all: seq<RouteHeader>, kept: seq<RouteHeader>,
                                       h: RouteHeader)
    requires ForeignInOrder(edgePort, all, kept)
    ensures h in kept <==> h in all && !OwnEntry(edgePort, h)
    decreases |all|
  {
    hide OwnEntry;
    if all != [] {
      NoOwnIsLeft(edgePort, all[1..], if OwnEntry(edgePort, all[0]) then kept else kept[1..], h);
    }
  }

  /** Every entry that record-routing inserts is an own entry. */
  lemma RecordedAreOwn(route: Route, req: Request, hasIp: Subnets, h: RouteHeader)
    requires AddSelfRecordRoute(route, req, hasIp).Ok?
    requires |req.message.recordRoute| <= |AddSelfRecordRoute(route, req, hasIp).value.message.recordRoute|
    requires h in Inserted(req, AddSelfRecordRoute(route, req, hasIp).value)
    ensures OwnEntry(req.edgePort, h)
  {
    RecordRouteEntries(route, req, hasIp);
    hide AddSelfRecordRoute, OwnEntry;
    SelfIsOwn(req.edgePort, h);
  }

  // ---------------------------------------------------------------- Vias

  /** The Via on top is of the interface that faces an address. */
  ghost predicate ViaFaces(message: Message, edgePort: EdgePort, host: string, transport: string, hasIp: Subnets) {
    && message.via != []
    && message.via[0].port.Some?
    && Faces(edgePort, NetInterface(message.via[0].host, message.via[0].port.value, message.via[0].transport),
             host, transport, hasIp)
  }

  lemma SelfViaFaces(route: Route, req: Request, hasIp: Subnets)
    requires AddSelfVia(route, req, hasIp).Ok?
    ensures var after := AddSelfVia(route, req, hasIp).value;
            && after.message == req.message.(via := after.message.via)
            && ViaFaces(after.message,
                        if req.edgePort.ref == route.edgePortRef then EdgePortOf(route) else req.edgePort,
                        route.host, route.transport, hasIp)
  {
    hide Faces, InterfaceTowards;
    InterfaceFaces(if req.edgePort.ref == route.edgePortRef then EdgePortOf(route) else req.edgePort,
                   route.host, route.transport, hasIp);
  }

  // ---------------------------------------------------------------- BYE and ACK

  /**
   A BYE or ACK leaves with exactly the foreign part of its Route list, in order, one forward less and one Via more, of
   the interface that faces its request URI; nothing else of it has changed.
   */
  lemma ByeOrAckResult(req: Request, hasIp: Subnets)
    requires ByeOrAck(req, hasIp).Ok?
    ensures var before, after := req.message, ByeOrAck(req, hasIp).value.message;
            && after == before.(via := after.via, route := after.route, maxForwards := after.maxForwards)
            && ForeignInOrder(req.edgePort, before.route, after.route)
            && OneHop(before, after)
            && ViaFaces(after, req.edgePort, before.requestUri.host, before.requestUri.transportParam, hasIp)
  {
    hide Faces, InterfaceTowards, Foreign, ForeignInOrder;
    InterfaceFaces(req.edgePort, req.message.requestUri.host, req.message.requestUri.transportParam, hasIp);
    StrippingLeavesTheForeign(req.edgePort, req.message.route);
  }

  /** It raises if and only if no interface faces its request URI or a Route entry's transport is not listened on. */
  lemma ByeOrAckRaisesIff(req: Request, hasIp: Subnets)
    ensures var uri := req.message.requestUri;
            ByeOrAck(req, hasIp).Ok? <==>
              && InterfaceTowards(req.edgePort, uri.host, uri.transportParam, hasIp).Ok?
              && Foreign(req.edgePort, req.message.route).Ok?
  {
    hide InterfaceTowards, Foreign;
  }

  /** A BYE or ACK of a recorded dialog leaves without the entries that were recorded, wherever they stand. */
  lemma ByeLeavesWithoutTheRecorded(route: Route, req: Request, hasIp: Subnets, bye: Request, h: RouteHeader)
    requires AddSelfRecordRoute(route, req, hasIp).Ok? && SameNets(bye.edgePort, req.edgePort)
    requires |req.message.recordRoute| <= |AddSelfRecordRoute(route, req, hasIp).value.message.recordRoute|
    requires h in Inserted(req, AddSelfRecordRoute(route, req, hasIp).value) && ByeOrAck(bye, hasIp).Ok?
    ensures h !in ByeOrAck(bye, hasIp).value.message.route
  {
    hide ByeOrAck, AddSelfRecordRoute, ForeignInOrder;
    RecordedAreOwn(route, req, hasIp, h);
    OwnUnderSameNets(req.edgePort, bye.edgePort, h);
    ByeOrAckResult(bye, hasIp);
    NoOwnIsLeft(bye.edgePort, bye.message.route, ByeOrAck(bye, hasIp).value.message.route, h);
  }

  lemma OwnUnderSameNets(a: EdgePort, b: EdgePort, h: RouteHeader)
    requires SameNets(a, b)
    ensures OwnEntry(a, h) <==> OwnEntry(b, h)
  {
  }

  // ---------------------------------------------------------------- REGISTER to a trunk

  /**
   A REGISTER leaves with the foreign part of its Route list, without its Authorization, one forward less and one Via
   more, of the interface that faces its request URI; nothing else of it has changed.
   */
  lemma RegisterOutResult(req: Request, hasIp: Subnets)
    requires RegisterOut(req, hasIp).Ok?
    ensures var before, after := req.message, RegisterOut(req, hasIp).value.message;
            && after == before.(via := after.via, route := after.route, maxForwards := after.maxForwards,
                                authorization := None)
            && ForeignInOrder(req.edgePort, before.route, after.route)
            && OneHop(before, after)
            && ViaFaces(after, req.edgePort, before.requestUri.host, ToUpper(before.requestUri.transportParam), hasIp)
  {
    hide Faces, AddSelfVia, Foreign, ForeignInOrder, RemoveXEdgePortRef;
    var route := RouteFromLastMessage(req).value;
    SelfViaFaces(route, req, hasIp);
    assert EdgePortOf(route) == req.edgePort;
    SelfViaIsPushed(route, req, hasIp);
    var r1 := AddSelfVia(route, req, hasIp).value;
    assert r1.edgePort == req.edgePort && r1.message.route == req.message.route;
    var stripped := RemoveSelfRoutes(RemoveAuthorization(DecreaseMaxForwards(r1)));
    assert stripped.Ok? && Foreign(req.edgePort, req.message.route).Ok?;
    RemoveXEdgePortRefRemovesNothing(stripped.value);
    StrippingLeavesTheForeign(req.edgePort, req.message.route);
  }

  // ---------------------------------------------------------------- record-routing

  /** The entry is of the interface that faces an address. */
  ghost predicate EntryFaces(h: RouteHeader, edgePort: EdgePort, host: string, transport: string, hasIp: Subnets) {
    && h.uri.port.Some?
    && Faces(edgePort, NetInterface(h.uri.host, h.uri.port.value, h.uri.transportParam), host, transport, hasIp)
  }

  /** The first entry recorded is of the interface facing the target, the last of the one facing the sender. */
  lemma RecordedFace(route: Route, req: Request, hasIp: Subnets)
    requires AddSelfRecordRoute(route, req, hasIp).Ok?
    ensures var after := AddSelfRecordRoute(route, req, hasIp).value;
            && |req.message.recordRoute| < |after.message.recordRoute|
            && after.message == req.message.(recordRoute := Inserted(req, after) + req.message.recordRoute)
            && EntryFaces(Inserted(req, after)[0], req.edgePort, route.advertisedHost, route.transport, hasIp)
            && EntryFaces(Inserted(req, after)[|Inserted(req, after)| - 1], req.edgePort, req.sender.host,
                          req.sender.transport, hasIp)
  {
    hide Faces, InterfaceTowards;
    RecordRouteEntries(route, req, hasIp);
    InterfaceFaces(req.edgePort, req.sender.host, req.sender.transport, hasIp);
    InterfaceFaces(req.edgePort, route.advertisedHost, route.transport, hasIp);
  }

  /** What is recorded asks for loose routing, and two entries say so of each other. */
  lemma RecordedAreMarked(route: Route, req: Request, hasIp: Subnets, h: RouteHeader)
    requires AddSelfRecordRoute(route, req, hasIp).Ok?
    requires |req.message.recordRoute| <= |AddSelfRecordRoute(route, req, hasIp).value.message.recordRoute|
    requires h in Inserted(req, AddSelfRecordRoute(route, req, hasIp).value)
    ensures h.uri.lrParam && h.uri.user == ""
    ensures h.parameters ==
            if |Inserted(req, AddSelfRecordRoute(route, req, hasIp).value)| == 2 then map["r2" := "on"] else map[]
  {
    RecordRouteEntries(route, req, hasIp);
  }

  // ---------------------------------------------------------------- the local pipeline

  /** What the local pipeline does to everything that the other theorems about it do not mention. */
  lemma TailorLeavesTheRest(route: Route, req: Request, hasIp: Subnets)
    requires Tailor(route, req, hasIp).Ok?
    ensures var before, after := req.message, Tailor(route, req, hasIp).value.message;
            && after == before.(requestUri := after.requestUri, via := after.via, route := after.route,
                                recordRoute := after.recordRoute, maxForwards := after.maxForwards,
                                extensions := after.extensions, authorization := None, contact := after.contact)
            && FixInvalidContact(req).Ok? && after.contact == FixInvalidContact(req).value.message.contact
            && ForeignInOrder(req.edgePort, before.route, after.route)
            && ViaFaces(after, if req.edgePort.ref == route.edgePortRef then EdgePortOf(route) else req.edgePort,
                        route.host, route.transport, hasIp)
            && |before.recordRoute| < |after.recordRoute|
            && after.recordRoute[|after.recordRoute| - |before.recordRoute|..] == before.recordRoute
            && EntryFaces(after.recordRoute[0], req.edgePort, route.advertisedHost, route.transport, hasIp)
            && EntryFaces(after.recordRoute[|after.recordRoute| - |before.recordRoute| - 1], req.edgePort,
                          req.sender.host, req.sender.transport, hasIp)
  {
    hide Foreign, ForeignInOrder, EntryFaces, Faces, InterfaceTowards, AddSelfVia, AddSelfRecordRoute;
    TailoredRoutes(route, req, hasIp);
    StrippingLeavesTheForeign(req.edgePort, req.message.route);
    var r2 := RemoveSelfRoutes(RemoveAuthorization(DecreaseMaxForwards(req))).value;
    RemoveXEdgePortRefRemovesNothing(r2);
    assert FixInvalidContact(req).Ok? && FixInvalidContact(r2).Ok?;
    var r3 := FixInvalidContact(r2).value;
    var fixed := FixRequestURI(route, r3);
    SelfViaFaces(route, fixed, hasIp);
    var r4 := ApplyXHeaders(route, AddSelfVia(route, fixed, hasIp).value);
    RecordedFace(route, r4, hasIp);
    SelfViaIsPushed(route, fixed, hasIp);
  }

  /** A request for an endpoint of the same edge port leaves with the direction of the call as its last header. */
  lemma LocalCallStatesItsDirection(found: Route, direction: string, req: Request, hasIp: Subnets)
    requires HeaderValue(req.message.extensions, "X-Edgeport-Ref") == None && found.edgePortRef == req.edgePort.ref
    requires ForwardRouted(found, direction, req, hasIp).Ok?
    ensures var after := ForwardRouted(found, direction, req, hasIp).value.message;
            && after.requestUri.host == found.host
            && after.extensions != []
            && after.extensions[|after.extensions| - 1] == Extension("X-Call-Direction", direction)
  {
    hide Tailor, HeaderValue, Kept;
    var p := HeaderModifier("X-Call-Direction", direction, ADD);
    var route := found.(headers := found.headers + [p]);
    assert ForwardRouted(found, direction, req, hasIp) == Tailor(route, req, hasIp);
    TailorResult(route, req, hasIp);
    AddedOneByOne(found.headers, p);
  }

  // ---------------------------------------------------------------- towards the peer

  /** Handing over leaves everything alone but what the other theorems about it mention. */
  lemma HandingOverLeavesTheRest(route: Route, req: Request, hasIp: Subnets)
    requires ToPeerEdgePort(route, req, hasIp).Ok?
    ensures var before, after := req.message, ToPeerEdgePort(route, req, hasIp).value.message;
            && after == before.(via := after.via, route := after.route, recordRoute := after.recordRoute,
                                maxForwards := after.maxForwards, extensions := after.extensions)
            && ViaFaces(after, if req.edgePort.ref == route.edgePortRef then EdgePortOf(route) else req.edgePort,
                        route.host, route.transport, hasIp)
            && |before.recordRoute| < |after.recordRoute|
            && EntryFaces(after.recordRoute[0], req.edgePort, route.advertisedHost, route.transport, hasIp)
  {
    hide EntryFaces, Faces, InterfaceTowards, AddSelfVia, AddSelfRecordRoute;
    SelfViaFaces(route, req, hasIp);
    var r1 := AddSelfVia(route, req, hasIp).value;
    SelfViaIsPushed(route, req, hasIp);
    RecordedFace(route, r1, hasIp);
  }

  /** The entry for the peer edge port is of its interface that faces the endpoint. */
  lemma PeerEntryFaces(route: Route, req: Request, hasIp: Subnets)
    requires AddRouteToPeerEdgePort(route, req, hasIp).Ok?
    ensures var after := AddRouteToPeerEdgePort(route, req, hasIp).value.message;
            && after.route != [] && after == req.message.(route := [after.route[0]] + req.message.route)
            && EntryFaces(after.route[0], EdgePortOf(route), route.host, route.transport, hasIp)
            && after.route[0].uri.lrParam
  {
    hide Faces, InterfaceTowards;
    InterfaceFaces(EdgePortOf(route), route.host, route.transport, hasIp);
  }
}
