/**
 Entries the proxy inserts for itself come off again when they return to it, and no other entry does
 (sections 16.4 and 16.6 of RFC 3261, section 5 of RFC 5658).
 */
module OwnRoutes {
  import opened Wrappers
  import opened CommonTypes
  import opened Sip
  import opened Text
  import opened EdgeInterface
  import opened Alterations

  predicate AllSelf(edgePort: EdgePort, headers: seq<RouteHeader>) {
    forall i :: 0 <= i < |headers| ==> IsSelf(edgePort, headers[i]) == Ok(true)
  }

  // ---------------------------------------------------------------- what stripping does to a list

  /** Stripping raises exactly when some entry, own or not, has a transport the edge port does not listen on. */
  lemma {:induction false} StrippingSucceedsIff(edgePort: EdgePort, headers: seq<RouteHeader>)
    ensures Foreign(edgePort, headers).Ok? <==>
              forall i :: 0 <= i < |headers| ==>
                exists k :: 0 <= k < |edgePort.listeningPoints| &&
                  ToUpper(edgePort.listeningPoints[k].transport) == Wanted(headers[i].uri.transportParam)
  {
    if headers != [] {
      StrippingSucceedsIff(edgePort, headers[1..]);
      FirstForFound(edgePort.listeningPoints, Wanted(headers[0].uri.transportParam));
      assert forall i :: 1 <= i < |headers| ==> headers[i] == headers[1..][i - 1];
    }
  }

  function Wanted(transport: string): string {
    if transport == "" then UDP else ToUpper(transport)
  }

  /** Stripping works on every part of a list by itself, so what survives keeps its order. */
  lemma {:induction false} StrippingConcat(edgePort: EdgePort, a: seq<RouteHeader>, b: seq<RouteHeader>)
    ensures Foreign(edgePort, a + b).Ok? <==> Foreign(edgePort, a).Ok? && Foreign(edgePort, b).Ok?
    ensures Foreign(edgePort, a + b).Ok? ==>
              Foreign(edgePort, a + b).value == Foreign(edgePort, a).value + Foreign(edgePort, b).value
  {
    if a == [] {
      assert a + b == b;
    } else {
      StrippingConcat(edgePort, a[1..], b);
      assert (a + b)[0] == a[0] && (a + b)[1..] == a[1..] + b;
    }
  }

  /** An entry survives exactly when it was there and is not the edge port's own. */
  lemma {:induction false} SurvivorsAreForeign(edgePort: EdgePort, headers: seq<RouteHeader>)
    requires Foreign(edgePort, headers).Ok?
    ensures forall h :: h in Foreign(edgePort, headers).value <==> h in headers && IsSelf(edgePort, h) == Ok(false)
  {
    if headers != [] {
      SurvivorsAreForeign(edgePort, headers[1..]);
    }
  }

  lemma {:induction false} OwnEntriesVanish(edgePort: EdgePort, own: seq<RouteHeader>)
    requires AllSelf(edgePort, own)
    ensures Foreign(edgePort, own) == Ok([])
  {
    if own != [] {
      OwnEntriesVanish(edgePort, own[1..]);
    }
  }

  /** Own entries, wherever they stand, make no difference to what is left. */
  lemma OwnEntriesAreStripped(edgePort: EdgePort, pre: seq<RouteHeader>, own: seq<RouteHeader>, post: seq<RouteHeader>)
    requires AllSelf(edgePort, own)
    ensures Foreign(edgePort, pre + own + post) == Foreign(edgePort, pre + post)
  {
    OwnEntriesVanish(edgePort, own);
    StrippingConcat(edgePort, pre + own, post);
    StrippingConcat(edgePort, pre, own);
    StrippingConcat(edgePort, pre, post);
    if Foreign(edgePort, pre).Ok? && Foreign(edgePort, post).Ok? {
      assert Foreign(edgePort, pre).value + [] == Foreign(edgePort, pre).value;
    } else {
      StrippingFailure(edgePort, pre + own + post);
      StrippingFailure(edgePort, pre + post);
    }
  }

  lemma {:induction false} StrippingFailure(edgePort: EdgePort, headers: seq<RouteHeader>)
    ensures Foreign(edgePort, headers).Err? ==> Foreign(edgePort, headers) == Err(NoListeningPoint)
  {
    if headers != [] {
      StrippingFailure(edgePort, headers[1..]);
      ListeningPointFailure(edgePort.listeningPoints, Wanted(headers[0].uri.transportParam));
    }
  }

  lemma ListeningPointFailure(points: seq<NetInterface>, upper: string)
    ensures FirstFor(points, upper).Err? ==> FirstFor(points, upper).error == NoListeningPoint
  {}

  // ---------------------------------------------------------------- what the proxy inserts

  lemma OwnInterfaceIsSelf(edgePort: EdgePort, host: string, transport: string, hasIp: Subnets,
                           parameters: map<string, string>)
    requires InterfaceTowards(edgePort, host, transport, hasIp).Ok?
    ensures var intf := InterfaceTowards(edgePort, host, transport, hasIp).value;
            IsSelf(edgePort, HeaderFor(intf, parameters)) == Ok(true)
  {
    InterfaceIsOwn(edgePort, host, transport, hasIp);
  }

  /** The Record-Route entries put in front. */
  function Inserted(before: Request, after: Request): seq<RouteHeader>
    requires |before.message.recordRoute| <= |after.message.recordRoute|
  {
    after.message.recordRoute[..|after.message.recordRoute| - |before.message.recordRoute|]
  }

  /**
   Record-routing puts one entry in front, or two marked `r2=on` exactly when the sender and the target are
   faced by different interfaces. Each of them names the edge port.
   */
  lemma RecordRouteEntries(route: Route, req: Request, hasIp: Subnets)
    requires AddSelfRecordRoute(route, req, hasIp).Ok?
    ensures var after := AddSelfRecordRoute(route, req, hasIp).value;
            var origin := InterfaceTowards(req.edgePort, req.sender.host, req.sender.transport, hasIp).value;
            var target := InterfaceTowards(req.edgePort, route.advertisedHost, route.transport, hasIp).value;
            && |req.message.recordRoute| <= |after.message.recordRoute|
            && after == req.(message := req.message.(recordRoute := Inserted(req, after) + req.message.recordRoute))
            && AllSelf(req.edgePort, Inserted(req, after))
            && 1 <= |Inserted(req, after)| <= 2
            && (|Inserted(req, after)| == 2 <==> origin != target)
            && (forall i :: 0 <= i < |Inserted(req, after)| ==>
                  && (Inserted(req, after)[i].parameters == R2_ON <==> origin != target)
                  && Inserted(req, after)[i].uri.lrParam)
            && Inserted(req, after)[|Inserted(req, after)| - 1].uri == HeaderFor(origin, map[]).uri
            && Inserted(req, after)[0].uri == HeaderFor(target, map[]).uri
  {
    var after := AddSelfRecordRoute(route, req, hasIp).value;
    var origin := InterfaceTowards(req.edgePort, req.sender.host, req.sender.transport, hasIp).value;
    var target := InterfaceTowards(req.edgePort, route.advertisedHost, route.transport, hasIp).value;
    var own := SelfRecordRoutes(origin, target);
    assert after.message.recordRoute[..|own|] == own == Inserted(req, after);
    OwnInterfaceIsSelf(req.edgePort, req.sender.host, req.sender.transport, hasIp, own[|own| - 1].parameters);
    OwnInterfaceIsSelf(req.edgePort, route.advertisedHost, route.transport, hasIp, own[0].parameters);
    assert "r2" in R2_ON;
  }

  /** The same listening points, local networks and external addresses; the reference may differ. */
  predicate SameNets(a: EdgePort, b: EdgePort) {
    a.listeningPoints == b.listeningPoints && a.localnets == b.localnets && a.externalAddrs == b.externalAddrs
  }

  /** The entries that are not among `own`. */
  function NotAmong(headers: seq<RouteHeader>, own: seq<RouteHeader>): seq<RouteHeader> {
    if headers == [] then []
    else if headers[0] in own then NotAmong(headers[1..], own)
    else [headers[0]] + NotAmong(headers[1..], own)
  }

  /** Own entries, interspersed in any way, make no difference to what is left, or to whether stripping raises. */
  lemma {:induction false} OwnEntriesAnywhere(edgePort: EdgePort, headers: seq<RouteHeader>, own: seq<RouteHeader>)
    requires AllSelf(edgePort, own)
    ensures Foreign(edgePort, headers) == Foreign(edgePort, NotAmong(headers, own))
  {
    if headers != [] {
      OwnEntriesAnywhere(edgePort, headers[1..], own);
    }
  }

  /**
   A later request whose Route list holds recorded entries, in any order and anywhere among any others, is stripped
   of exactly them as if they had not been there when it reaches an edge port with the same configuration.
   */
  lemma RecordRouteRoundTrip(route: Route, req: Request, hasIp: Subnets, back: Request)
    requires AddSelfRecordRoute(route, req, hasIp).Ok?
    requires |req.message.recordRoute| <= |AddSelfRecordRoute(route, req, hasIp).value.message.recordRoute|
    requires SameNets(back.edgePort, req.edgePort)
    ensures var recorded := Inserted(req, AddSelfRecordRoute(route, req, hasIp).value);
            var without := back.(message := back.message.(route := NotAmong(back.message.route, recorded)));
            RemoveSelfRoutes(back) == RemoveSelfRoutes(without)
  {
    RecordRouteEntries(route, req, hasIp);
    var recorded := Inserted(req, AddSelfRecordRoute(route, req, hasIp).value);
    forall i | 0 <= i < |recorded| ensures IsSelf(back.edgePort, recorded[i]) == Ok(true) {
      assert IsSelf(back.edgePort, recorded[i]) == IsSelf(req.edgePort, recorded[i]);
    }
    OwnEntriesAnywhere(back.edgePort, back.message.route, recorded);
  }

  /** The Route entry for the peer edge port comes off at an edge port configured as the route says. */
  lemma PeerRouteRoundTrip(route: Route, req: Request, hasIp: Subnets, there: Request)
    requires AddRouteToPeerEdgePort(route, req, hasIp).Ok?
    requires SameNets(there.edgePort, EdgePortOf(route))
    requires there.message == AddRouteToPeerEdgePort(route, req, hasIp).value.message
    ensures RemoveSelfRoutes(there) == RemoveSelfRoutes(there.(message := req.message))
  {
    OwnInterfaceIsSelf(EdgePortOf(route), route.host, route.transport, hasIp, map[]);
    var own, post := [there.message.route[0]], req.message.route;
    assert there.message.route == [] + own + post && [] + post == post;
    assert IsSelf(there.edgePort, own[0]) == IsSelf(EdgePortOf(route), own[0]);
    OwnEntriesAreStripped(there.edgePort, [], own, post);
  }

  /** The Route list a request is handed over with: the next hop, unless already named, then the peer edge port. */
  lemma HandedOverRoutes(route: Route, req: Request, hasIp: Subnets)
    requires ToPeerEdgePort(route, req, hasIp).Ok?
    ensures InterfaceTowards(EdgePortOf(route), route.host, route.transport, hasIp).Ok?
    ensures ToPeerEdgePort(route, req, hasIp).value.message.route ==
            NextHop(route, req)
            + [HeaderFor(InterfaceTowards(EdgePortOf(route), route.host, route.transport, hasIp).value, map[])]
            + req.message.route
    ensures ToPeerEdgePort(route, req, hasIp).value.message.requestUri == req.message.requestUri
  {
    var r1 := AddSelfVia(route, req, hasIp).value;
    var r2 := AddSelfRecordRoute(route, r1, hasIp).value;
    assert r2.message.route == req.message.route && r2.message.requestUri == req.message.requestUri;
  }

  function NextHop(route: Route, req: Request): seq<RouteHeader> {
    if req.message.requestUri.host == route.host then []
    else [LooseRoute(route.host, route.port, route.transport, map[])]
  }

  /**
   A request handed to the peer edge port and tailored there leaves with the next hop in front of the entries
   that are foreign to the peer: the entry that brought it there is gone, and nothing else has been lost.
   The next hop is named only where the request URI does not name it already.
   */
  lemma ThroughThePeerEdgePort(route: Route, req: Request, hasIp: Subnets, there: Request, next: Route)
    requires ToPeerEdgePort(route, req, hasIp).Ok?
    requires there.edgePort == EdgePortOf(route) && there.message == ToPeerEdgePort(route, req, hasIp).value.message
    requires Tailor(next, there, hasIp).Ok?
    ensures Foreign(there.edgePort, NextHop(route, req)).Ok? && Foreign(there.edgePort, req.message.route).Ok?
    ensures Tailor(next, there, hasIp).value.message.route ==
            Foreign(there.edgePort, NextHop(route, req)).value + Foreign(there.edgePort, req.message.route).value
  {
    HandedOverRoutes(route, req, hasIp);
    OwnInterfaceIsSelf(EdgePortOf(route), route.host, route.transport, hasIp, map[]);
    var peer := [HeaderFor(InterfaceTowards(EdgePortOf(route), route.host, route.transport, hasIp).value, map[])];
    OwnEntriesAreStripped(there.edgePort, NextHop(route, req), peer, req.message.route);
    StrippingConcat(there.edgePort, NextHop(route, req), req.message.route);
    TailoredRoutes(next, there, hasIp);
  }

  /** The local pipeline leaves exactly the foreign entries: the request URI it writes names the next hop. */
  lemma TailoredRoutes(route: Route, req: Request, hasIp: Subnets)
    requires Tailor(route, req, hasIp).Ok?
    ensures Foreign(req.edgePort, req.message.route) == Ok(Tailor(route, req, hasIp).value.message.route)
  {
    var r2 := RemoveSelfRoutes(RemoveAuthorization(DecreaseMaxForwards(req))).value;
    var r3 := FixInvalidContact(RemoveXEdgePortRef(r2)).value;
    var r4 := AddSelfVia(route, FixRequestURI(route, r3), hasIp).value;
    assert r4.message.requestUri.host == route.host && r4.message.route == r2.message.route;
  }
}
