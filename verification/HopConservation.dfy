/** What every way of forwarding a request keeps, over chains of any length (sections 16.6 and 16.7 of RFC 3261). */
module HopConservation {
  import opened Wrappers
  import opened CommonTypes
  import opened Sip
  import opened EdgeInterface
  import opened Alterations

  /** The ways a request leaves an edge port. */
  datatype Pipeline = Local(route: Route) | Peer(route: Route) | Register | InDialog

  function Run(p: Pipeline, req: Request, hasIp: Subnets): Result<Request, Error> {
    match p
    case Local(route) => Tailor(route, req, hasIp)
    case Peer(route) => ToPeerEdgePort(route, req, hasIp)
    case Register => RegisterOut(req, hasIp)
    case InDialog => ByeOrAck(req, hasIp)
  }

  /** One Via more, on top of the unchanged others, and one forward less where the message counts them. */
  predicate OneHop(before: Message, after: Message) {
    && |after.via| == |before.via| + 1
    && after.via[1..] == before.via
    && after.maxForwards == if before.maxForwards.Some? then Some(before.maxForwards.value - 1) else None
  }

  /** The Via a hop adds names an interface of an edge port, asks for `rport` and is otherwise empty. */
  predicate AddsOwnVia(after: Message, edgePort: EdgePort) {
    && after.via != []
    && var v := after.via[0];
       && (v.host in LocalIps(edgePort.localnets) || v.host in edgePort.externalAddrs)
       && ListeningPoint(edgePort.listeningPoints, v.transport).Ok?
       && v.port == Some(ListeningPoint(edgePort.listeningPoints, v.transport).value.port)
       && v.rPortFlag
  }

  /** The edge port whose address goes into the Via. */
  function SigningEdgePort(p: Pipeline, req: Request): EdgePort {
    if p.Local? && req.edgePort.ref == p.route.edgePortRef then EdgePortOf(p.route)
    else if p.Peer? && req.edgePort.ref == p.route.edgePortRef then EdgePortOf(p.route)
    else req.edgePort
  }

  /** The only alteration of each pipeline that touches the Vias. */
  lemma SelfViaIsPushed(route: Route, req: Request, hasIp: Subnets)
    requires AddSelfVia(route, req, hasIp).Ok?
    ensures var after := AddSelfVia(route, req, hasIp).value;
            && after.message.via != []
            && after == PushVia(req, after.message.via[0])
            && AddsOwnVia(after.message,
                          if req.edgePort.ref == route.edgePortRef then EdgePortOf(route) else req.edgePort)
  {
    var edgePort := if req.edgePort.ref == route.edgePortRef then EdgePortOf(route) else req.edgePort;
    InterfaceIsOwn(edgePort, route.host, route.transport, hasIp);
  }

  /** Same Vias, same count of forwards, same edge port. */
  predicate SameHop(a: Request, b: Request) {
    a.message.via == b.message.via && a.message.maxForwards == b.message.maxForwards && a.edgePort == b.edgePort
  }

  lemma RecordingIsNoHop(route: Route, req: Request, hasIp: Subnets)
    requires AddSelfRecordRoute(route, req, hasIp).Ok?
    ensures SameHop(req, AddSelfRecordRoute(route, req, hasIp).value)
  {}

  lemma PeerRouteIsNoHop(route: Route, req: Request, hasIp: Subnets)
    requires AddRouteToPeerEdgePort(route, req, hasIp).Ok?
    ensures SameHop(req, AddRouteToPeerEdgePort(route, req, hasIp).value)
  {}

  lemma LocalIsOneHop(route: Route, req: Request, hasIp: Subnets)
    requires Tailor(route, req, hasIp).Ok?
    ensures OneHop(req.message, Tailor(route, req, hasIp).value.message)
    ensures AddsOwnVia(Tailor(route, req, hasIp).value.message, SigningEdgePort(Local(route), req))
    ensures Tailor(route, req, hasIp).value.edgePort == req.edgePort
  {
    hide InterfaceTowards, AddSelfVia, AddSelfRecordRoute;
    var decreased := DecreaseMaxForwards(req);
    var r2 := RemoveSelfRoutes(RemoveAuthorization(decreased)).value;
    var r3 := FixInvalidContact(RemoveXEdgePortRef(r2)).value;
    assert SameHop(decreased, FixRequestURI(route, r3));
    SelfViaIsPushed(route, FixRequestURI(route, r3), hasIp);
    var r4 := AddSelfVia(route, FixRequestURI(route, r3), hasIp).value;
    RecordingIsNoHop(route, ApplyXHeaders(route, r4), hasIp);
  }

  lemma PeerIsOneHop(route: Route, req: Request, hasIp: Subnets)
    requires ToPeerEdgePort(route, req, hasIp).Ok?
    ensures OneHop(req.message, ToPeerEdgePort(route, req, hasIp).value.message)
    ensures AddsOwnVia(ToPeerEdgePort(route, req, hasIp).value.message, SigningEdgePort(Peer(route), req))
    ensures ToPeerEdgePort(route, req, hasIp).value.edgePort == req.edgePort
  {
    hide InterfaceTowards, AddSelfVia, AddSelfRecordRoute, AddRouteToPeerEdgePort;
    SelfViaIsPushed(route, req, hasIp);
    var r1 := AddSelfVia(route, req, hasIp).value;
    RecordingIsNoHop(route, r1, hasIp);
    var r2 := AddSelfRecordRoute(route, r1, hasIp).value;
    PeerRouteIsNoHop(route, r2, hasIp);
  }

  lemma RegisterIsOneHop(req: Request, hasIp: Subnets)
    requires RegisterOut(req, hasIp).Ok?
    ensures OneHop(req.message, RegisterOut(req, hasIp).value.message)
    ensures AddsOwnVia(RegisterOut(req, hasIp).value.message, SigningEdgePort(Register, req))
    ensures RegisterOut(req, hasIp).value.edgePort == req.edgePort
  {
    hide InterfaceTowards, AddSelfVia;
    SelfViaIsPushed(RouteFromLastMessage(req).value, req, hasIp);
  }

  lemma InDialogIsOneHop(req: Request, hasIp: Subnets)
    requires ByeOrAck(req, hasIp).Ok?
    ensures OneHop(req.message, ByeOrAck(req, hasIp).value.message)
    ensures AddsOwnVia(ByeOrAck(req, hasIp).value.message, SigningEdgePort(InDialog, req))
    ensures ByeOrAck(req, hasIp).value.edgePort == req.edgePort
  {
    InterfaceIsOwn(req.edgePort, req.message.requestUri.host, req.message.requestUri.transportParam, hasIp);
  }

  lemma EveryPipelineIsOneHop(p: Pipeline, req: Request, hasIp: Subnets)
    requires Run(p, req, hasIp).Ok?
    ensures OneHop(req.message, Run(p, req, hasIp).value.message)
    ensures AddsOwnVia(Run(p, req, hasIp).value.message, SigningEdgePort(p, req))
    ensures Run(p, req, hasIp).value.edgePort == req.edgePort
  {
    hide OneHop, AddsOwnVia, SigningEdgePort, Tailor, ToPeerEdgePort, RegisterOut, ByeOrAck;
    match p
    case Local(route) => LocalIsOneHop(route, req, hasIp);
    case Peer(route) => PeerIsOneHop(route, req, hasIp);
    case Register => RegisterIsOneHop(req, hasIp);
    case InDialog => InDialogIsOneHop(req, hasIp);
  }

  // ---------------------------------------------------------------- chains

  /** A hop: the edge port that receives the message, from whom, and how it forwards it. */
  datatype Hop = Hop(at: EdgePort, sender: NetInterface, pipeline: Pipeline)

  function Travel(req: Request, hops: seq<Hop>, hasIp: Subnets): Result<Request, Error>
    decreases |hops|
  {
    if hops == [] then Ok(req)
    else
      var arrived := req.(edgePort := hops[0].at, sender := hops[0].sender);
      var left :- Run(hops[0].pipeline, arrived, hasIp);
      Travel(left, hops[1..], hasIp)
  }

  /** Passing back through `n` hops: each one takes the top Via off. */
  function Return(response: Request, n: nat): Request
    decreases n
  {
    if n == 0 then response else Return(RemoveTopVia(response), n - 1)
  }

  function Forwards(m: Message): int {
    if m.maxForwards.Some? then m.maxForwards.value else 0
  }

  lemma {:induction false} TravelAddsOneViaPerHop(req: Request, hops: seq<Hop>, hasIp: Subnets)
    requires Travel(req, hops, hasIp).Ok?
    ensures var after := Travel(req, hops, hasIp).value.message;
            && |after.via| == |req.message.via| + |hops|
            && after.via[|hops|..] == req.message.via
            && after.maxForwards
               == if req.message.maxForwards.Some? then Some(req.message.maxForwards.value - |hops|) else None
    decreases |hops|
  {
    hide Run;
    if hops != [] {
      var arrived := req.(edgePort := hops[0].at, sender := hops[0].sender);
      var left := Run(hops[0].pipeline, arrived, hasIp).value;
      EveryPipelineIsOneHop(hops[0].pipeline, arrived, hasIp);
      TravelAddsOneViaPerHop(left, hops[1..], hasIp);
      var after := Travel(req, hops, hasIp).value.message;
      assert after.via[|hops|..] == after.via[|hops| - 1..][1..];
    }
  }

  /** Along any chain the number of Vias and the forwards left add up to the same. */
  lemma ViasAndForwardsAreConserved(req: Request, hops: seq<Hop>, hasIp: Subnets)
    requires Travel(req, hops, hasIp).Ok? && req.message.maxForwards.Some?
    ensures var after := Travel(req, hops, hasIp).value.message;
            && after.maxForwards.Some?
            && |after.via| + Forwards(after) == |req.message.via| + Forwards(req.message)
  {
    TravelAddsOneViaPerHop(req, hops, hasIp);
  }

  lemma {:induction false} ReturnPops(response: Request, n: nat)
    requires n <= |response.message.via|
    ensures Return(response, n).message == response.message.(via := response.message.via[n..])
    decreases n
  {
    if n > 0 {
      ReturnPops(RemoveTopVia(response), n - 1);
      assert response.message.via[1..][n - 1..] == response.message.via[n..];
    }
  }

  /** A response to a request that travelled some hops is back with the caller's own Via list after as many. */
  lemma ReturnRestoresTheCallersVias(req: Request, hops: seq<Hop>, hasIp: Subnets, response: Request)
    requires Travel(req, hops, hasIp).Ok?
    requires response.message.via == Travel(req, hops, hasIp).value.message.via
    ensures Return(response, |hops|).message == response.message.(via := req.message.via)
  {
    hide Run;
    TravelAddsOneViaPerHop(req, hops, hasIp);
    ReturnPops(response, |hops|);
  }
}
