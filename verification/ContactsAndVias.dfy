/** What the alterations outside the pipelines' Vias and Route entries mean (mods/processor/src/alterations.ts). */
module ContactsAndVias {
  import opened Wrappers
  import opened CommonTypes
  import opened Sip
  import opened Text
  import opened EdgeInterface
  import opened Alterations
  import opened OwnRoutes
  import opened HopConservation

  // ---------------------------------------------------------------- a Via taken from the Route list

  /** The Route entry that `addSelfViaUsingTheRouteHeaders` takes its Via from. */
  function Egress(routes: seq<RouteHeader>): RouteHeader
    requires routes != []
  {
    if |routes| == 1 then routes[0] else routes[1]
  }

  /** The Via is one of the edge port's own if and only if that Route entry is: nothing else is checked. */
  lemma ViaIsOwnIffItsEntryIs(req: Request)
    requires req.message.route != []
    ensures AddsOwnVia(AddSelfViaUsingTheRouteHeaders(req).message, req.edgePort) <==>
              IsSelf(req.edgePort, Egress(req.message.route)) == Ok(true)
  {
    var via := AddSelfViaUsingTheRouteHeaders(req).message.via[0];
    var uri := Egress(req.message.route).uri;
    UpperTwice(uri.transportParam);
    assert ToUpper(UDP) == UDP && ToUpper("") == "";
    assert uri.transportParam != "" ==> |ToUpper(uri.transportParam)| > 0;
    assert ListeningPoint(req.edgePort.listeningPoints, via.transport) ==
           ListeningPoint(req.edgePort.listeningPoints, uri.transportParam);
  }

  lemma UpperTwice(s: string)
    ensures ToUpper(ToUpper(s)) == ToUpper(s)
  {
    assert forall i :: 0 <= i < |s| ==> UpperChar(UpperChar(s[i])) == UpperChar(s[i]);
  }

  /** The Via that names an interface. */
  function ViaFor(intf: NetInterface): Via {
    SelfVia(intf.host, Some(intf.port), if intf.transport == "" then UDP else ToUpper(intf.transport))
  }

  /**
   A request inside a dialog that was recorded with two entries leaves with the Via of the interface that faces the
   other side: from the called side, whose Route list starts with the entries as they were recorded, it is the one
   towards the caller; from the caller's side, whose list has them reversed, the one towards the called.
   */
  lemma DialogViaFacesTheOtherSide(route: Route, req: Request, hasIp: Subnets, later: Request, rest: seq<RouteHeader>)
    requires AddSelfRecordRoute(route, req, hasIp).Ok?
    requires |req.message.recordRoute| <= |AddSelfRecordRoute(route, req, hasIp).value.message.recordRoute|
    requires |Inserted(req, AddSelfRecordRoute(route, req, hasIp).value)| == 2
    ensures var recorded := Inserted(req, AddSelfRecordRoute(route, req, hasIp).value);
            var origin := InterfaceTowards(req.edgePort, req.sender.host, req.sender.transport, hasIp).value;
            var target := InterfaceTowards(req.edgePort, route.advertisedHost, route.transport, hasIp).value;
            && (later.message.route == recorded + rest ==>
                  AddSelfViaUsingTheRouteHeaders(later) == PushVia(later, ViaFor(origin)))
            && (later.message.route == [recorded[1], recorded[0]] + rest ==>
                  AddSelfViaUsingTheRouteHeaders(later) == PushVia(later, ViaFor(target)))
  {
    RecordRouteEntries(route, req, hasIp);
  }

  /** The same in capitals. */
  predicate InCapitals(upper: string, s: string) {
    SameText(upper, s) && forall i :: 0 <= i < |upper| ==> !('a' <= upper[i] <= 'z')
  }

  /**
   The Via is that of the only Route entry, or of the second when there are more, with its transport in capitals and UDP
   for none; a message without Route entries gets no Via. Nothing else of it changes.
   */
  lemma ViaOfTheRouteList(req: Request)
    ensures var before, after := req.message, AddSelfViaUsingTheRouteHeaders(req).message;
            && AddSelfViaUsingTheRouteHeaders(req) == req.(message := before.(via := after.via))
            && if before.route == [] then after.via == before.via
               else
                 && after.via != [] && after.via[1..] == before.via
                 && var uri := before.route[if |before.route| == 1 then 0 else 1].uri;
                    var via := after.via[0];
                    && via == Via(uri.host, uri.port, via.transport, "", None, true)
                    && if uri.transportParam == "" then via.transport == "UDP"
                       else InCapitals(via.transport, uri.transportParam)
  {
    var routes := req.message.route;
    if routes != [] {
      UpperHasNoSmallLetters(routes[if |routes| == 1 then 0 else 1].uri.transportParam);
    }
  }

  /**
   The route that a message names by itself: user, host and port of its request URI, that URI's transport in capitals,
   its top Via as the advertised address, and the edge port it is at, with no headers. It takes a Via.
   */
  lemma RouteNamedByTheMessage(req: Request)
    ensures RouteFromLastMessage(req).Ok? <==> req.message.via != []
    ensures RouteFromLastMessage(req).Ok? ==>
              var route, uri, via := RouteFromLastMessage(req).value, req.message.requestUri, req.message.via[0];
              && (route.user, route.host, route.port) == (uri.user, uri.host, uri.port)
              && InCapitals(route.transport, uri.transportParam)
              && (route.advertisedHost, route.advertisedPort) == (via.host, via.port)
              && req.edgePort
                 == EdgePort(route.edgePortRef, route.listeningPoints, route.localnets, route.externalAddrs)
              && route.headers == []
  {
    UpperHasNoSmallLetters(req.message.requestUri.transportParam);
  }

  // ---------------------------------------------------------------- contacts

  ghost predicate IsInvalid(contact: Option<SipUri>) {
    contact.Some? && StandsIn(".invalid", contact.value.host)
  }

  /** Where the last hop says the message came from. */
  function ShownAddress(via: Via): (string, Option<int>, string) {
    (if via.received != "" then via.received else via.host,
     if via.rPort != Some(-1) then via.rPort else via.port,
     ToUpper(via.transport))
  }

  /**
   Fixing raises if and only if the contact is invalid and there is no Via. Else no contact is left invalid unless
   the top Via itself shows an invalid host, a valid contact is kept, and fixing once is enough.
   */
  lemma FixedContact(req: Request)
    ensures FixInvalidContact(req).Err? <==> IsInvalid(req.message.contact) && req.message.via == []
    ensures FixInvalidContact(req).Ok? ==>
              var fixed := FixInvalidContact(req).value;
              && (!IsInvalid(req.message.contact) ==> fixed == req)
              && (IsInvalid(req.message.contact) ==>
                    var uri := fixed.message.contact.value;
                    (uri.host, uri.port, uri.transportParam) == ShownAddress(req.message.via[0]))
              && (IsInvalid(fixed.message.contact) <==>
                    IsInvalid(req.message.contact) && StandsIn(".invalid", ShownAddress(req.message.via[0]).0))
              && FixInvalidContact(fixed) == Ok(fixed)
  {
    hide Contains, StandsIn;
    if req.message.contact.Some? {
      ContainsIffStandsIn(req.message.contact.value.host, ".invalid");
      if req.message.via != [] {
        ContainsIffStandsIn(ShownAddress(req.message.via[0]).0, ".invalid");
      }
    }
  }

  /** The contact of a message that has one becomes host, port and transport of its sender; nothing else changes. */
  lemma OverwrittenContact(req: Request)
    ensures var before, after := req.message, OverwriteContactWithSenderInfo(req).message;
            && OverwriteContactWithSenderInfo(req) == req.(message := before.(contact := after.contact))
            && (after.contact.None? <==> before.contact.None?)
            && (before.contact.Some? ==>
                  var uri := after.contact.value;
                  && (uri.host, uri.port, uri.transportParam)
                     == (req.sender.host, Some(req.sender.port), req.sender.transport)
                  && (uri.user, uri.lrParam) == (before.contact.value.user, before.contact.value.lrParam))
  {
  }

  /** Overwriting the contact with the sender makes any fix before it pointless, and needs doing only once. */
  lemma OverwritingAbsorbsFixing(req: Request)
    requires FixInvalidContact(req).Ok?
    ensures OverwriteContactWithSenderInfo(FixInvalidContact(req).value) == OverwriteContactWithSenderInfo(req)
    ensures OverwriteContactWithSenderInfo(OverwriteContactWithSenderInfo(req)) == OverwriteContactWithSenderInfo(req)
  {
    hide Contains;
  }
}
