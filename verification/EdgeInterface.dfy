/**
 Which interface of an edge port faces an address (mods/processor/src/helper.ts, mods/common/src/helper.ts,
 mods/common/src/ip_utils.ts). Whether a network contains an address is the parameter `hasIp`.
 */
module EdgeInterface {
  import opened Wrappers
  import opened CommonTypes
  import opened Sip
  import opened Text

  type Subnets = (string, string) -> bool

  /** The first listening point for the transport, in whatever letter case; UDP when none is asked for. */
  function ListeningPoint(points: seq<NetInterface>, transport: string): Result<NetInterface, Error> {
    FirstFor(points, if transport == "" then UDP else ToUpper(transport))
  }

  function FirstFor(points: seq<NetInterface>, upper: string): Result<NetInterface, Error> {
    if points == [] then Err(NoListeningPoint)
    else if ToUpper(points[0].transport) == upper then Ok(points[0])
    else FirstFor(points[1..], upper)
  }

  /** The address part of the first local network that contains `addr`. */
  function LocalnetIp(nets: seq<string>, addr: string, hasIp: Subnets): Option<string> {
    if nets == [] then None
    else if hasIp(nets[0], addr) then Some(Before(nets[0], '/'))
    else LocalnetIp(nets[1..], addr, hasIp)
  }

  /** The address parts of all local networks. */
  function LocalIps(nets: seq<string>): seq<string> {
    seq(|nets|, i requires 0 <= i < |nets| => Before(nets[i], '/'))
  }

  function InterfaceTowards(edgePort: EdgePort, host: string, transport: string, hasIp: Subnets)
    : Result<NetInterface, Error>
  {
    var localnetIp := LocalnetIp(edgePort.localnets, host, hasIp);
    var lp :- ListeningPoint(edgePort.listeningPoints, transport);
    var isLocal := localnetIp.Some? && localnetIp.value != "";
    if !isLocal && edgePort.externalAddrs == [] then Err(NoInterface)
    else
      var ownHost := if localnetIp.Some? then localnetIp.value else edgePort.externalAddrs[0];
      if isLocal && lp.host != "0.0.0.0" && lp.host != ownHost then Err(HostMismatch)
      else Ok(NetInterface(ownHost, lp.port, lp.transport))
  }

  /** The interface chosen carries an address and a listening point of the edge port itself. */
  lemma InterfaceIsOwn(edgePort: EdgePort, host: string, transport: string, hasIp: Subnets)
    requires InterfaceTowards(edgePort, host, transport, hasIp).Ok?
    ensures var intf := InterfaceTowards(edgePort, host, transport, hasIp).value;
            && (intf.host in LocalIps(edgePort.localnets) || intf.host in edgePort.externalAddrs)
            && ListeningPoint(edgePort.listeningPoints, intf.transport).Ok?
            && ListeningPoint(edgePort.listeningPoints, intf.transport).value.port == intf.port
  {
    LocalnetIpIsOwn(edgePort.localnets, host, hasIp);
    FirstForFound(edgePort.listeningPoints, if transport == "" then UDP else ToUpper(transport));
    assert ToUpper("") == "";
  }

  lemma {:induction false} LocalnetIpIsOwn(nets: seq<string>, addr: string, hasIp: Subnets)
    ensures LocalnetIp(nets, addr, hasIp).Some? ==> LocalnetIp(nets, addr, hasIp).value in LocalIps(nets)
  {
    if nets != [] {
      LocalnetIpIsOwn(nets[1..], addr, hasIp);
      assert LocalIps(nets) == [Before(nets[0], '/')] + LocalIps(nets[1..]);
    }
  }

  lemma {:induction false} FirstForFound(points: seq<NetInterface>, upper: string)
    ensures FirstFor(points, upper).Ok? ==> ToUpper(FirstFor(points, upper).value.transport) == upper
    ensures FirstFor(points, upper).Ok? <==> exists i :: 0 <= i < |points| && ToUpper(points[i].transport) == upper
  {
    if points != [] {
      FirstForFound(points[1..], upper);
      assert forall i :: 1 <= i < |points| ==> points[i] == points[1..][i - 1];
    }
  }

  // ---------------------------------------------------------------- which interface it is

  /** The i-th local network is the first that contains the address. */
  predicate FirstContaining(nets: seq<string>, addr: string, hasIp: Subnets, i: int) {
    0 <= i < |nets| && hasIp(nets[i], addr) && forall j :: 0 <= j < i ==> !hasIp(nets[j], addr)
  }

  /** The k-th listening point is the first for the transport in any letter case, or for UDP when none is asked for. */
  predicate FirstListening(points: seq<NetInterface>, transport: string, k: int) {
    && 0 <= k < |points| && ListensOn(points[k], transport)
    && forall j :: 0 <= j < k ==> !ListensOn(points[j], transport)
  }

  predicate ListensOn(point: NetInterface, transport: string) {
    SameText(point.transport, if transport == "" then "UDP" else transport)
  }

  /**
   The interface of the edge port that faces an address: its host is the address part of the first local network that
   contains the address, or the first external address when none does; port and transport are those of the first
   listening point for the transport.
   */
  ghost predicate Faces(edgePort: EdgePort, intf: NetInterface, host: string, transport: string, hasIp: Subnets) {
    && (exists k :: FirstListening(edgePort.listeningPoints, transport, k)
                    && (intf.port, intf.transport)
                       == (edgePort.listeningPoints[k].port, edgePort.listeningPoints[k].transport))
    && if exists i :: FirstContaining(edgePort.localnets, host, hasIp, i)
       then exists i :: FirstContaining(edgePort.localnets, host, hasIp, i)
                        && IsBefore(intf.host, edgePort.localnets[i], '/')
       else edgePort.externalAddrs != [] && intf.host == edgePort.externalAddrs[0]
  }

  lemma {:induction false} FindsTheFirstNetwork(nets: seq<string>, addr: string, hasIp: Subnets) returns (i: int)
    ensures match LocalnetIp(nets, addr, hasIp)
            case None => forall j :: 0 <= j < |nets| ==> !hasIp(nets[j], addr)
            case Some(part) => FirstContaining(nets, addr, hasIp, i) && IsBefore(part, nets[i], '/')
  {
    i := 0;
    if nets != [] {
      if hasIp(nets[0], addr) {
        BeforeIsUpToTheMark(nets[0], '/');
      } else {
        var j := FindsTheFirstNetwork(nets[1..], addr, hasIp);
        i := j + 1;
        assert forall k :: 1 <= k < |nets| ==> nets[k] == nets[1..][k - 1];
      }
    }
  }

  lemma {:induction false} FindsTheFirstPoint(points: seq<NetInterface>, transport: string, upper: string)
    returns (k: int)
    requires forall point: NetInterface :: ToUpper(point.transport) == upper <==> ListensOn(point, transport)
    ensures match FirstFor(points, upper)
            case Err(e) => e == NoListeningPoint && forall j :: 0 <= j < |points| ==> !ListensOn(points[j], transport)
            case Ok(point) => FirstListening(points, transport, k) && point == points[k]
  {
    hide ListensOn, ToUpper;
    k := 0;
    if points != [] && ToUpper(points[0].transport) != upper {
      var j := FindsTheFirstPoint(points[1..], transport, upper);
      k := j + 1;
      assert forall i :: 1 <= i < |points| ==> points[i] == points[1..][i - 1];
    }
  }

  lemma ListeningPointIsTheFirst(points: seq<NetInterface>, transport: string) returns (k: int)
    ensures match ListeningPoint(points, transport)
            case Err(e) => e == NoListeningPoint && forall j :: 0 <= j < |points| ==> !ListensOn(points[j], transport)
            case Ok(point) => FirstListening(points, transport, k) && point == points[k]
  {
    var upper := if transport == "" then UDP else ToUpper(transport);
    assert ToUpper("UDP") == "UDP";
    forall point: NetInterface ensures ToUpper(point.transport) == upper <==> ListensOn(point, transport) {
      ComparesLetterByLetter(point.transport, if transport == "" then "UDP" else transport);
    }
    k := FindsTheFirstPoint(points, transport, upper);
  }

  /** The interface that is found faces the address. */
  lemma InterfaceFaces(edgePort: EdgePort, host: string, transport: string, hasIp: Subnets)
    requires InterfaceTowards(edgePort, host, transport, hasIp).Ok?
    ensures Faces(edgePort, InterfaceTowards(edgePort, host, transport, hasIp).value, host, transport, hasIp)
  {
    hide FirstListening, FirstContaining, IsBefore;
    var i := FindsTheFirstNetwork(edgePort.localnets, host, hasIp);
    var k := ListeningPointIsTheFirst(edgePort.listeningPoints, transport);
    if LocalnetIp(edgePort.localnets, host, hasIp).None? {
      NoneContains(edgePort.localnets, host, hasIp);
    }
  }

  lemma NoneContains(nets: seq<string>, addr: string, hasIp: Subnets)
    requires forall j :: 0 <= j < |nets| ==> !hasIp(nets[j], addr)
    ensures forall i :: !FirstContaining(nets, addr, hasIp, i)
  {
  }

  /** An edge port has one interface that faces an address. */
  lemma OneInterfaceFaces(edgePort: EdgePort, a: NetInterface, b: NetInterface, host: string, transport: string,
                          hasIp: Subnets)
    requires Faces(edgePort, a, host, transport, hasIp) && Faces(edgePort, b, host, transport, hasIp)
    ensures a == b
  {
    var nets := edgePort.localnets;
    var k :| FirstListening(edgePort.listeningPoints, transport, k)
             && (a.port, a.transport) == (edgePort.listeningPoints[k].port, edgePort.listeningPoints[k].transport);
    var l :| FirstListening(edgePort.listeningPoints, transport, l)
             && (b.port, b.transport) == (edgePort.listeningPoints[l].port, edgePort.listeningPoints[l].transport);
    assert k == l;
    if exists i :: FirstContaining(nets, host, hasIp, i) {
      var i :| FirstContaining(nets, host, hasIp, i) && IsBefore(a.host, nets[i], '/');
      var j :| FirstContaining(nets, host, hasIp, j) && IsBefore(b.host, nets[j], '/');
      assert i == j;
      OnePartBefore(a.host, b.host, nets[i], '/');
    }
  }

  /**
   Finding it raises if and only if there is no listening point for the transport; or no local network with an address
   part contains the address and there is no external address; or the listening point is bound to another address
   than the address part of that network.
   */
  lemma FindingRaisesIff(edgePort: EdgePort, host: string, transport: string, hasIp: Subnets)
    ensures InterfaceTowards(edgePort, host, transport, hasIp).Err? <==>
              || (forall k :: 0 <= k < |edgePort.listeningPoints| ==>
                    !ListensOn(edgePort.listeningPoints[k], transport))
              || (edgePort.externalAddrs == [] && !InsideWithAddress(edgePort.localnets, host, hasIp))
              || BoundElsewhere(edgePort, host, transport, hasIp)
  {
    hide FirstListening, FirstContaining, IsBefore, ListensOn;
    var nets := edgePort.localnets;
    var i := FindsTheFirstNetwork(nets, host, hasIp);
    var k := ListeningPointIsTheFirst(edgePort.listeningPoints, transport);
    if LocalnetIp(nets, host, hasIp).None? {
      NoneContains(nets, host, hasIp);
    } else {
      OneFirstNetwork(nets, host, hasIp, i, LocalnetIp(nets, host, hasIp).value);
    }
    if ListeningPoint(edgePort.listeningPoints, transport).Ok? {
      OneFirstPoint(edgePort.listeningPoints, transport, k);
    }
  }

  /** The first local network that contains the address has a non-empty address part. */
  ghost predicate InsideWithAddress(nets: seq<string>, addr: string, hasIp: Subnets) {
    exists i, part :: FirstContaining(nets, addr, hasIp, i) && IsBefore(part, nets[i], '/') && part != ""
  }

  /** The listening point has an address, and it is not that of the network that contains the target. */
  ghost predicate BoundElsewhere(edgePort: EdgePort, host: string, transport: string, hasIp: Subnets) {
    exists i, k, part ::
      && FirstContaining(edgePort.localnets, host, hasIp, i) && IsBefore(part, edgePort.localnets[i], '/') && part != ""
      && FirstListening(edgePort.listeningPoints, transport, k)
      && edgePort.listeningPoints[k].host != "0.0.0.0" && edgePort.listeningPoints[k].host != part
  }

  lemma OneFirstNetwork(nets: seq<string>, addr: string, hasIp: Subnets, i: int, part: string)
    requires FirstContaining(nets, addr, hasIp, i) && IsBefore(part, nets[i], '/')
    ensures forall j :: FirstContaining(nets, addr, hasIp, j) ==> j == i
    ensures forall other :: IsBefore(other, nets[i], '/') ==> other == part
  {
    forall other | IsBefore(other, nets[i], '/') ensures other == part {
      OnePartBefore(other, part, nets[i], '/');
    }
  }

  lemma OneFirstPoint(points: seq<NetInterface>, transport: string, k: int)
    requires FirstListening(points, transport, k)
    ensures forall j :: FirstListening(points, transport, j) ==> j == k
    ensures 0 <= k < |points| && ListensOn(points[k], transport)
  {
  }
}
