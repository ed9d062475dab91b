/** The SIP messages the proxy rewrites, as values (mods/common/src/types.ts). */
module Sip {
  import opened Wrappers
  import opened CommonTypes

  /** An absent transport parameter is `""`. */
  datatype SipUri = SipUri(user: string, host: string, port: Option<int>, transportParam: string, lrParam: bool)

  /** `received` is `""` when absent. */
  datatype Via = Via(host: string, port: Option<int>, transport: string, received: string, rPort: Option<int>,
                     rPortFlag: bool)

  /** An entry of a Route or Record-Route header. */
  datatype RouteHeader = RouteHeader(uri: SipUri, parameters: map<string, string>)

  datatype Extension = Extension(name: string, value: string)

  datatype Message = Message(
    requestUri: SipUri,
    via: seq<Via>,
    route: seq<RouteHeader>,
    recordRoute: seq<RouteHeader>,
    maxForwards: Option<int>,
    extensions: seq<Extension>,
    authorization: Option<string>,
    contact: Option<SipUri>,
    body: string)

  /** What an edge port tells about itself with every message it hands over. */
  datatype EdgePort = EdgePort(
    ref: string,
    listeningPoints: seq<NetInterface>,
    localnets: seq<string>,
    externalAddrs: seq<string>)

  datatype Request = Request(ref: string, sipMethod: string, edgePort: EdgePort, sender: NetInterface, message: Message)

  const UDP := "UDP"
  const EDGEPORT_REF := "X-Edgeport-Ref"
  const CALL_DIRECTION := "X-Call-Direction"

  datatype Error = NoListeningPoint | NoInterface | HostMismatch | TypeError
}
