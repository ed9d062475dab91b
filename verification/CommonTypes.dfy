/** The records the services exchange (mods/common/src/types.ts). */
module CommonTypes {
  import opened Wrappers

  datatype NetInterface = NetInterface(host: string, port: int, transport: string)

  datatype HeaderModifierAction = ADD | REMOVE

  datatype HeaderModifier = HeaderModifier(name: string, value: string, action: HeaderModifierAction)

  /**
   A binding of an endpoint, or the target of a request. `registeredOn` is in milliseconds, `expires` in
   seconds; a missing transport is `""`.
   */
  datatype Route = Route(
    user: string,
    host: string,
    port: Option<int>,
    advertisedHost: string,
    advertisedPort: Option<int>,
    transport: string,
    registeredOn: int,
    sessionCount: int,
    expires: int,
    edgePortRef: string,
    listeningPoints: seq<NetInterface>,
    localnets: seq<string>,
    externalAddrs: seq<string>,
    labels: Option<seq<(string, string)>>,
    headers: seq<HeaderModifier>)
}
