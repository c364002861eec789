/** The packets exchanged by a simulated session and the functional backend, and the
    session data that travels inside them. The backend keeps nothing between packets: the
    state of a session is the blob the client sends back with its next request. */
module SessionWire {
  import opened Common

  const SLICE_SECONDS: nat := 10
  const MAX_ROUTE_RELAYS: nat := 5
  const MAX_CLIENT_RELAYS: nat := 16
  const MAX_SERVER_RELAYS: nat := 8
  const DATA_VERSION_MIN: nat := 1
  const DATA_VERSION_MAX: nat := 8
  const DATA_VERSION_WRITE: nat := 8
  const EXPECTED_SESSION_EVENTS: nat := 0x123

  /** The fields of the session data that the functional backend reads or writes. */
  datatype SessionData = SessionData(
    version: nat,
    sessionId: nat,
    sessionVersion: nat,
    sliceNumber: nat,
    expireTimestamp: nat,
    routeNumRelays: nat,
    routeRelayIds: seq<nat>)

  /** Session data as bytes: the zeroed buffer a client starts with, or written data. */
  datatype Blob = Blank | Packed(data: SessionData)

  datatype RouteType = Direct | NewRoute | ContinueRoute

  /** Facts about the player's machine that the backend only checks. */
  datatype Report = Report(
    platformType: nat,
    connectionType: nat,
    sessionEvents: nat,
    jitterUp: real,
    jitterDown: real,
    numClientRelays: nat,
    numServerRelays: nat)

  datatype Request = Request(
    sessionId: nat,
    sliceNumber: nat,
    retryNumber: nat,
    clientAddress: nat,
    serverAddress: nat,
    next: bool,
    fallbackToDirect: bool,
    blob: Blob,
    signature: nat,
    report: Report)

  /** `tokenAddresses` has one entry per route token; `tokenExpire` and `tokenVersion` are
      what every one of those tokens carries. */
  datatype Response = Response(
    sessionId: nat,
    sliceNumber: nat,
    routeType: RouteType,
    tokenAddresses: seq<nat>,
    tokenExpire: nat,
    tokenVersion: nat,
    blob: Blob,
    signature: nat)

  /** Reading a blob: the zeroed buffer has version zero, which the reader refuses. */
  function ReadBlob(blob: Blob): Option<SessionData> {
    match blob
    case Blank => None
    case Packed(data) => if DATA_VERSION_MIN <= data.version <= DATA_VERSION_MAX then Some(data) else None
  }

  /** Writing session data: the session version has eight bits on the wire. A larger one is
      either refused by the serializer or loses its high bits; both are allowed here. */
  function WriteBlob(data: SessionData, refuseWideVersion: bool): Option<Blob> {
    if data.sessionVersion < 256 then Some(Packed(data))
    else if refuseWideVersion then None
    else Some(Packed(data.(sessionVersion := data.sessionVersion % 256)))
  }
}
