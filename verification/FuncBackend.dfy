/** The functional backend's answer to one session update request. */
module FuncBackend {
  import opened Common
  import opened SessionWire

  datatype Mode =
    | Default | ForceDirect | Random | OnOff | OnOnOff | RouteSwitching | ServerEvents | ForceRetry
    | Bandwidth | Jitter | DirectStats | NextStats | ClientRelayStats | ServerRelayStats | ZeroMagic

  datatype Relay = Relay(id: nat, address: nat)

  /** What the backend learns from outside while it handles one request: the clock, the active
      relays (already shuffled in route switching mode), a coin, and what the serializer does
      with a session version that does not fit its eight bits. */
  datatype Surroundings = Surroundings(now: nat, relays: seq<Relay>, coin: bool, refuseWideVersion: bool)

  datatype Outcome = Ignores | Panics | Replies(response: Response)

  /** The session data before a route is chosen: fresh for slice zero, otherwise the client's
      own blob moved on by one slice. */
  function Advance(request: Request, now: nat): Option<SessionData> {
    if request.sliceNumber == 0 then
      Some(SessionData(DATA_VERSION_WRITE, request.sessionId, 0, 1, now + SLICE_SECONDS, 0, ZeroIds()))
    else
      match ReadBlob(request.blob)
      case None => None
      case Some(data) =>
        Some(data.(sliceNumber := request.sliceNumber + 1,
                   expireTimestamp := data.expireTimestamp + SLICE_SECONDS))
  }

  function ZeroIds(): seq<nat> {
    [0, 0, 0, 0, 0]
  }

  predicate TakesNext(mode: Mode, request: Request, around: Surroundings) {
    && |around.relays| > 0
    && (mode.ForceDirect? ==> false)
    && (mode.Random? ==> around.coin)
    && (mode.OnOff? ==> request.sliceNumber % 2 != 0)
    && (mode.OnOnOff? ==> request.sliceNumber / 2 % 2 != 0)
  }

  function RouteLength(relays: seq<Relay>): nat {
    if |relays| < MAX_ROUTE_RELAYS then |relays| else MAX_ROUTE_RELAYS
  }

  /** Relay ids of the route in a fixed array of five, zero where the route is shorter. */
  function RouteIds(relays: seq<Relay>): seq<nat> {
    seq(MAX_ROUTE_RELAYS, i requires 0 <= i => if i < |relays| then relays[i].id else 0)
  }

  function TokenAddresses(request: Request, relays: seq<Relay>): seq<nat> {
    [request.clientAddress]
    + seq(RouteLength(relays), i requires 0 <= i < RouteLength(relays) => relays[i].address)
    + [request.serverAddress]
  }

  predicate SameRoute(data: SessionData, relays: seq<Relay>) {
    RouteLength(relays) == data.routeNumRelays && RouteIds(relays) == data.routeRelayIds
  }

  /** The request fields that make the process panic before the session data is looked at. */
  predicate PanicsEarly(mode: Mode, report: Report) {
    || (mode.Jitter? && (report.jitterUp > 100.0 || report.jitterDown > 100.0))
    || (mode.ClientRelayStats? && report.numClientRelays >= MAX_CLIENT_RELAYS)
    || (mode.ServerRelayStats? && report.numServerRelays >= MAX_SERVER_RELAYS)
  }

  function Answer(request: Request, routeType: RouteType, addresses: seq<nat>, data: SessionData,
      refuse: bool): Outcome {
    match WriteBlob(data, refuse)
    case None => Ignores
    case Some(blob) =>
      Replies(Response(request.sessionId, request.sliceNumber, routeType, addresses,
                       if routeType.Direct? then 0 else data.expireTimestamp,
                       if routeType.Direct? then 0 else data.sessionVersion % 256,
                       blob, 0))
  }

  function Routed(request: Request, data: SessionData, around: Surroundings): Outcome {
    if SameRoute(data, around.relays) then
      Answer(request, ContinueRoute, TokenAddresses(request, around.relays), data, around.refuseWideVersion)
    else
      Answer(request, NewRoute, TokenAddresses(request, around.relays),
             data.(expireTimestamp := data.expireTimestamp + SLICE_SECONDS, sessionVersion := data.sessionVersion + 1),
             around.refuseWideVersion)
  }

  function Handle(mode: Mode, request: Request, around: Surroundings): Outcome {
    if mode.ForceRetry? && request.retryNumber < 4 then Ignores
    else if request.report.platformType == 0 || request.report.connectionType == 0 then Panics
    else if request.fallbackToDirect then Ignores
    else if PanicsEarly(mode, request.report) then Panics
    else
      match Advance(request, around.now)
      case None => Ignores
      case Some(data) =>
        if && mode.ServerEvents?
           && request.sliceNumber >= 2
           && request.report.sessionEvents != EXPECTED_SESSION_EVENTS then
          Panics
        else if !TakesNext(mode, request, around) then
          Answer(request, Direct, [], data, around.refuseWideVersion)
        else Routed(request, data, around)
  }

  // ----- what an answer says -----

  lemma TokenAddressesAre(q: Request, relays: seq<Relay>)
    ensures var t, n := TokenAddresses(q, relays), if |relays| < 5 then |relays| else 5;
      && |t| == n + 2 && t[0] == q.clientAddress && t[n + 1] == q.serverAddress
      && forall k :: 0 <= k < n ==> t[1 + k] == relays[k].address
  {
  }

  /** The tokens of a route go to the client, the first five relays in order, and the server; they carry
      the expire time and session version of the data. A direct answer has none. */
  lemma RouteTokens(mode: Mode, q: Request, around: Surroundings)
    requires Handle(mode, q, around).Replies?
    ensures var r := Handle(mode, q, around).response;
      var t, n := r.tokenAddresses, if |around.relays| < 5 then |around.relays| else 5;
      if r.routeType.Direct? then t == [] && r.tokenExpire == 0 && r.tokenVersion == 0
      else
        && n > 0 && |t| == n + 2
        && t[0] == q.clientAddress && t[n + 1] == q.serverAddress
        && (forall k :: 0 <= k < n ==> t[1 + k] == around.relays[k].address)
        && r.blob.Packed? && r.tokenExpire == r.blob.data.expireTimestamp
        && r.tokenVersion == r.blob.data.sessionVersion
  {
    TokenAddressesAre(q, around.relays);
    var r := Handle(mode, q, around).response;
    assert r.routeType.Direct? || r.tokenAddresses == TokenAddresses(q, around.relays);
  }

  /** Direct: without relays, always, on a coin, in every other slice, or in two slices out of four. */
  predicate GoesDirect(mode: Mode, slice: nat, around: Surroundings) {
    || around.relays == []
    || mode == ForceDirect
    || (mode == Random && !around.coin)
    || (mode == OnOff && slice % 2 == 0)
    || (mode == OnOnOff && slice % 4 < 2)
  }

  /** In which slices each mode answers direct. */
  lemma DirectExactly(mode: Mode, q: Request, around: Surroundings)
    requires Handle(mode, q, around).Replies?
    ensures Handle(mode, q, around).response.routeType.Direct? <==> GoesDirect(mode, q.sliceNumber, around)
  {
    DirectIsNotNext(mode, q, around);
  }

  lemma DirectIsNotNext(mode: Mode, q: Request, around: Surroundings)
    ensures GoesDirect(mode, q.sliceNumber, around) <==> !TakesNext(mode, q, around)
  {
    assert q.sliceNumber / 2 % 2 == 0 <==> q.sliceNumber % 4 < 2;
  }

  /** The data names the first five relays in order, and zero where there are fewer. */
  predicate NamesRelays(data: SessionData, relays: seq<Relay>) {
    var n := if |relays| < 5 then |relays| else 5;
    && data.routeNumRelays == n
    && |data.routeRelayIds| == 5
    && (forall k :: 0 <= k < 5 ==> data.routeRelayIds[k] == if k < n then relays[k].id else 0)
  }

  /** A route is continued exactly if the request's data names its relays. */
  lemma ContinuesExactly(mode: Mode, q: Request, around: Surroundings)
    requires Handle(mode, q, around).Replies? && !Handle(mode, q, around).response.routeType.Direct?
    ensures Handle(mode, q, around).response.routeType.ContinueRoute? <==>
      q.sliceNumber > 0 && q.blob.Packed? && NamesRelays(q.blob.data, around.relays)
  {
    if q.sliceNumber > 0 {
      SameRouteExactly(q.blob.data, around.relays);
    }
  }

  lemma SameRouteExactly(data: SessionData, relays: seq<Relay>)
    ensures SameRoute(data, relays) <==> NamesRelays(data, relays)
  {
    var ids, n := RouteIds(relays), if |relays| < 5 then |relays| else 5;
    assert |ids| == 5 && forall k :: 0 <= k < 5 ==> ids[k] == if k < n then relays[k].id else 0;
    if |data.routeRelayIds| == 5 && forall k :: 0 <= k < 5 ==> data.routeRelayIds[k] == ids[k] {
      assert data.routeRelayIds == ids;
    }
  }

  /** The data in an answer: made for slice zero, otherwise the request's own moved on by one slice; ten
      seconds more, ten again and a new session version with a new route, and no route stored. */
  lemma AnsweredData(mode: Mode, q: Request, around: Surroundings)
    requires Handle(mode, q, around).Replies?
    ensures var r := Handle(mode, q, around).response;
      var renewed := if r.routeType.NewRoute? then 1 else 0;
      && r.blob.Packed? && r.signature == 0
      && r.sessionId == q.sessionId && r.sliceNumber == q.sliceNumber
      && (q.sliceNumber == 0 ==>
            r.blob.data == SessionData(8, q.sessionId, renewed, 1, around.now + 10 + 10 * renewed, 0, [0, 0, 0, 0, 0]))
      && (q.sliceNumber > 0 ==>
            && q.blob.Packed? && 1 <= q.blob.data.version <= 8
            && r.blob.data == q.blob.data.(
                 sliceNumber := q.sliceNumber + 1,
                 expireTimestamp := q.blob.data.expireTimestamp + 10 + 10 * renewed,
                 sessionVersion := if q.blob.data.sessionVersion + renewed < 256
                                   then q.blob.data.sessionVersion + renewed
                                   else (q.blob.data.sessionVersion + renewed) % 256))
  {
  }

  /** When a request stops the process, and when it is dropped without an answer. */
  lemma UnansweredExactly(mode: Mode, q: Request, around: Surroundings)
    ensures var report := q.report;
      var held := mode == ForceRetry && q.retryNumber < 4;
      var unset := report.platformType == 0 || report.connectionType == 0;
      var readable := q.sliceNumber == 0 || (q.blob.Packed? && 1 <= q.blob.data.version <= 8);
      var stops :=
        || (mode == Jitter && (report.jitterUp > 100.0 || report.jitterDown > 100.0))
        || (mode == ClientRelayStats && report.numClientRelays >= 16)
        || (mode == ServerRelayStats && report.numServerRelays >= 8)
        || (mode == ServerEvents && readable && q.sliceNumber >= 2 && report.sessionEvents != 0x123);
      var tooWide := readable && q.sliceNumber > 0 && around.refuseWideVersion
        && (|| q.blob.data.sessionVersion >= 256
            || (&& q.blob.data.sessionVersion == 255
                && !GoesDirect(mode, q.sliceNumber, around) && !NamesRelays(q.blob.data, around.relays)));
      && (Handle(mode, q, around).Panics? <==> !held && (unset || (!q.fallbackToDirect && stops)))
      && (Handle(mode, q, around).Ignores? <==>
            held || (!unset && (q.fallbackToDirect || (!stops && (!readable || tooWide)))))
  {
    DirectIsNotNext(mode, q, around);
    if q.sliceNumber > 0 && q.blob.Packed? {
      SameRouteExactly(q.blob.data, around.relays);
    }
  }

  method CollectRouteIds(relays: seq<Relay>) returns (ids: seq<nat>)
    ensures ids == RouteIds(relays)
  {
    var routeRelayIds := new nat[MAX_ROUTE_RELAYS](_ => 0);
    for i := 0 to RouteLength(relays)
      invariant forall k :: 0 <= k < i ==> routeRelayIds[k] == relays[k].id
      invariant forall k :: i <= k < MAX_ROUTE_RELAYS ==> routeRelayIds[k] == 0
    {
      routeRelayIds[i] := relays[i].id;
    }
    ids := routeRelayIds[..];
  }

  method CollectTokenAddresses(request: Request, relays: seq<Relay>) returns (addresses: seq<nat>)
    ensures addresses == TokenAddresses(request, relays)
  {
    var numRouteRelays := RouteLength(relays);
    var tokenAddresses := new nat[numRouteRelays + 2](_ => 0);
    tokenAddresses[0] := request.clientAddress;
    tokenAddresses[numRouteRelays + 1] := request.serverAddress;
    for i := 0 to numRouteRelays
      invariant tokenAddresses[0] == request.clientAddress
      invariant tokenAddresses[numRouteRelays + 1] == request.serverAddress
      invariant forall k :: 0 <= k < i ==> tokenAddresses[1 + k] == relays[k].address
    {
      tokenAddresses[1 + i] := relays[i].address;
    }
    addresses := tokenAddresses[..];
  }

  /** Whether the mode lets this slice take a route. */
  method DecideRoute(mode: Mode, request: Request, around: Surroundings) returns (takeNetworkNext: bool)
    ensures takeNetworkNext == TakesNext(mode, request, around)
  {
    takeNetworkNext := |around.relays| > 0;
    if mode.ForceDirect? {
      takeNetworkNext := false;
    }
    if mode.Random? {
      takeNetworkNext := takeNetworkNext && around.coin;
    }
    if mode.OnOff? && request.sliceNumber % 2 == 0 {
      takeNetworkNext := false;
    }
    if mode.OnOnOff? && request.sliceNumber / 2 % 2 == 0 {
      takeNetworkNext := false;
    }
  }

  /** The session data before a route is chosen. */
  method ReadSessionData(request: Request, now: nat) returns (session: Option<SessionData>)
    ensures session == Advance(request, now)
  {
    if request.sliceNumber == 0 {
      var data := SessionData(DATA_VERSION_WRITE, request.sessionId, 0, request.sliceNumber + 1,
                              now + SLICE_SECONDS, 0, ZeroIds());
      return Some(data);
    }
    var read := ReadBlob(request.blob);
    if read.None? {
      return None;
    }
    var data := read.value;
    data := data.(sliceNumber := request.sliceNumber + 1);
    data := data.(expireTimestamp := data.expireTimestamp + SLICE_SECONDS);
    return Some(data);
  }

  /** A response with a route: the same as before, or a new one that renews the session. */
  method BuildRoute(request: Request, session: SessionData, around: Surroundings) returns (outcome: Outcome)
    ensures outcome == Routed(request, session, around)
  {
    var data := session;
    var routeRelayIds := CollectRouteIds(around.relays);
    var sameRoute := RouteLength(around.relays) == data.routeNumRelays && routeRelayIds == data.routeRelayIds;
    var addresses := CollectTokenAddresses(request, around.relays);
    var routeType := ContinueRoute;
    if !sameRoute {
      data := data.(expireTimestamp := data.expireTimestamp + SLICE_SECONDS);
      data := data.(sessionVersion := data.sessionVersion + 1);
      routeType := NewRoute;
    }
    outcome := Answer(request, routeType, addresses, data, around.refuseWideVersion);
  }

  /** The handler as the backend runs it: one mutable session data, arrays filled by loops. */
  method ProcessSessionUpdate(mode: Mode, request: Request, around: Surroundings) returns (outcome: Outcome)
    ensures outcome == Handle(mode, request, around)
  {
    if mode.ForceRetry? && request.retryNumber < 4 {
      return Ignores;
    }
    if request.report.platformType == 0 {
      return Panics;
    }
    if request.report.connectionType == 0 {
      return Panics;
    }
    if request.fallbackToDirect {
      return Ignores;
    }
    if PanicsEarly(mode, request.report) {
      return Panics;
    }
    var session := ReadSessionData(request, around.now);
    if session.None? {
      return Ignores;
    }
    var takeNetworkNext := DecideRoute(mode, request, around);
    if mode.ServerEvents? && request.sliceNumber >= 2 && request.report.sessionEvents != EXPECTED_SESSION_EVENTS {
      return Panics;
    }
    if takeNetworkNext {
      outcome := BuildRoute(request, session.value, around);
    } else {
      outcome := Answer(request, Direct, [], session.value, around.refuseWideVersion);
    }
  }
}
