/** One simulated session. Two goroutines share its fields: the session loop and the packet
    receiver. Each function below is one section of code that holds the mutex; the class
    runs the same sections on mutable fields. */
module SessionClient {
  import opened SessionWire

  const MAX_ATTEMPTS: nat := 9

  /** Where the session loop is between two critical sections. `Wedged` is the loop after it
      returned from the closing section on a write error, with the mutex still locked. */
  datatype Phase = Waiting | Sending | Sleeping | Retrying | Closing | Wedged

  datatype Client = Client(
    sessionId: nat,
    sliceNumber: nat,
    retryNumber: nat,
    attempt: nat,
    receivedResponse: bool,
    next: bool,
    fallbackToDirect: bool,
    blob: Blob,
    signature: nat,
    phase: Phase)

  /** The parts of a session that never change: who it is and what machine it claims to be. */
  datatype Profile = Profile(
    sessionId: nat,
    clientAddress: nat,
    serverAddress: nat,
    platformType: nat,
    connectionType: nat)

  function NewClient(profile: Profile): Client {
    Client(profile.sessionId, 0, 0, 0, false, false, false, Blank, 0, Waiting)
  }

  /** The ticker fires: forget any response and enter the retry loop. */
  function Tick(c: Client): Client {
    c.(receivedResponse := false, attempt := 0, phase := Sending)
  }

  function Outgoing(profile: Profile, c: Client): Request {
    Request(c.sessionId, c.sliceNumber, c.retryNumber, profile.clientAddress, profile.serverAddress,
            c.next, c.fallbackToDirect,
            if c.sliceNumber != 0 then c.blob else Blank,
            if c.sliceNumber != 0 then c.signature else 0,
            Report(profile.platformType, profile.connectionType, 0, 0.0, 0.0,
                   if c.sliceNumber >= 1 && HasPings(profile) then MAX_CLIENT_RELAYS else 0,
                   if c.sliceNumber >= 1 && HasPings(profile) then MAX_SERVER_RELAYS else 0))
  }

  /** One session in ten reports relay pings; of the others the counts do not reach the wire. */
  predicate HasPings(profile: Profile) {
    profile.sessionId % 10 == 0
  }

  function Sent(c: Client): Client {
    c.(phase := Sleeping)
  }

  /** After the one second sleep: leave the retry loop, or go on to count the retry. */
  function Check(c: Client): Client {
    c.(phase := if c.receivedResponse || c.fallbackToDirect then Closing else Retrying)
  }

  function Retry(c: Client): Client {
    c.(retryNumber := c.retryNumber + 1,
       attempt := c.attempt + 1,
       phase := if c.attempt + 1 < MAX_ATTEMPTS then Sending else Closing)
  }

  /** Slices in which the closing section also writes two relay request packets. */
  predicate RequestsRelays(sliceNumber: nat) {
    sliceNumber == 1 || (sliceNumber > 0 && sliceNumber % 30 == 0)
  }

  /** The closing section. When one of the relay request packets cannot be written the loop
      returns in the middle: the fallback flag may be set but the slice has not advanced. */
  function Close(c: Client, writeFails: bool): Client {
    var fallback := c.fallbackToDirect || !c.receivedResponse;
    if writeFails && RequestsRelays(c.sliceNumber) then
      c.(fallbackToDirect := fallback, phase := Wedged)
    else
      c.(fallbackToDirect := fallback, sliceNumber := c.sliceNumber + 1, retryNumber := 0,
         receivedResponse := false, phase := Waiting)
  }

  /** The receiver's critical section. */
  function Receive(c: Client, r: Response): Client {
    if r.sessionId == c.sessionId && r.sliceNumber == c.sliceNumber then
      c.(blob := r.blob, signature := r.signature, next := !r.routeType.Direct?, receivedResponse := true)
    else c
  }

  class Session {
    const profile: Profile
    var sliceNumber: nat
    var retryNumber: nat
    var attempt: nat
    var receivedResponse: bool
    var next: bool
    var fallbackToDirect: bool
    var blob: Blob
    var signature: nat
    var phase: Phase

    function State(): Client
      reads this
    {
      Client(profile.sessionId, sliceNumber, retryNumber, attempt, receivedResponse, next, fallbackToDirect,
             blob, signature, phase)
    }

    constructor (profile: Profile)
      ensures this.profile == profile
      ensures State() == NewClient(profile)
    {
      this.profile := profile;
      sliceNumber, retryNumber, attempt := 0, 0, 0;
      receivedResponse, next, fallbackToDirect := false, false, false;
      blob, signature, phase := Blank, 0, Waiting;
    }

    method OnTick()
      requires phase.Waiting?
      modifies this
      ensures State() == Tick(old(State()))
    {
      receivedResponse := false;
      attempt := 0;
      phase := Sending;
    }

    method Send() returns (packet: Request)
      requires phase.Sending?
      modifies this
      ensures packet == Outgoing(profile, old(State()))
      ensures State() == Sent(old(State()))
    {
      var report := Report(profile.platformType, profile.connectionType, 0, 0.0, 0.0, 0, 0);
      packet := Request(profile.sessionId, sliceNumber, retryNumber, profile.clientAddress, profile.serverAddress,
                        next, fallbackToDirect, Blank, 0, report);
      if sliceNumber != 0 {
        packet := packet.(blob := blob, signature := signature);
      }
      if sliceNumber >= 1 && HasPings(profile) {
        packet := packet.(report := packet.report.(numClientRelays := MAX_CLIENT_RELAYS));
      }
      if sliceNumber >= 1 && HasPings(profile) {
        packet := packet.(report := packet.report.(numServerRelays := MAX_SERVER_RELAYS));
      }
      phase := Sleeping;
    }

    method AfterSleep()
      requires phase.Sleeping?
      modifies this
      ensures State() == Check(old(State()))
    {
      var done := receivedResponse;
      if done || fallbackToDirect {
        phase := Closing;
      } else {
        phase := Retrying;
      }
    }

    method CountRetry()
      requires phase.Retrying?
      modifies this
      ensures State() == Retry(old(State()))
    {
      retryNumber := retryNumber + 1;
      attempt := attempt + 1;
      phase := if attempt < MAX_ATTEMPTS then Sending else Closing;
    }

    method CloseSlice(writeFails: bool)
      requires phase.Closing?
      modifies this
      ensures State() == Close(old(State()), writeFails)
    {
      if !receivedResponse && !fallbackToDirect {
        fallbackToDirect := true;
      }
      if RequestsRelays(sliceNumber) && writeFails {
        phase := Wedged;
        return;
      }
      sliceNumber := sliceNumber + 1;
      retryNumber := 0;
      receivedResponse := false;
      phase := Waiting;
    }

    method OnPacket(packet: Response)
      requires !phase.Wedged?
      modifies this
      ensures State() == Receive(old(State()), packet)
    {
      if packet.sessionId == profile.sessionId && packet.sliceNumber == sliceNumber {
        blob := packet.blob;
        signature := packet.signature;
        next := !packet.routeType.Direct?;
        receivedResponse := true;
      }
    }
  }
}
