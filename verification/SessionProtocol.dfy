/** The session client and the functional backend over a network that loses, duplicates and
    reorders packets. Packets are never taken out of the network: a lost packet is one that
    is never delivered, a duplicated one is delivered again. */
module SessionProtocol {
  import opened Common
  import opened SessionWire
  import opened SessionClient
  import opened FuncBackend

  datatype Config = Config(mode: Mode, profile: Profile)

  /** `sent` is every request of this session in the order it was sent; `foreign` are requests
      of other sessions. `openedAt` is the time the backend first answered slice zero. */
  datatype World = World(
    client: Client,
    sent: seq<Request>,
    foreign: set<Request>,
    replies: set<Response>,
    now: nat,
    openedAt: Option<nat>,
    backendUp: bool)

  datatype Step =
    | TickStep
    | SendStep
    | CheckStep
    | RetryStep
    | CloseStep(writeFails: bool)
    | DeliverStep(response: Response)
    | ServeStep(request: Request, around: Surroundings)
    | ForeignStep(request: Request)
    | ClockStep(time: nat)

  function Start(config: Config, now: nat): World {
    World(NewClient(config.profile), [], {}, {}, now, None, true)
  }

  /** A receiver that finds the mutex locked for good never adopts anything again. */
  predicate Enabled(config: Config, w: World, step: Step) {
    match step
    case TickStep => w.client.phase.Waiting?
    case SendStep => w.client.phase.Sending?
    case CheckStep => w.client.phase.Sleeping?
    case RetryStep => w.client.phase.Retrying?
    case CloseStep(_) => w.client.phase.Closing?
    case DeliverStep(r) => r in w.replies && !w.client.phase.Wedged?
    case ServeStep(q, around) => w.backendUp && (q in w.sent || q in w.foreign) && around.now == w.now
    case ForeignStep(q) => q.sessionId != config.profile.sessionId
    case ClockStep(t) => w.now <= t
  }

  function Serve(config: Config, w: World, q: Request, around: Surroundings): World {
    match Handle(config.mode, q, around)
    case Ignores => w
    case Panics => w.(backendUp := false)
    case Replies(r) =>
      w.(replies := w.replies + {r},
         openedAt := if w.openedAt.None? && q.sessionId == config.profile.sessionId && q.sliceNumber == 0
                     then Some(w.now)
                     else w.openedAt)
  }

  function Next(config: Config, w: World, step: Step): World {
    match step
    case TickStep => w.(client := Tick(w.client))
    case SendStep => w.(client := Sent(w.client), sent := w.sent + [Outgoing(config.profile, w.client)])
    case CheckStep => w.(client := Check(w.client))
    case RetryStep => w.(client := Retry(w.client))
    case CloseStep(fails) => w.(client := Close(w.client, fails))
    case DeliverStep(r) => w.(client := Receive(w.client, r))
    case ServeStep(q, around) => Serve(config, w, q, around)
    case ForeignStep(q) => w.(foreign := w.foreign + {q})
    case ClockStep(t) => w.(now := t)
  }

  /** `steps` leads through `worlds` from a fresh session. */
  ghost predicate IsRun(config: Config, worlds: seq<World>, steps: seq<Step>) {
    && |worlds| == |steps| + 1
    && worlds[0] == Start(config, worlds[0].now)
    && forall i :: 0 <= i < |steps| ==>
         Enabled(config, worlds[i], steps[i]) && worlds[i + 1] == Next(config, worlds[i], steps[i])
  }

  // ----- invariants -----

  /** The loop counters agree with the place in the loop, and fallback leaves no response held. */
  ghost predicate CountersOk(c: Client) {
    && (c.phase.Waiting? ==> c.retryNumber == 0 && !c.receivedResponse)
    && (!c.phase.Waiting? ==> c.attempt == c.retryNumber)
    && (c.phase.Sending? || c.phase.Sleeping? || c.phase.Retrying? ==> c.attempt < MAX_ATTEMPTS)
    && (c.phase.Retrying? ==> !c.fallbackToDirect)
    && (c.phase.Closing? ==> c.attempt <= MAX_ATTEMPTS)
    && (c.phase.Closing? && !c.receivedResponse && !c.fallbackToDirect ==> c.attempt == MAX_ATTEMPTS)
    && (c.fallbackToDirect ==> !c.receivedResponse)
    && (c.fallbackToDirect && !c.phase.Wedged? ==> c.retryNumber == 0)
  }

  /** A blob that holds this session's data for the given slice. */
  ghost predicate HoldsSlice(blob: Blob, sessionId: nat, sliceNumber: nat) {
    && blob.Packed?
    && ReadBlob(blob) == Some(blob.data)
    && blob.data.sessionId == sessionId
    && blob.data.sliceNumber == sliceNumber
  }

  /** What the client holds while it has not fallen back: data one slice ahead once it has a
      response, data for the current slice before that. */
  ghost predicate HeldOk(c: Client) {
    !c.fallbackToDirect ==>
      && (c.receivedResponse ==> HoldsSlice(c.blob, c.sessionId, c.sliceNumber + 1))
      && (!c.receivedResponse && c.sliceNumber >= 1 ==> HoldsSlice(c.blob, c.sessionId, c.sliceNumber))
  }

  /** Requests of the session: none from the future, none of the current slice before its tick,
      and after fallback only requests that say so. */
  ghost predicate RequestOk(c: Client, q: Request) {
    && q.sessionId == c.sessionId
    && q.sliceNumber <= c.sliceNumber
    && (q.sliceNumber == c.sliceNumber ==> !c.phase.Waiting?)
    && (q.sliceNumber == c.sliceNumber && c.fallbackToDirect && !c.phase.Wedged? ==> q.fallbackToDirect)
    && (!q.fallbackToDirect && q.sliceNumber >= 1 ==>
          || HoldsSlice(q.blob, c.sessionId, q.sliceNumber)
          || HoldsSlice(q.blob, c.sessionId, q.sliceNumber + 1))
  }

  ghost predicate ReplyOk(c: Client, r: Response) {
    r.sessionId == c.sessionId ==>
      && r.sliceNumber <= c.sliceNumber
      && (r.sliceNumber == c.sliceNumber ==> !c.phase.Waiting? && (c.fallbackToDirect ==> c.phase.Wedged?))
      && HoldsSlice(r.blob, c.sessionId, r.sliceNumber + 1)
  }

  ghost predicate Safe(config: Config, w: World) {
    && w.client.sessionId == config.profile.sessionId
    && CountersOk(w.client)
    && HeldOk(w.client)
    && (forall q :: q in w.sent ==> RequestOk(w.client, q))
    && (forall q :: q in w.foreign ==> q.sessionId != w.client.sessionId)
    && (forall r :: r in w.replies ==> ReplyOk(w.client, r))
  }

  /** A reply names the request's session and slice, answers no fallback request, and carries the
      request's data moved on one slice. */
  lemma ReplyFollowsRequest(mode: Mode, q: Request, around: Surroundings)
    requires Handle(mode, q, around).Replies?
    ensures var r := Handle(mode, q, around).response;
      && r.sessionId == q.sessionId
      && r.sliceNumber == q.sliceNumber
      && !q.fallbackToDirect
      && (q.sliceNumber == 0 ==> HoldsSlice(r.blob, q.sessionId, 1))
      && (q.sliceNumber > 0 ==> q.blob.Packed? && HoldsSlice(r.blob, q.blob.data.sessionId, q.sliceNumber + 1))
  {
  }

  lemma ServeKeepsSafe(config: Config, w: World, q: Request, around: Surroundings)
    requires Safe(config, w)
    requires Enabled(config, w, ServeStep(q, around))
    ensures Safe(config, Serve(config, w, q, around))
  {
    if Handle(config.mode, q, around).Replies? {
      ReplyFollowsRequest(config.mode, q, around);
      var r := Handle(config.mode, q, around).response;
      if q in w.sent {
        assert RequestOk(w.client, q);
      }
      assert ReplyOk(w.client, r);
    }
  }

  lemma SendKeepsSafe(config: Config, w: World)
    requires Safe(config, w)
    requires Enabled(config, w, SendStep)
    ensures Safe(config, Next(config, w, SendStep))
  {
    var w' := Next(config, w, SendStep);
    forall q | q in w'.sent ensures RequestOk(w'.client, q) {
      if q in w.sent {
        assert RequestOk(w.client, q);
      } else {
        assert q == Outgoing(config.profile, w.client);
      }
    }
    forall r | r in w'.replies ensures ReplyOk(w'.client, r) {
      assert ReplyOk(w.client, r);
    }
  }

  lemma LoopKeepsSafe(config: Config, w: World, step: Step)
    requires Safe(config, w)
    requires Enabled(config, w, step)
    requires step.TickStep? || step.CheckStep? || step.RetryStep? || step.CloseStep? || step.DeliverStep?
    ensures Safe(config, Next(config, w, step))
  {
    var w' := Next(config, w, step);
    forall q | q in w'.sent ensures RequestOk(w'.client, q) {
      assert RequestOk(w.client, q);
    }
    forall r | r in w'.replies ensures ReplyOk(w'.client, r) {
      assert ReplyOk(w.client, r);
    }
    if step.DeliverStep? {
      assert ReplyOk(w.client, step.response);
    }
  }

  lemma StepKeepsSafe(config: Config, w: World, step: Step)
    requires Safe(config, w)
    requires Enabled(config, w, step)
    ensures Safe(config, Next(config, w, step))
  {
    match step
    case ServeStep(q, around) => ServeKeepsSafe(config, w, q, around);
    case SendStep => SendKeepsSafe(config, w);
    case ForeignStep(_) =>
    case ClockStep(_) =>
    case _ => LoopKeepsSafe(config, w, step);
  }

  lemma {:induction false} RunIsSafe(config: Config, worlds: seq<World>, steps: seq<Step>, i: nat)
    requires IsRun(config, worlds, steps)
    requires i < |worlds|
    ensures Safe(config, worlds[i])
  {
    if i > 0 {
      RunIsSafe(config, worlds, steps, i - 1);
      StepKeepsSafe(config, worlds[i - 1], steps[i - 1]);
    }
  }

  // ----- theorems -----

  /** In every reachable world without fallback the held data is one slice ahead exactly when a
      response has been received, and it is this session's own data. */
  lemma HeldDataTracksSlice(config: Config, worlds: seq<World>, steps: seq<Step>, i: nat)
    requires IsRun(config, worlds, steps)
    requires i < |worlds|
    ensures var c := worlds[i].client;
      !c.fallbackToDirect && (c.receivedResponse || c.sliceNumber >= 1) ==>
        && c.blob.Packed?
        && c.blob.data.sessionId == config.profile.sessionId
        && c.blob.data.sliceNumber == (if c.receivedResponse then c.sliceNumber + 1 else c.sliceNumber)
  {
    RunIsSafe(config, worlds, steps, i);
  }

  /** Every tick finds no response to throw away, and every response the client adopts is for the
      slice it is in, at a time when that slice has been sent and the session has not fallen back. */
  lemma NoResponseIsLostOrStale(config: Config, worlds: seq<World>, steps: seq<Step>, i: nat)
    requires IsRun(config, worlds, steps)
    requires i < |steps|
    ensures steps[i].TickStep? ==> !worlds[i].client.receivedResponse
    ensures steps[i].DeliverStep? && worlds[i + 1].client != worlds[i].client ==>
      && steps[i].response.sliceNumber == worlds[i].client.sliceNumber
      && !worlds[i].client.fallbackToDirect
      && !worlds[i].client.phase.Waiting?
  {
    RunIsSafe(config, worlds, steps, i);
    if steps[i].DeliverStep? {
      assert ReplyOk(worlds[i].client, steps[i].response);
    }
  }

  /** What fallback freezes. */
  predicate SameData(c: Client, d: Client) {
    c.blob == d.blob && c.signature == d.signature && c.next == d.next
  }

  lemma StepKeepsFrozen(config: Config, w: World, step: Step)
    requires Safe(config, w) && Enabled(config, w, step) && w.client.fallbackToDirect
    ensures Next(config, w, step).client.fallbackToDirect && SameData(w.client, Next(config, w, step).client)
  {
    if step.DeliverStep? {
      assert ReplyOk(w.client, step.response);
    }
  }

  lemma RunKeepsFrozen(config: Config, worlds: seq<World>, steps: seq<Step>, k: nat)
    requires IsRun(config, worlds, steps) && k < |steps| && worlds[k].client.fallbackToDirect
    ensures worlds[k + 1].client.fallbackToDirect && SameData(worlds[k].client, worlds[k + 1].client)
  {
    RunIsSafe(config, worlds, steps, k);
    StepKeepsFrozen(config, worlds[k], steps[k]);
  }

  /** Once a session has fallen back, its session data, signature and next flag are frozen. */
  lemma {:induction false} FallbackFreezesSession(config: Config, worlds: seq<World>, steps: seq<Step>, i: nat, j: nat)
    requires IsRun(config, worlds, steps)
    requires i <= j < |worlds|
    requires worlds[i].client.fallbackToDirect
    ensures worlds[j].client.fallbackToDirect
    ensures worlds[j].client.blob == worlds[i].client.blob
    ensures worlds[j].client.signature == worlds[i].client.signature
    ensures worlds[j].client.next == worlds[i].client.next
    decreases j
  {
    if i < j {
      FallbackFreezesSession(config, worlds, steps, i, j - 1);
      RunKeepsFrozen(config, worlds, steps, j - 1);
    }
  }

  // ----- what the client adopts and sends on -----

  /** A delivered response is adopted whole if it is for this session and the current slice, and not at
      all otherwise. */
  lemma DeliveredIsAdopted(config: Config, worlds: seq<World>, steps: seq<Step>, i: nat)
    requires IsRun(config, worlds, steps) && i < |steps| && steps[i].DeliverStep?
    ensures var c, d, r := worlds[i].client, worlds[i + 1].client, steps[i].response;
      if r.sessionId == config.profile.sessionId && r.sliceNumber == c.sliceNumber then
        && d.blob == r.blob && d.signature == r.signature && d.receivedResponse
        && (d.next <==> r.routeType == NewRoute || r.routeType == ContinueRoute)
        && d == c.(blob := d.blob, signature := d.signature, receivedResponse := true, next := d.next)
      else d == c
  {
    RunIsSafe(config, worlds, steps, i);
    assert worlds[i + 1] == Next(config, worlds[i], steps[i]);
  }

  /** The response the client adopted last before step `i`. */
  function LastAdopted(config: Config, worlds: seq<World>, steps: seq<Step>, i: nat): Option<Response>
    requires i <= |steps| < |worlds|
  {
    if i == 0 then None
    else if && steps[i - 1].DeliverStep?
            && steps[i - 1].response.sessionId == config.profile.sessionId
            && steps[i - 1].response.sliceNumber == worlds[i - 1].client.sliceNumber then Some(steps[i - 1].response)
    else LastAdopted(config, worlds, steps, i - 1)
  }

  /** The client holds what it adopted last. */
  lemma {:induction false} HoldsLastAdopted(config: Config, worlds: seq<World>, steps: seq<Step>, i: nat)
    requires IsRun(config, worlds, steps) && i < |worlds|
    ensures var c := worlds[i].client;
      match LastAdopted(config, worlds, steps, i)
      case None => !c.next && c.blob == Blank && c.signature == 0
      case Some(r) =>
        && (c.next <==> r.routeType == NewRoute || r.routeType == ContinueRoute)
        && c.blob == r.blob && c.signature == r.signature
  {
    if i > 0 {
      HoldsLastAdopted(config, worlds, steps, i - 1);
      assert Enabled(config, worlds[i - 1], steps[i - 1]) && worlds[i] == Next(config, worlds[i - 1], steps[i - 1]);
      if steps[i - 1].DeliverStep? {
        DeliveredIsAdopted(config, worlds, steps, i - 1);
      }
    }
  }

  /** Every request of every run, field by field: who the session is, where it is, whether the last
      adopted response had a route, and, from slice one on, that response's data. */
  lemma SentExactly(config: Config, worlds: seq<World>, steps: seq<Step>, i: nat)
    requires IsRun(config, worlds, steps) && i < |steps| && steps[i].SendStep?
    ensures |worlds[i + 1].sent| == |worlds[i].sent| + 1 && worlds[i + 1].sent[..|worlds[i].sent|] == worlds[i].sent
    ensures var q, c, profile := worlds[i + 1].sent[|worlds[i].sent|], worlds[i].client, config.profile;
      var adopted := LastAdopted(config, worlds, steps, i);
      var pings := c.sliceNumber >= 1 && profile.sessionId % 10 == 0;
      && q.sessionId == profile.sessionId && q.sliceNumber == c.sliceNumber && q.retryNumber == c.retryNumber
      && q.clientAddress == profile.clientAddress && q.serverAddress == profile.serverAddress
      && q.fallbackToDirect == c.fallbackToDirect
      && (q.next <==> adopted.Some? && adopted.value.routeType != Direct)
      && q.blob == (if q.sliceNumber > 0 && adopted.Some? then adopted.value.blob else Blank)
      && q.signature == (if q.sliceNumber > 0 && adopted.Some? then adopted.value.signature else 0)
      && q.report.platformType == profile.platformType && q.report.connectionType == profile.connectionType
      && q.report.numClientRelays == (if pings then 16 else 0)
      && q.report.numServerRelays == (if pings then 8 else 0)
  {
    RunIsSafe(config, worlds, steps, i);
    HoldsLastAdopted(config, worlds, steps, i);
    assert worlds[i + 1] == Next(config, worlds[i], steps[i]);
  }

  // ----- a client that does not say what it is -----

  /** The session has no answer, and only slice zero was sent without saying it fell back. */
  ghost predicate Unanswered(config: Config, w: World) {
    && w.client.sessionId == config.profile.sessionId
    && (forall r :: r in w.replies ==> r.sessionId != config.profile.sessionId)
    && (forall q :: q in w.sent ==>
          && q.sessionId == config.profile.sessionId
          && q.report.platformType == config.profile.platformType
          && q.report.connectionType == config.profile.connectionType)
    && (forall q :: q in w.foreign ==> q.sessionId != config.profile.sessionId)
    && !w.client.receivedResponse
    && (w.client.sliceNumber >= 1 ==> w.client.fallbackToDirect)
  }

  lemma StepKeepsUnanswered(config: Config, w: World, step: Step)
    requires config.profile.platformType == 0 || config.profile.connectionType == 0
    requires Unanswered(config, w) && Enabled(config, w, step)
    ensures Unanswered(config, Next(config, w, step))
  {
    if step.ServeStep? && Handle(config.mode, step.request, step.around).Replies? {
      ReplyFollowsRequest(config.mode, step.request, step.around);
    }
  }

  /** A client that leaves its platform or connection type unset is never answered: it holds no
      session data in any run, and it has fallen back as soon as it leaves slice zero. */
  lemma {:induction false} UnsetPlatformIsNeverAnswered(config: Config, worlds: seq<World>, steps: seq<Step>, i: nat)
    requires IsRun(config, worlds, steps) && i < |worlds|
    requires config.profile.platformType == 0 || config.profile.connectionType == 0
    ensures Unanswered(config, worlds[i])
  {
    if i > 0 {
      UnsetPlatformIsNeverAnswered(config, worlds, steps, i - 1);
      StepKeepsUnanswered(config, worlds[i - 1], steps[i - 1]);
    }
  }

  // ----- a loop that returned with the mutex locked -----

  predicate FailsToWrite(w: World, step: Step) {
    && step.CloseStep? && step.writeFails
    && (w.client.sliceNumber == 1 || (w.client.sliceNumber > 0 && w.client.sliceNumber % 30 == 0))
  }

  /** A step wedges the client exactly if it is a closing section, in a slice that also writes relay
      request packets, in which such a write fails. */
  lemma WedgesExactly(config: Config, w: World, step: Step)
    requires Enabled(config, w, step) && !w.client.phase.Wedged?
    ensures Next(config, w, step).client.phase.Wedged? <==> FailsToWrite(w, step)
  {
  }

  /** A wedged client sends nothing and changes nothing ever again, whatever arrives. */
  lemma {:induction false} WedgedForGood(config: Config, worlds: seq<World>, steps: seq<Step>, i: nat, j: nat)
    requires IsRun(config, worlds, steps)
    requires i <= j < |worlds| && worlds[i].client.phase.Wedged?
    ensures worlds[j].client == worlds[i].client && worlds[j].sent == worlds[i].sent
  {
    if i < j {
      WedgedForGood(config, worlds, steps, i, j - 1);
      assert Enabled(config, worlds[j - 1], steps[j - 1]);
    }
  }

  /** A client is wedged at some point of a run exactly if such a closing section came before. */
  lemma {:induction false} WedgedBy(config: Config, worlds: seq<World>, steps: seq<Step>, i: nat)
    requires IsRun(config, worlds, steps) && i < |worlds|
    ensures worlds[i].client.phase.Wedged? <==> exists k :: 0 <= k < i && FailsToWrite(worlds[k], steps[k])
  {
    if i > 0 {
      WedgedBy(config, worlds, steps, i - 1);
      var w, step := worlds[i - 1], steps[i - 1];
      assert Enabled(config, w, step) && worlds[i] == Next(config, w, step);
      if w.client.phase.Wedged? {
        WedgedForGood(config, worlds, steps, i - 1, i);
      } else {
        WedgesExactly(config, w, step);
      }
    }
  }
}
