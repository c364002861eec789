/** Runs that go as far as the theorems about sessions allow. */
module SessionExtremes {
  import opened SessionWire
  import opened SessionClient
  import opened FuncBackend
  import opened SessionProtocol
  import opened SessionExpiry

  lemma AddStep(config: Config, worlds: seq<World>, steps: seq<Step>, step: Step)
      returns (worlds': seq<World>, steps': seq<Step>)
    requires IsRun(config, worlds, steps) && Enabled(config, worlds[|steps|], step)
    ensures IsRun(config, worlds', steps') && |steps'| == |steps| + 1
    ensures worlds'[|steps'|] == Next(config, worlds[|steps|], step)
  {
    worlds', steps' := worlds + [Next(config, worlds[|steps|], step)], steps + [step];
  }

  // ----- who is answered -----

  ghost predicate IsAnswered(config: Config, w: World) {
    exists r :: r in w.replies && r.sessionId == config.profile.sessionId
  }

  /** Some run gets an answer to this session. */
  ghost predicate CanBeAnswered(config: Config) {
    exists worlds, steps :: IsRun(config, worlds, steps) && IsAnswered(config, worlds[|steps|])
  }

  /** A fresh session about to send its request number `k` for slice zero. */
  ghost predicate Trying(config: Config, w: World, k: nat) {
    w.backendUp && w.client == NewClient(config.profile).(phase := Sending, attempt := k, retryNumber := k)
  }

  lemma {:induction false} TriesOften(config: Config, k: nat) returns (worlds: seq<World>, steps: seq<Step>)
    requires k < MAX_ATTEMPTS
    ensures IsRun(config, worlds, steps) && Trying(config, worlds[|steps|], k)
  {
    if k == 0 {
      worlds, steps := AddStep(config, [Start(config, 0)], [], TickStep);
    } else {
      worlds, steps := TriesOften(config, k - 1);
      worlds, steps := AddStep(config, worlds, steps, SendStep);
      worlds, steps := AddStep(config, worlds, steps, CheckStep);
      worlds, steps := AddStep(config, worlds, steps, RetryStep);
    }
  }

  lemma FifthRequestIsAnswered(config: Config, c: Client, now: nat)
    requires config.profile.platformType != 0 && config.profile.connectionType != 0
    requires c == NewClient(config.profile).(phase := Sending, attempt := 4, retryNumber := 4)
    ensures var out := Handle(config.mode, Outgoing(config.profile, c), Surroundings(now, [], false, false));
      out.Replies? && out.response.sessionId == config.profile.sessionId
  {
  }

  /** In every mode, a session can be answered if and only if it says what platform and what connection
      it has. */
  lemma AnsweredExactly(config: Config)
    ensures CanBeAnswered(config) <==> config.profile.platformType != 0 && config.profile.connectionType != 0
  {
    if config.profile.platformType != 0 && config.profile.connectionType != 0 {
      var worlds, steps := TriesOften(config, 4);
      var w := worlds[|steps|];
      var q, around := Outgoing(config.profile, w.client), Surroundings(w.now, [], false, false);
      FifthRequestIsAnswered(config, w.client, w.now);
      worlds, steps := AddStep(config, worlds, steps, SendStep);
      worlds, steps := AddStep(config, worlds, steps, ServeStep(q, around));
      assert Handle(config.mode, q, around).response in worlds[|steps|].replies;
      assert IsAnswered(config, worlds[|steps|]);
    } else if worlds, steps :| IsRun(config, worlds, steps) && IsAnswered(config, worlds[|steps|]) {
      UnsetPlatformIsNeverAnswered(config, worlds, steps, |steps|);
    }
  }

  // ----- the latest expiry -----

  const CONFIG := Config(Default, Profile(1, 0, 0, 1, 1))

  /** The blob was answered at time zero and has been renewed `renewals` times. */
  predicate Renewed(blob: Blob, renewals: nat) {
    && blob.Packed?
    && blob.data.version == DATA_VERSION_WRITE
    && blob.data.routeNumRelays == 0
    && blob.data.expireTimestamp == 2 * SLICE_SECONDS * renewals
  }

  lemma NewRouteRenews(q: Request, renewals: nat)
    requires q.report.platformType == 1 && q.report.connectionType == 1 && !q.fallbackToDirect
    requires if q.sliceNumber == 0 then renewals == 0 else Renewed(q.blob, renewals)
    ensures var out := Handle(Default, q, OneRelay());
      && out.Replies? && out.response.sessionId == q.sessionId && out.response.sliceNumber == q.sliceNumber
      && Renewed(out.response.blob, renewals + 1)
  {
  }

  /** A world whose clock has not moved, with the client at some place in a slice. */
  ghost predicate At(w: World, phase: Phase, slice: nat, attempt: nat, received: bool) {
    var c := w.client;
    && w.now == 0 && w.backendUp
    && c.sessionId == 1 && c.sliceNumber == slice && c.phase == phase && !c.fallbackToDirect
    && c.retryNumber == attempt && c.receivedResponse == received
    && (phase != Waiting ==> c.attempt == attempt)
  }

  /** The client sends a request and the backend answers it with a new route. */
  lemma SendAndServe(worlds: seq<World>, steps: seq<Step>, slice: nat, attempt: nat, received: bool, renewals: nat)
      returns (worlds': seq<World>, steps': seq<Step>, r: Response)
    requires IsRun(CONFIG, worlds, steps) && At(worlds[|steps|], Sending, slice, attempt, received)
    requires if slice == 0 then renewals == 0 else Renewed(worlds[|steps|].client.blob, renewals)
    ensures IsRun(CONFIG, worlds', steps') && At(worlds'[|steps'|], Sleeping, slice, attempt, received)
    ensures r in worlds'[|steps'|].replies && r.sessionId == 1 && r.sliceNumber == slice
    ensures Renewed(r.blob, renewals + 1)
  {
    var q := Outgoing(CONFIG.profile, worlds[|steps|].client);
    NewRouteRenews(q, renewals);
    r := Handle(Default, q, OneRelay()).response;
    worlds', steps' := AddStep(CONFIG, worlds, steps, SendStep);
    worlds', steps' := AddStep(CONFIG, worlds', steps', ServeStep(q, OneRelay()));
  }

  /** The first answer of a slice arrives after the client has decided to retry. */
  lemma RacedHalf(worlds: seq<World>, steps: seq<Step>, slice: nat, renewals: nat)
      returns (worlds': seq<World>, steps': seq<Step>)
    requires IsRun(CONFIG, worlds, steps) && At(worlds[|steps|], Waiting, slice, 0, false)
    requires if slice == 0 then renewals == 0 else Renewed(worlds[|steps|].client.blob, renewals)
    ensures IsRun(CONFIG, worlds', steps') && At(worlds'[|steps'|], Sending, slice, 1, true)
    ensures Renewed(worlds'[|steps'|].client.blob, renewals + 1)
  {
    var r: Response;
    worlds', steps' := AddStep(CONFIG, worlds, steps, TickStep);
    worlds', steps', r := SendAndServe(worlds', steps', slice, 0, false, renewals);
    worlds', steps' := AddStep(CONFIG, worlds', steps', CheckStep);
    worlds', steps' := AddStep(CONFIG, worlds', steps', RetryStep);
    worlds', steps' := AddStep(CONFIG, worlds', steps', DeliverStep(r));
  }

  /** The retry, with the data of the first answer, is answered as well, and the slice is closed. */
  lemma LastHalf(worlds: seq<World>, steps: seq<Step>, slice: nat, renewals: nat)
      returns (worlds': seq<World>, steps': seq<Step>, r: Response)
    requires IsRun(CONFIG, worlds, steps) && At(worlds[|steps|], Sending, slice, 1, true)
    requires if slice == 0 then renewals == 0 else Renewed(worlds[|steps|].client.blob, renewals)
    ensures IsRun(CONFIG, worlds', steps') && At(worlds'[|steps'|], Waiting, slice + 1, 0, false)
    ensures Renewed(worlds'[|steps'|].client.blob, renewals + 1)
    ensures r in worlds'[|steps'|].replies && r.sessionId == 1 && r.sliceNumber == slice
    ensures Renewed(r.blob, renewals + 1)
  {
    worlds', steps', r := SendAndServe(worlds, steps, slice, 1, true, renewals);
    worlds', steps' := AddStep(CONFIG, worlds', steps', DeliverStep(r));
    worlds', steps' := AddStep(CONFIG, worlds', steps', CheckStep);
    worlds', steps' := AddStep(CONFIG, worlds', steps', CloseStep(false));
  }

  lemma {:induction false} RacedSlices(slice: nat) returns (worlds: seq<World>, steps: seq<Step>, r: Response)
    ensures IsRun(CONFIG, worlds, steps) && At(worlds[|steps|], Waiting, slice + 1, 0, false)
    ensures Renewed(worlds[|steps|].client.blob, 2 * slice + 1)
    ensures r in worlds[|steps|].replies && r.sessionId == 1 && r.sliceNumber == slice
    ensures Renewed(r.blob, 2 * slice + 1)
  {
    if slice == 0 {
      worlds, steps := RacedHalf([Start(CONFIG, 0)], [], 0, 0);
      worlds, steps, r := LastHalf(worlds, steps, 0, 0);
    } else {
      worlds, steps, r := RacedSlices(slice - 1);
      worlds, steps := RacedHalf(worlds, steps, slice, 2 * slice - 1);
      worlds, steps, r := LastHalf(worlds, steps, slice, 2 * slice);
    }
  }

  /** The upper bound of `AnsweredDataExpiry` is reached in every slice, by a session whose first answer
      always arrives just before its retry is sent, and whose every answer is a new route. */
  lemma LatestExpiryIsReached(slice: nat) returns (worlds: seq<World>, steps: seq<Step>, r: Response)
    ensures IsRun(CONFIG, worlds, steps)
    ensures r in worlds[|steps|].replies && r.sessionId == CONFIG.profile.sessionId && r.sliceNumber == slice
    ensures r.blob.Packed? && r.blob.data.sliceNumber == slice + 1
    ensures r.blob.data.expireTimestamp
      == worlds[|steps|].now + 10 * (4 * r.blob.data.sliceNumber - 2)
  {
    worlds, steps, r := RacedSlices(slice);
    AnsweredDataExpiry(CONFIG, worlds, steps, |steps|, r);
  }
}
