/** How many requests each slice sends, and with which retry numbers. */
module SessionRetries {
  import opened SessionWire
  import opened SessionClient
  import opened FuncBackend
  import opened SessionProtocol

  /** `q` is the request sent right after `p`: the next retry of the same slice, or the first
      request of the next slice. A session falls back only after the ninth request of a slice. */
  ghost predicate Follows(p: Request, q: Request) {
    || (&& q.sliceNumber == p.sliceNumber
        && q.retryNumber == p.retryNumber + 1
        && !p.fallbackToDirect
        && !q.fallbackToDirect)
    || BeginsSlice(p, q.sliceNumber, q.retryNumber, q.fallbackToDirect)
  }

  ghost predicate BeginsSlice(p: Request, sliceNumber: nat, retryNumber: nat, fallback: bool) {
    && sliceNumber == p.sliceNumber + 1
    && retryNumber == 0
    && (p.fallbackToDirect ==> fallback)
    && (fallback && !p.fallbackToDirect ==> p.retryNumber == 8)
  }

  ghost predicate Ordered(sent: seq<Request>) {
    && (|sent| > 0 ==> sent[0].sliceNumber == 0 && sent[0].retryNumber == 0 && !sent[0].fallbackToDirect)
    && (forall i :: 0 < i < |sent| ==> Follows(sent[i - 1], sent[i]))
    && (forall i :: 0 <= i < |sent| ==> sent[i].retryNumber < MAX_ATTEMPTS)
    && (forall i :: 0 <= i < |sent| && sent[i].fallbackToDirect ==> sent[i].retryNumber == 0)
  }

  predicate IsCurrent(p: Request, c: Client) {
    p.sliceNumber == c.sliceNumber && p.retryNumber == c.retryNumber && p.fallbackToDirect == c.fallbackToDirect
  }

  /** The client's counters against the last request it sent. */
  ghost predicate LastOk(c: Client, sent: seq<Request>) {
    if |sent| == 0 then
      (c.phase.Waiting? || c.phase.Sending?) && c.sliceNumber == 0 && c.retryNumber == 0 && !c.fallbackToDirect
    else
      var p := sent[|sent| - 1];
      match c.phase
      case Waiting => BeginsSlice(p, c.sliceNumber, c.retryNumber, c.fallbackToDirect)
      case Sending =>
        || BeginsSlice(p, c.sliceNumber, c.retryNumber, c.fallbackToDirect)
        || (&& p.sliceNumber == c.sliceNumber && c.retryNumber == p.retryNumber + 1
            && !p.fallbackToDirect && !c.fallbackToDirect)
      case Sleeping => IsCurrent(p, c)
      case Retrying => IsCurrent(p, c)
      case Closing =>
        && p.sliceNumber == c.sliceNumber
        && p.fallbackToDirect == c.fallbackToDirect
        && (c.retryNumber == p.retryNumber || (c.retryNumber == MAX_ATTEMPTS && p.retryNumber == MAX_ATTEMPTS - 1))
      case Wedged => p.sliceNumber == c.sliceNumber
  }

  lemma LoopKeepsLast(c: Client, sent: seq<Request>, writeFails: bool)
    requires CountersOk(c) && Ordered(sent) && LastOk(c, sent)
    ensures c.phase.Waiting? ==> LastOk(Tick(c), sent)
    ensures c.phase.Sleeping? ==> LastOk(Check(c), sent)
    ensures c.phase.Retrying? ==> LastOk(Retry(c), sent)
    ensures c.phase.Closing? ==> LastOk(Close(c, writeFails), sent)
  {
  }

  lemma SendKeepsOrder(profile: Profile, c: Client, sent: seq<Request>)
    requires CountersOk(c) && c.phase.Sending? && Ordered(sent) && LastOk(c, sent)
    ensures Ordered(sent + [Outgoing(profile, c)]) && LastOk(Sent(c), sent + [Outgoing(profile, c)])
  {
  }

  /** Only sending changes the requests; serving and the clock leave the client alone. */
  lemma StepFrame(config: Config, w: World, step: Step)
    requires Enabled(config, w, step)
    ensures !step.SendStep? ==> Next(config, w, step).sent == w.sent
    ensures step.ServeStep? || step.ForeignStep? || step.ClockStep? ==> Next(config, w, step).client == w.client
  {
  }

  lemma StepKeepsOrder(config: Config, w: World, step: Step)
    requires CountersOk(w.client)
    requires Enabled(config, w, step)
    requires Ordered(w.sent) && LastOk(w.client, w.sent)
    ensures var w' := Next(config, w, step); Ordered(w'.sent) && LastOk(w'.client, w'.sent)
  {
    StepFrame(config, w, step);
    match step
    case SendStep => SendKeepsOrder(config.profile, w.client, w.sent);
    case CloseStep(fails) => LoopKeepsLast(w.client, w.sent, fails);
    case _ => LoopKeepsLast(w.client, w.sent, false);
  }

  lemma {:induction false} RunIsOrdered(config: Config, worlds: seq<World>, steps: seq<Step>, i: nat)
    requires IsRun(config, worlds, steps)
    requires i < |worlds|
    ensures Ordered(worlds[i].sent) && LastOk(worlds[i].client, worlds[i].sent)
  {
    if i > 0 {
      RunIsOrdered(config, worlds, steps, i - 1);
      RunIsSafe(config, worlds, steps, i - 1);
      StepKeepsOrder(config, worlds[i - 1], steps[i - 1]);
    }
  }

  lemma {:induction false} SlicesOnlyGrow(sent: seq<Request>, a: nat, b: nat)
    requires Ordered(sent)
    requires a <= b < |sent|
    ensures sent[a].sliceNumber <= sent[b].sliceNumber
    ensures sent[a].fallbackToDirect ==> sent[b].sliceNumber - sent[a].sliceNumber == b - a && sent[b].fallbackToDirect
    ensures sent[a].sliceNumber == sent[b].sliceNumber ==> sent[b].retryNumber == sent[a].retryNumber + (b - a)
  {
    if a < b {
      SlicesOnlyGrow(sent, a, b - 1);
      assert Follows(sent[b - 1], sent[b]);
    }
  }

  /** The requests of one slice are sent back to back with retry numbers that count up by one
      from zero, at most nine of them; after fallback every slice sends exactly one request,
      with retry number zero. */
  lemma RequestsPerSlice(config: Config, worlds: seq<World>, steps: seq<Step>, i: nat, a: nat, b: nat)
    requires IsRun(config, worlds, steps)
    requires i < |worlds|
    requires a <= b < |worlds[i].sent|
    ensures var sent := worlds[i].sent;
      && sent[a].sliceNumber <= sent[b].sliceNumber
      && (sent[a].sliceNumber == sent[b].sliceNumber ==>
            b - a < 9 && sent[b].retryNumber == sent[a].retryNumber + (b - a))
      && (a == 0 || sent[a - 1].sliceNumber < sent[a].sliceNumber ==> sent[a].retryNumber == 0)
      && (sent[a].fallbackToDirect ==>
            && sent[b].fallbackToDirect && sent[b].retryNumber == 0
            && sent[b].sliceNumber == sent[a].sliceNumber + (b - a))
  {
    RunIsOrdered(config, worlds, steps, i);
    SlicesOnlyGrow(worlds[i].sent, a, b);
    if a > 0 {
      assert Follows(worlds[i].sent[a - 1], worlds[i].sent[a]);
    }
  }

  // ----- forced retries -----

  /** Some circumstances exist under which the backend answers the request. */
  ghost predicate Answerable(mode: Mode, q: Request) {
    exists around :: Handle(mode, q, around).Replies?
  }

  /** What decides, before it is sent, whether a request of a session that has not fallen back can be
      answered at all: whether the session says what machine it is, and what the mode asks for. */
  predicate Acceptable(config: Config, c: Client) {
    && config.profile.platformType != 0 && config.profile.connectionType != 0
    && (config.mode.ForceRetry? ==> c.retryNumber >= 4)
    && (config.mode.ClientRelayStats? || config.mode.ServerRelayStats? ==>
          c.sliceNumber == 0 || !HasPings(config.profile))
    && (config.mode.ServerEvents? ==> c.sliceNumber < 2)
  }

  /** In every run, a request sent before fallback can be answered if and only if it is acceptable. */
  lemma AnswerableExactly(config: Config, worlds: seq<World>, steps: seq<Step>, i: nat)
    requires IsRun(config, worlds, steps) && i < |worlds|
    requires worlds[i].client.phase.Sending? && !worlds[i].client.fallbackToDirect
    ensures Answerable(config.mode, Outgoing(config.profile, worlds[i].client)) <==>
      Acceptable(config, worlds[i].client)
  {
    RunIsSafe(config, worlds, steps, i);
    var c := worlds[i].client;
    var q := Outgoing(config.profile, c);
    if Acceptable(config, c) {
      assert Handle(config.mode, q, Surroundings(0, [], false, false)).Replies?;
    }
    if around :| Handle(config.mode, q, around).Replies? {
      HandledIsAcceptable(config, c, around);
    }
  }

  lemma HandledIsAcceptable(config: Config, c: Client, around: Surroundings)
    requires Handle(config.mode, Outgoing(config.profile, c), around).Replies?
    ensures Acceptable(config, c)
  {
  }

  /** No response is late: whenever the client looks, it has received an answer if its last
      request was one the backend answers. */
  ghost predicate Prompt(config: Config, worlds: seq<World>, steps: seq<Step>)
    requires |worlds| == |steps| + 1
  {
    forall i :: 0 <= i < |steps| && steps[i].CheckStep? && worlds[i].sent != [] ==>
      Answerable(config.mode, worlds[i].sent[|worlds[i].sent| - 1]) ==> worlds[i].client.receivedResponse
  }

  /** Under forced retries nothing about the current slice is answered before its fifth request. */
  ghost predicate Withheld(w: World) {
    var c := w.client;
    && (forall q :: q in w.sent && q.sliceNumber == c.sliceNumber && !c.phase.Waiting? ==>
          q.retryNumber <= c.retryNumber)
    && (forall r :: r in w.replies && r.sessionId == c.sessionId && r.sliceNumber == c.sliceNumber ==>
          c.retryNumber >= 4)
    && (c.receivedResponse ==> c.retryNumber >= 4)
  }

  lemma ServeKeepsWithheld(config: Config, w: World, q: Request, around: Surroundings)
    requires Safe(config, w) && Withheld(w) && config.mode.ForceRetry?
    requires Enabled(config, w, ServeStep(q, around))
    ensures Withheld(Serve(config, w, q, around))
  {
    if Handle(config.mode, q, around).Replies? {
      ReplyFollowsRequest(config.mode, q, around);
      if q in w.sent {
        assert RequestOk(w.client, q);
      }
    }
  }

  /** What is known of the current slice before its tick, and of the next one: nothing. */
  lemma NothingAhead(config: Config, w: World)
    requires Safe(config, w)
    ensures forall r :: r in w.replies && r.sessionId == w.client.sessionId ==> r.sliceNumber <= w.client.sliceNumber
    ensures w.client.phase.Waiting? ==> forall q :: q in w.sent ==> q.sliceNumber < w.client.sliceNumber
    ensures w.client.phase.Waiting? ==>
      forall r :: r in w.replies && r.sessionId == w.client.sessionId ==> r.sliceNumber < w.client.sliceNumber
  {
    forall q | q in w.sent ensures w.client.phase.Waiting? ==> q.sliceNumber < w.client.sliceNumber {
      assert RequestOk(w.client, q);
    }
    forall r | r in w.replies && r.sessionId == w.client.sessionId
      ensures r.sliceNumber <= w.client.sliceNumber
      ensures w.client.phase.Waiting? ==> r.sliceNumber < w.client.sliceNumber
    {
      assert ReplyOk(w.client, r);
    }
  }

  lemma StepKeepsWithheld(config: Config, w: World, step: Step)
    requires Safe(config, w) && config.mode.ForceRetry?
    requires Enabled(config, w, step)
    requires Withheld(w)
    ensures Withheld(Next(config, w, step))
  {
    NothingAhead(config, w);
    if step.ServeStep? {
      ServeKeepsWithheld(config, w, step.request, step.around);
    }
  }

  /** The counters of a session whose fifth request of each slice is the one that is answered. */
  ghost predicate FifthTime(c: Client) {
    && !c.fallbackToDirect
    && (c.phase.Sending? || c.phase.Sleeping? ==> c.retryNumber <= 4)
    && (c.phase.Retrying? ==> c.retryNumber < 4)
    && (c.phase.Closing? ==> c.retryNumber == 4 && c.receivedResponse)
  }

  lemma FifthIsAnswerable(config: Config, w: World)
    requires Safe(config, w) && LastOk(w.client, w.sent)
    requires config.mode.ForceRetry?
    requires config.profile.platformType != 0 && config.profile.connectionType != 0
    requires w.client.phase.Sleeping? && w.client.retryNumber == 4 && !w.client.fallbackToDirect
    requires Declared(w.sent)
    ensures w.sent != [] && Answerable(config.mode, w.sent[|w.sent| - 1])
  {
    var q := w.sent[|w.sent| - 1];
    assert RequestOk(w.client, q);
    assert Handle(config.mode, q, Surroundings(0, [], false, false)).Replies?;
  }

  /** The requests say what kind of machine they come from. */
  ghost predicate Declared(sent: seq<Request>) {
    forall q :: q in sent ==> q.report.platformType != 0 && q.report.connectionType != 0
  }

  /** A client that does not look too early keeps count: the fifth request is the last of its slice. */
  lemma StepKeepsFifthTime(config: Config, w: World, step: Step)
    requires CountersOk(w.client) && Withheld(w) && FifthTime(w.client)
    requires Enabled(config, w, step)
    requires step.CheckStep? && w.client.retryNumber == 4 ==> w.client.receivedResponse
    ensures FifthTime(Next(config, w, step).client)
  {
    StepFrame(config, w, step);
  }

  lemma {:induction false} ForcedRetryInvariant(config: Config, worlds: seq<World>, steps: seq<Step>, i: nat)
    requires IsRun(config, worlds, steps)
    requires config.mode.ForceRetry?
    requires config.profile.platformType != 0 && config.profile.connectionType != 0
    requires Prompt(config, worlds, steps)
    requires i < |worlds|
    ensures Withheld(worlds[i]) && FifthTime(worlds[i].client) && Declared(worlds[i].sent)
  {
    if i > 0 {
      ForcedRetryInvariant(config, worlds, steps, i - 1);
      RunIsSafe(config, worlds, steps, i - 1);
      RunIsOrdered(config, worlds, steps, i - 1);
      var w, step := worlds[i - 1], steps[i - 1];
      StepKeepsWithheld(config, w, step);
      if step.CheckStep? && w.client.retryNumber == 4 {
        FifthIsAnswerable(config, w);
      }
      StepKeepsFifthTime(config, w, step);
      StepFrame(config, w, step);
    }
  }

  /** In forced retry mode, when no response is late, a session never falls back and every slice it
      closes took exactly five requests, retries zero to four. */
  lemma ForcedRetryTakesFiveRequests(config: Config, worlds: seq<World>, steps: seq<Step>, i: nat)
    requires IsRun(config, worlds, steps)
    requires config.mode.ForceRetry?
    requires config.profile.platformType != 0 && config.profile.connectionType != 0
    requires Prompt(config, worlds, steps)
    requires i < |steps|
    ensures !worlds[i].client.fallbackToDirect && !worlds[i + 1].client.fallbackToDirect
    ensures steps[i].CloseStep? ==>
      var sent, n := worlds[i].sent, worlds[i].client.sliceNumber;
      && |sent| >= 5
      && (forall k :: |sent| - 5 <= k < |sent| ==> sent[k].sliceNumber == n && sent[k].retryNumber == k - (|sent| - 5))
      && (|sent| > 5 ==> sent[|sent| - 6].sliceNumber + 1 == n)
  {
    ForcedRetryInvariant(config, worlds, steps, i);
    ForcedRetryInvariant(config, worlds, steps, i + 1);
    if steps[i].CloseStep? {
      RunIsOrdered(config, worlds, steps, i);
      FiveBack(worlds[i].sent);
    }
  }

  lemma FiveBack(sent: seq<Request>)
    requires Ordered(sent)
    requires |sent| > 0 && sent[|sent| - 1].retryNumber == 4
    ensures |sent| >= 5
    ensures var n := sent[|sent| - 1].sliceNumber;
      && (forall k :: |sent| - 5 <= k < |sent| ==> sent[k].sliceNumber == n && sent[k].retryNumber == k - (|sent| - 5))
      && (|sent| > 5 ==> sent[|sent| - 6].sliceNumber + 1 == n)
  {
    var last := |sent| - 1;
    assert last >= 1 && Follows(sent[last - 1], sent[last]);
    assert last >= 2 && Follows(sent[last - 2], sent[last - 1]);
    assert last >= 3 && Follows(sent[last - 3], sent[last - 2]);
    assert last >= 4 && Follows(sent[last - 4], sent[last - 3]);
    if last > 4 {
      assert Follows(sent[last - 5], sent[last - 4]);
    }
  }
}
