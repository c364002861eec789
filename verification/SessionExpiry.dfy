/** When session data expires: exact along every chain of answers, and bounded on both sides in
    every run of a session over the network. */
module SessionExpiry {
  import opened SessionWire
  import opened SessionClient
  import opened FuncBackend
  import opened SessionProtocol
  import opened SessionRetries

  // ----- chains of answers -----

  datatype Exchange = Exchange(request: Request, around: Surroundings, answer: Response)

  ghost predicate Answered(mode: Mode, e: Exchange) {
    Handle(mode, e.request, e.around) == Replies(e.answer)
  }

  /** Exchanges of a session, from slice zero on, that always sends back the blob it was last given. */
  ghost predicate IsChain(mode: Mode, chain: seq<Exchange>) {
    && chain != []
    && var last := chain[|chain| - 1];
    && Answered(mode, last)
    && if |chain| == 1 then last.request.sliceNumber == 0
       else
         && last.request.sliceNumber > 0
         && last.request.blob == chain[|chain| - 2].answer.blob
         && IsChain(mode, chain[..|chain| - 1])
  }

  function NewRoutes(chain: seq<Exchange>): nat {
    if chain == [] then 0
    else NewRoutes(chain[..|chain| - 1]) + if chain[|chain| - 1].answer.routeType.NewRoute? then 1 else 0
  }

  /** The data of one answer: `updates` answers after creation, `renewals` of them new routes. */
  ghost predicate Aged(data: SessionData, created: nat, updates: nat, renewals: nat) {
    && data.expireTimestamp == created + 10 * (updates + renewals)
    && data.sessionVersion == renewals % 256
    && data.routeNumRelays == 0
  }

  /** One answer adds one update, and one renewal when it is a new route. Data without a stored
      route never matches a route, so it is never answered with a continue route. */
  lemma AnswerAges(mode: Mode, q: Request, around: Surroundings, created: nat, updates: nat, renewals: nat)
    requires Handle(mode, q, around).Replies?
    requires q.sliceNumber == 0 ==> created == around.now && updates == 0 && renewals == 0
    requires q.sliceNumber > 0 ==> q.blob.Packed? && Aged(q.blob.data, created, updates, renewals)
    ensures var r := Handle(mode, q, around).response;
      && r.blob.Packed?
      && !r.routeType.ContinueRoute?
      && Aged(r.blob.data, created, updates + 1, if r.routeType.NewRoute? then renewals + 1 else renewals)
      && (r.routeType.NewRoute? ==>
            r.tokenExpire == r.blob.data.expireTimestamp && r.tokenVersion == r.blob.data.sessionVersion)
  {
    var r := Handle(mode, q, around).response;
    var data := Advance(q, around.now).value;
    assert data.expireTimestamp == created + SLICE_SECONDS * (updates + 1 + renewals);
    assert data.sessionVersion == renewals % 256;
    assert data.routeNumRelays == 0;
  }

  /** Along every chain, the expire time is the creation time plus ten seconds per answer and ten
      more per new route, the session version counts the new routes modulo 256, and no answer
      ever continues a route. */
  lemma {:induction false} ChainExpiry(mode: Mode, chain: seq<Exchange>)
    requires IsChain(mode, chain)
    ensures var last := chain[|chain| - 1].answer;
      && last.blob.Packed?
      && Aged(last.blob.data, chain[0].around.now, |chain|, NewRoutes(chain))
      && !last.routeType.ContinueRoute?
    decreases |chain|
  {
    var n := |chain| - 1;
    var last := chain[n];
    if n == 0 {
      AnswerAges(mode, last.request, last.around, last.around.now, 0, 0);
      assert chain[..0] == [];
    } else {
      ChainExpiry(mode, chain[..n]);
      AnswerAges(mode, last.request, last.around, chain[0].around.now, n, NewRoutes(chain[..n]));
    }
  }

  /** The formula with the session version in place of the count of new routes is right exactly
      while fewer than 256 new routes have been handed out. */
  lemma ExpiryFromSessionVersion(mode: Mode, chain: seq<Exchange>)
    requires IsChain(mode, chain)
    ensures chain[|chain| - 1].answer.blob.Packed?
    ensures var data := chain[|chain| - 1].answer.blob.data;
      data.expireTimestamp == chain[0].around.now + 10 * (|chain| + data.sessionVersion)
      <==> NewRoutes(chain) < 256
  {
    ChainExpiry(mode, chain);
  }

  /** The n-th request of a session that is offered a new route every time. */
  function RoutedRequest(n: nat): Request {
    var data := SessionData(DATA_VERSION_WRITE, 1, n % 256, n, 2 * SLICE_SECONDS * n, 0, ZeroIds());
    Request(1, n, 0, 0, 0, false, false, if n == 0 then Blank else Packed(data), 0, Report(1, 1, 0, 0.0, 0.0, 0, 0))
  }

  function OneRelay(): Surroundings {
    Surroundings(0, [Relay(7, 7)], false, false)
  }

  function RoutedExchange(n: nat): Exchange {
    Exchange(RoutedRequest(n), OneRelay(),
             Response(1, n, NewRoute, [0, 7, 0], 2 * SLICE_SECONDS * (n + 1), (n + 1) % 256,
                      RoutedRequest(n + 1).blob, 0))
  }

  lemma RoutedRequestRenews(n: nat)
    ensures Answered(Default, RoutedExchange(n))
  {
    var relays := [Relay(7, 7)];
    assert RouteIds(relays)[0] == 7;
    assert TokenAddresses(RoutedRequest(n), relays) == [0, 7, 0];
    assert (n % 256 + 1) % 256 == (n + 1) % 256;
  }

  function RoutedChain(n: nat): seq<Exchange> {
    if n == 0 then [] else RoutedChain(n - 1) + [RoutedExchange(n - 1)]
  }

  lemma {:induction false} RoutedChainIsChain(n: nat)
    requires n > 0
    ensures |RoutedChain(n)| == n
    ensures IsChain(Default, RoutedChain(n))
    ensures RoutedChain(n)[n - 1].answer.blob == RoutedRequest(n).blob
    ensures RoutedChain(n)[0].around.now == 0
  {
    RoutedRequestRenews(n - 1);
    if n > 1 {
      RoutedChainIsChain(n - 1);
      ChainExtends(Default, RoutedChain(n - 1), RoutedExchange(n - 1));
    }
  }

  lemma ChainExtends(mode: Mode, chain: seq<Exchange>, e: Exchange)
    requires IsChain(mode, chain) && Answered(mode, e)
    requires e.request.sliceNumber > 0 && e.request.blob == chain[|chain| - 1].answer.blob
    ensures IsChain(mode, chain + [e])
  {
    assert (chain + [e])[..|chain|] == chain;
  }

  /** A session of 256 new routes, for which the session version has wrapped to zero. */
  lemma SessionVersionWraps()
    ensures var chain := RoutedChain(256);
      && IsChain(Default, chain)
      && chain[|chain| - 1].answer.blob.Packed?
      && var data := chain[|chain| - 1].answer.blob.data;
      && data.sessionVersion == 0
      && data.expireTimestamp != chain[0].around.now + 10 * (|chain| + data.sessionVersion)
  {
    RoutedChainIsChain(256);
  }

  // ----- runs over the network -----

  /** A blob whose data was created between the opening of the session and now, and has seen at
      least one update per slice and at most `most`. */
  ghost predicate AgedBlob(w: World, blob: Blob, most: nat) {
    && blob.Packed?
    && w.openedAt.Some?
    && exists created: nat, updates: nat, renewals: nat ::
         && Aged(blob.data, created, updates, renewals)
         && w.openedAt.value <= created <= w.now
         && blob.data.sliceNumber <= updates <= most
         && renewals <= updates
  }

  lemma AgedBlobGrows(w: World, w': World, blob: Blob, most: nat, most': nat)
    requires AgedBlob(w, blob, most)
    requires w'.openedAt == w.openedAt && w.now <= w'.now && most <= most'
    ensures AgedBlob(w', blob, most')
  {
    var created: nat, updates: nat, renewals: nat :|
      && Aged(blob.data, created, updates, renewals)
      && w.openedAt.value <= created <= w.now
      && blob.data.sliceNumber <= updates <= most
      && renewals <= updates;
    assert Aged(blob.data, created, updates, renewals);
  }

  /** A retry that already carries the answer to its own slice: the response landed after the
      client looked for it and before it built the next request. */
  ghost predicate Overtaken(q: Request) {
    && !q.fallbackToDirect
    && q.sliceNumber >= 1
    && q.blob.Packed?
    && q.blob.data.sliceNumber == q.sliceNumber + 1
  }

  /** The current slice has sent such a retry. */
  ghost predicate Raced(w: World) {
    exists q :: q in w.sent && q.sliceNumber == w.client.sliceNumber && Overtaken(q)
  }

  ghost function MostUpdates(sliceNumber: nat, raced: bool): nat {
    if sliceNumber == 0 then 1 else if raced then 2 * sliceNumber + 1 else 2 * sliceNumber
  }

  ghost predicate RequestAged(w: World, q: Request) {
    !q.fallbackToDirect && q.sliceNumber >= 1 ==>
      AgedBlob(w, q.blob, if Overtaken(q) then 2 * q.sliceNumber else 2 * q.sliceNumber - 1)
  }

  ghost predicate ReplyAged(w: World, r: Response) {
    r.sessionId == w.client.sessionId ==>
      && !r.routeType.ContinueRoute?
      && AgedBlob(w, r.blob, MostUpdates(r.sliceNumber, r.sliceNumber < w.client.sliceNumber || Raced(w)))
  }

  ghost predicate HeldAged(w: World) {
    var c := w.client;
    !c.fallbackToDirect ==>
      && (c.receivedResponse ==> AgedBlob(w, c.blob, MostUpdates(c.sliceNumber, Raced(w))))
      && (!c.receivedResponse && c.sliceNumber >= 1 ==> AgedBlob(w, c.blob, 2 * c.sliceNumber - 1))
  }

  /** A race is the last request of its slice: the client has its response and stops retrying. */
  ghost predicate RaceEndsSlice(w: World) {
    && (Raced(w) ==>
          && w.client.receivedResponse
          && (w.client.phase.Sleeping? || w.client.phase.Closing? || w.client.phase.Wedged?))
    && (forall i :: 0 <= i < |w.sent| - 1 && Overtaken(w.sent[i]) ==>
          w.sent[i + 1].sliceNumber != w.sent[i].sliceNumber)
  }

  ghost predicate Timely(w: World) {
    && (w.openedAt.Some? ==> w.openedAt.value <= w.now)
    && RaceEndsSlice(w)
    && HeldAged(w)
    && (forall q :: q in w.sent ==> RequestAged(w, q))
    && (forall r :: r in w.replies ==> ReplyAged(w, r))
  }

  lemma SendKeepsRaceEnds(config: Config, w: World)
    requires HeldOk(w.client) && RaceEndsSlice(w)
    requires Enabled(config, w, SendStep)
    ensures RaceEndsSlice(Next(config, w, SendStep))
    ensures Raced(w) ==> Raced(Next(config, w, SendStep))
  {
    var w' := Next(config, w, SendStep);
    var packet := Outgoing(config.profile, w.client);
    assert w'.sent == w.sent + [packet];
    if Raced(w') {
      var q :| q in w'.sent && q.sliceNumber == w'.client.sliceNumber && Overtaken(q);
      assert q == packet;
    }
    forall i | 0 <= i < |w'.sent| - 1 && Overtaken(w'.sent[i])
      ensures w'.sent[i + 1].sliceNumber != w'.sent[i].sliceNumber
    {
      assert w'.sent[i] == w.sent[i];
      assert w.sent[i] in w.sent;
    }
  }

  lemma StepKeepsRaceEnds(config: Config, w: World, step: Step)
    requires Safe(config, w) && RaceEndsSlice(w)
    requires Enabled(config, w, step)
    ensures RaceEndsSlice(Next(config, w, step))
    ensures !step.SendStep? && !step.CloseStep? ==> Raced(Next(config, w, step)) == Raced(w)
    ensures Raced(w) && !step.CloseStep? ==> Raced(Next(config, w, step))
  {
    var w' := Next(config, w, step);
    if step.SendStep? {
      SendKeepsRaceEnds(config, w);
    } else if step.CloseStep? {
      if Raced(w') {
        var q :| q in w'.sent && q.sliceNumber == w'.client.sliceNumber && Overtaken(q);
        assert RequestOk(w.client, q);
      }
    } else if step.TickStep? {
      if Raced(w) {
        assert false;
      }
    }
  }

  /** The answer to one of the session's own requests is one update older than the request. */
  lemma OwnReplyAged(config: Config, w: World, q: Request, around: Surroundings)
    requires Safe(config, w) && Timely(w)
    requires Enabled(config, w, ServeStep(q, around))
    requires q in w.sent
    requires Handle(config.mode, q, around).Replies?
    ensures ReplyAged(Serve(config, w, q, around), Handle(config.mode, q, around).response)
  {
    var w' := Serve(config, w, q, around);
    var r := Handle(config.mode, q, around).response;
    ReplyFollowsRequest(config.mode, q, around);
    assert RequestOk(w.client, q) && RequestAged(w, q);
    assert Raced(w') == Raced(w);
    if q.sliceNumber == 0 {
      AnswerAges(config.mode, q, around, w.now, 0, 0);
      assert w'.openedAt.value <= w.now;
    } else {
      var most := if Overtaken(q) then 2 * q.sliceNumber else 2 * q.sliceNumber - 1;
      var created: nat, updates: nat, renewals: nat :|
        && Aged(q.blob.data, created, updates, renewals)
        && w.openedAt.value <= created <= w.now
        && q.blob.data.sliceNumber <= updates <= most
        && renewals <= updates;
      AnswerAges(config.mode, q, around, created, updates, renewals);
      assert Overtaken(q) && q.sliceNumber == w.client.sliceNumber ==> Raced(w);
    }
  }

  lemma ServeKeepsTimely(config: Config, w: World, q: Request, around: Surroundings)
    requires Safe(config, w) && Timely(w)
    requires Enabled(config, w, ServeStep(q, around))
    ensures Timely(Serve(config, w, q, around))
  {
    var w' := Serve(config, w, q, around);
    assert w'.openedAt == w.openedAt || w.openedAt.None?;
    assert Raced(w') == Raced(w);
    forall blob, most | AgedBlob(w, blob, most) ensures AgedBlob(w', blob, most) {
      AgedBlobGrows(w, w', blob, most, most);
    }
    assert forall p :: p in w'.sent ==> RequestAged(w, p);
    forall r | r in w'.replies ensures ReplyAged(w', r) {
      if r in w.replies {
        assert ReplyAged(w, r);
      } else {
        ReplyFollowsRequest(config.mode, q, around);
        if q in w.sent {
          OwnReplyAged(config, w, q, around);
        }
      }
    }
  }

  lemma SendKeepsTimely(config: Config, w: World)
    requires Safe(config, w) && Timely(w)
    requires Enabled(config, w, SendStep)
    ensures Timely(Next(config, w, SendStep))
  {
    var w' := Next(config, w, SendStep);
    StepKeepsRaceEnds(config, w, SendStep);
    var packet := Outgoing(config.profile, w.client);
    assert w'.sent == w.sent + [packet];
    assert !Raced(w);
    forall blob, most, most' | AgedBlob(w, blob, most) && most <= most' ensures AgedBlob(w', blob, most') {
      AgedBlobGrows(w, w', blob, most, most');
    }
    assert HeldAged(w);
    assert HeldOk(w.client);
    assert RequestAged(w', packet);
    forall q | q in w'.sent ensures RequestAged(w', q) {
      assert q == packet || RequestAged(w, q);
    }
    forall r | r in w'.replies ensures ReplyAged(w', r) {
      assert ReplyAged(w, r);
    }
  }

  lemma CloseKeepsTimely(config: Config, w: World, step: Step)
    requires Safe(config, w) && Timely(w)
    requires step.CloseStep? && Enabled(config, w, step)
    ensures Timely(Next(config, w, step))
  {
    var w' := Next(config, w, step);
    StepKeepsRaceEnds(config, w, step);
    forall blob, most, most' | AgedBlob(w, blob, most) && most <= most' ensures AgedBlob(w', blob, most') {
      AgedBlobGrows(w, w', blob, most, most');
    }
    forall q | q in w'.sent ensures RequestAged(w', q) {
      assert RequestAged(w, q);
    }
    forall r | r in w'.replies ensures ReplyAged(w', r) {
      assert ReplyOk(w.client, r) && ReplyAged(w, r);
    }
    assert HeldAged(w);
  }

  lemma OtherStepKeepsTimely(config: Config, w: World, step: Step)
    requires Safe(config, w) && Timely(w)
    requires Enabled(config, w, step)
    requires !step.ServeStep? && !step.SendStep? && !step.CloseStep?
    ensures Timely(Next(config, w, step))
  {
    var w' := Next(config, w, step);
    StepKeepsRaceEnds(config, w, step);
    forall blob, most | AgedBlob(w, blob, most) ensures AgedBlob(w', blob, most) {
      AgedBlobGrows(w, w', blob, most, most);
    }
    forall q | q in w'.sent ensures RequestAged(w', q) {
      assert RequestAged(w, q);
    }
    forall r | r in w'.replies ensures ReplyAged(w', r) {
      assert ReplyAged(w, r);
    }
    if step.DeliverStep? {
      assert ReplyOk(w.client, step.response) && ReplyAged(w, step.response);
    }
    assert HeldAged(w);
  }

  lemma {:induction false} RunIsTimely(config: Config, worlds: seq<World>, steps: seq<Step>, i: nat)
    requires IsRun(config, worlds, steps)
    requires i < |worlds|
    ensures Timely(worlds[i])
  {
    if i > 0 {
      RunIsTimely(config, worlds, steps, i - 1);
      RunIsSafe(config, worlds, steps, i - 1);
      var w, step := worlds[i - 1], steps[i - 1];
      match step
      case ServeStep(q, around) => ServeKeepsTimely(config, w, q, around);
      case SendStep => SendKeepsTimely(config, w);
      case CloseStep(_) => CloseKeepsTimely(config, w, step);
      case _ => OtherStepKeepsTimely(config, w, step);
    }
  }

  lemma ExpiryBounds(w: World, blob: Blob, most: nat)
    requires AgedBlob(w, blob, most)
    ensures w.openedAt.value + SLICE_SECONDS * blob.data.sliceNumber <= blob.data.expireTimestamp
    ensures blob.data.expireTimestamp <= w.now + SLICE_SECONDS * 2 * most
  {
  }

  /** In every run, every session data the backend hands to this session expires at least one slice
      length per slice after slice zero was first answered, and at most four slice lengths per
      slice from now; and the backend never continues a route. */
  lemma AnsweredDataExpiry(config: Config, worlds: seq<World>, steps: seq<Step>, i: nat, r: Response)
    requires IsRun(config, worlds, steps)
    requires i < |worlds|
    requires r in worlds[i].replies && r.sessionId == config.profile.sessionId
    ensures worlds[i].openedAt.Some? && r.blob.Packed? && !r.routeType.ContinueRoute?
    ensures var t0, data := worlds[i].openedAt.value, r.blob.data;
      && data.sliceNumber == r.sliceNumber + 1
      && t0 + 10 * data.sliceNumber <= data.expireTimestamp
      && data.expireTimestamp <= worlds[i].now + 10 * (4 * data.sliceNumber - 2)
  {
    var w := worlds[i];
    RunIsSafe(config, worlds, steps, i);
    RunIsTimely(config, worlds, steps, i);
    assert ReplyOk(w.client, r) && ReplyAged(w, r);
    ExpiryBounds(w, r.blob, MostUpdates(r.sliceNumber, r.sliceNumber < w.client.sliceNumber || Raced(w)));
  }

  /** The same lower bound for the data the client holds and for the data in every request it sent
      before falling back. */
  lemma HeldDataExpiry(config: Config, worlds: seq<World>, steps: seq<Step>, i: nat)
    requires IsRun(config, worlds, steps)
    requires i < |worlds|
    ensures var w := worlds[i];
      && (!w.client.fallbackToDirect && (w.client.receivedResponse || w.client.sliceNumber >= 1) ==>
            && w.openedAt.Some? && w.client.blob.Packed?
            && w.openedAt.value + 10 * w.client.blob.data.sliceNumber <= w.client.blob.data.expireTimestamp)
      && (forall q :: q in w.sent && !q.fallbackToDirect && q.sliceNumber >= 1 ==>
            && w.openedAt.Some? && q.blob.Packed?
            && w.openedAt.value + 10 * q.blob.data.sliceNumber <= q.blob.data.expireTimestamp)
  {
    var w := worlds[i];
    RunIsTimely(config, worlds, steps, i);
    forall blob, most | AgedBlob(w, blob, most)
      ensures w.openedAt.value + SLICE_SECONDS * blob.data.sliceNumber <= blob.data.expireTimestamp
    {
      ExpiryBounds(w, blob, most);
    }
    forall q | q in w.sent && !q.fallbackToDirect && q.sliceNumber >= 1
      ensures && w.openedAt.Some? && q.blob.Packed?
              && w.openedAt.value + SLICE_SECONDS * q.blob.data.sliceNumber <= q.blob.data.expireTimestamp
    {
      assert RequestAged(w, q);
    }
  }

  /** A retry overtaken by its own response is the last request of its slice, so the race happens at
      most once per slice. */
  lemma RaceIsLastRequest(config: Config, worlds: seq<World>, steps: seq<Step>, i: nat, k: nat)
    requires IsRun(config, worlds, steps)
    requires i < |worlds|
    requires k + 1 < |worlds[i].sent|
    requires Overtaken(worlds[i].sent[k])
    ensures worlds[i].sent[k + 1].sliceNumber == worlds[i].sent[k].sliceNumber + 1
  {
    RunIsTimely(config, worlds, steps, i);
    RunIsOrdered(config, worlds, steps, i);
    assert Follows(worlds[i].sent[k], worlds[i].sent[k + 1]);
  }
}
