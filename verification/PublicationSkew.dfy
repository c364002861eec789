/** How far apart the generations are that an instance serves at every instant, while one leader is in
    charge: exactly, for the leader itself; bounded on one side, for the others if redis accepts what the
    leader stores. */
module PublicationSkew {
  import opened Publication
  import opened PublicationStores

  // ----- the leader -----

  /** How many of the leader's updates gave up on a load since it last published: the count after a
      step that takes it from `i` to `j`. */
  function Tally(i: Instance, j: Instance, step: Step, l: nat, failed: nat): nat {
    if step.LoadStep? && step.p == l && j.phase.Idle? then failed + 1
    else if step.PublishStep? && step.p == l && i.phase == Publishing(RouteMatrix) then 0
    else failed
  }

  function FailedSince(states: seq<State>, steps: seq<Step>, l: nat, n: nat): nat
    requires n < |states| == |steps| + 1
    requires forall k :: 0 <= k <= n ==> l < |states[k].instances|
  {
    if n == 0 then 0
    else
      var i, j, failed := states[n - 1].instances[l], states[n].instances[l], FailedSince(states, steps, l, n - 1);
      Tally(i, j, steps[n - 1], l, failed)
  }

  /** What the leader serves, by where it is in its update and how many updates failed. */
  ghost predicate LeaderServes(i: Instance, failed: nat) {
    var t, g := i.served, i.generation;
    && t.relays == (if Halfway(i) then g else t.routeMatrix)
    && t.costMatrix == (if i.phase == Publishing(RouteMatrix) then g else t.routeMatrix)
    && t.routeMatrix + failed + (if i.phase.Idle? then 0 else 1) == g
  }

  lemma LeaderMoveServes(i: Instance, step: Step, source: Triple, l: nat, failed: nat)
    requires StoredInOrder(i) && LeaderLoadsOwn(i) && LeaderServes(i, failed)
    requires step.BeginStep? ==> i.phase.Idle?
    requires step.LoadStep? ==> i.phase.Loading?
    requires step.PublishStep? ==> i.phase.Publishing?
    requires !step.ClockStep? && step.p == l
    ensures var j := Move(i, step, source); LeaderServes(j, Tally(i, j, step, l, failed))
  {
  }

  lemma {:induction false} RunLeaderServes(states: seq<State>, steps: seq<Step>, l: nat, n: nat)
    requires IsRun(states, steps) && SteadyLeader(steps, l)
    requires n < |states| && l < |states[0].instances|
    ensures forall k :: 0 <= k <= n ==> l < |states[k].instances|
    ensures LeaderServes(states[n].instances[l], FailedSince(states, steps, l, n))
  {
    forall k | 0 <= k <= n ensures l < |states[k].instances| {
      RunIsSteady(states, steps, l, k);
    }
    if n > 0 {
      RunLeaderServes(states, steps, l, n - 1);
      RunIsSteady(states, steps, l, n - 1);
      var s, step := states[n - 1], steps[n - 1];
      assert Enabled(s, step) && states[n] == Next(s, step);
      if !step.ClockStep? && step.p == l {
        LeaderMoveServes(s.instances[l], step, Source(s, s.instances[l]), l, FailedSince(states, steps, l, n - 1));
      } else {
        assert states[n].instances[l] == s.instances[l];
      }
    }
  }

  /** At every instant, the leader serves what redis last accepted from it: up to now for what it has
      replaced halfway through publishing, and up to its last publication for the rest. So it serves one
      generation exactly if these stores were of one generation. If redis accepts all its stores, it
      serves no blob newer than one it replaces before it, and the route matrix is behind only halfway
      through publishing: by one generation and one more for each update that failed since it last
      published, and thus at most one exactly if none failed or it is not halfway. */
  lemma LeaderServesExactly(states: seq<State>, steps: seq<Step>, l: nat, n: nat)
    requires IsRun(states, steps) && OneLeader(steps, l)
    requires n < |states| && l < |states[0].instances|
    ensures forall k :: 0 <= k <= n ==> l < |states[k].instances|
    ensures var i, m := states[n].instances[l], LastPublished(states, steps, l, n);
      var relays := LastAccepted(states, steps, l, Relays, if Halfway(i) then n else m);
      var costs := LastAccepted(states, steps, l, CostMatrix, if i.phase == Publishing(RouteMatrix) then n else m);
      var routes := LastAccepted(states, steps, l, RouteMatrix, m);
      i.served == Triple(relays, costs, routes) && (OneGeneration(i.served) <==> relays == costs == routes)
    ensures SteadyLeader(steps, l) ==>
      var i, failed := states[n].instances[l], FailedSince(states, steps, l, n);
      && i.generation >= i.served.relays >= i.served.costMatrix >= i.served.routeMatrix
      && i.served.relays - i.served.routeMatrix == (if Halfway(i) then failed + 1 else 0)
      && (i.served.routeMatrix >= i.served.relays - 1 <==> !Halfway(i) || failed == 0)
  {
    forall k | 0 <= k <= n ensures l < |states[k].instances| {
      RunIsFollowed(states, steps, l, k);
    }
    RunLeaderServesAccepted(states, steps, l, n);
    if SteadyLeader(steps, l) {
      RunLeaderServes(states, steps, l, n);
    }
  }

  // ----- any instance -----

  /** What is served is not newer than what can be loaded in its place or after it. */
  predicate NotAhead(t: Triple, source: Triple) {
    t.costMatrix <= source.relays && t.routeMatrix <= source.relays && t.routeMatrix <= source.costMatrix
  }

  /** A blob that has been replaced is not older than those that are yet to be. */
  ghost predicate Fresher(i: Instance, source: Triple) {
    var t, u := i.served, i.loaded;
    && (!Halfway(i) ==> NotAhead(t, source))
    && (i.phase == Loading(CostMatrix) || i.phase == Loading(RouteMatrix) || i.phase == Publishing(Relays) ==>
          t.costMatrix <= u.relays && t.routeMatrix <= u.relays)
    && (i.phase == Loading(RouteMatrix) || i.phase == Publishing(Relays) || i.phase == Publishing(CostMatrix) ==>
          t.routeMatrix <= u.costMatrix)
    && (i.phase == Loading(RouteMatrix) || i.phase.Publishing? ==> u.costMatrix <= source.relays)
    && (i.phase.Publishing? ==> u.routeMatrix <= source.relays && u.routeMatrix <= source.costMatrix)
    && (Halfway(i) ==> t.routeMatrix <= t.relays)
    && (i.phase == Publishing(CostMatrix) ==> t.costMatrix <= t.relays && t.costMatrix <= t.routeMatrix + 1)
    && (i.phase == Publishing(RouteMatrix) ==> t.routeMatrix <= t.costMatrix)
  }

  predicate Descending(t: Triple) {
    t.relays >= t.costMatrix >= t.routeMatrix
  }

  lemma MoveKeepsFresher(i: Instance, step: Step, source: Triple, now: Triple)
    requires Fresher(i, now) && LoadedBehind(i, now) && Descending(now)
    requires step.BeginStep? ==> i.phase.Idle?
    requires source == now || source == NOTHING
    ensures Fresher(Move(i, step, source), now)
  {
  }

  lemma FresherLater(i: Instance, source: Triple, later: Triple)
    requires Fresher(i, source) && NoNewer(source, later)
    ensures Fresher(i, later)
  {
  }

  lemma StepKeepsFresher(s: State, step: Step, l: nat, p: nat)
    requires l < |s.instances| && p < |s.instances| && Steady(s, l) && Enabled(s, step)
    requires NotRefused(step, l)
    requires Fresher(s.instances[p], s.instances[l].stored)
    ensures |Next(s, step).instances| == |s.instances|
    ensures Fresher(Next(s, step).instances[p], Next(s, step).instances[l].stored)
  {
    var now := s.instances[l].stored;
    LeaderOnlyGrows(s, step, l);
    if !step.ClockStep? && step.p == p {
      assert LoadedBehind(s.instances[p], now);
      MoveKeepsFresher(s.instances[p], step, Source(s, s.instances[p]), now);
    }
    FresherLater(Next(s, step).instances[p], now, Next(s, step).instances[l].stored);
  }

  lemma {:induction false} RunIsFresher(states: seq<State>, steps: seq<Step>, l: nat, n: nat, p: nat)
    requires IsRun(states, steps) && OneLeader(steps, l)
    requires n < |states| && l < |states[0].instances| && p < |states[0].instances|
    ensures |states[n].instances| == |states[0].instances|
    ensures NoNewer(states[n].instances[p].served, states[n].instances[l].stored)
    ensures SteadyLeader(steps, l) ==> Fresher(states[n].instances[p], states[n].instances[l].stored)
  {
    RunIsFollowed(states, steps, l, n);
    ServedWithinStored(states, steps, l, n, p);
    if n > 0 && SteadyLeader(steps, l) {
      RunIsFresher(states, steps, l, n - 1, p);
      RunIsSteady(states, steps, l, n - 1);
      StepKeepsFresher(states[n - 1], steps[n - 1], l, p);
    }
  }

  lemma LeaderOnlyGrows(s: State, step: Step, l: nat)
    requires l < |s.instances| && Steady(s, l) && Enabled(s, step)
    requires NotRefused(step, l)
    ensures l < |Next(s, step).instances|
    ensures Descending(s.instances[l].stored) && NoNewer(s.instances[l].stored, Next(s, step).instances[l].stored)
  {
    if !step.ClockStep? && step.p == l {
      LeaderMoves(s.instances[l], step, Source(s, s.instances[l]));
    }
  }

  /** What any instance serves at any instant is not newer than what redis holds of the leader's. If redis
      accepts all the leader's stores, then between publications no blob is more than one generation older
      than one before it. Halfway, what has been replaced is not older than what is yet to be, and within
      what is old, and within what is new, none is more than one generation older than one before it. */
  lemma ServedAtEveryInstant(states: seq<State>, steps: seq<Step>, l: nat, n: nat, p: nat)
    requires IsRun(states, steps) && OneLeader(steps, l)
    requires n < |states| && l < |states[0].instances| && p < |states[0].instances|
    ensures |states[n].instances| == |states[0].instances|
    ensures NoNewer(states[n].instances[p].served, states[n].instances[l].stored)
    ensures SteadyLeader(steps, l) ==>
      var i := states[n].instances[p]; var t := i.served;
      if i.phase == Publishing(CostMatrix) then
        t.relays >= t.costMatrix && t.relays >= t.routeMatrix && t.costMatrix <= t.routeMatrix + 1
      else if i.phase == Publishing(RouteMatrix) then
        t.relays <= t.costMatrix + 1 && t.relays >= t.routeMatrix && t.costMatrix >= t.routeMatrix
      else Skewed(t)
  {
    RunIsFresher(states, steps, l, n, p);
    if SteadyLeader(steps, l) {
      RunIsSteady(states, steps, l, n);
      var i := states[n].instances[p];
      assert LoadedBehind(i, states[n].instances[l].stored);
      if i.phase.Publishing? {
        match i.phase.part
        case Relays => assert i.phase == Publishing(Relays);
        case CostMatrix =>
        case RouteMatrix =>
      }
    }
  }

  // ----- when an instance serves one generation -----

  /** How often the leader stores one of the blobs from step `a` on, before step `b`. */
  function Stores(states: seq<State>, steps: seq<Step>, l: nat, part: Part, a: nat, b: nat): nat
    requires a <= b < |states| == |steps| + 1
    requires forall k :: 0 <= k < |states| ==> l < |states[k].instances|
  {
    if a == b then 0
    else
      var step := steps[b - 1];
      Stores(states, steps, l, part, a, b - 1)
      + if step.StoreStep? && step.p == l && states[b - 1].instances[l].phase == Storing(part) then 1 else 0
  }

  lemma StepStores(s: State, step: Step, l: nat, part: Part)
    requires l < |s.instances| && Steady(s, l) && Enabled(s, step)
    requires NotRefused(step, l)
    ensures l < |Next(s, step).instances|
    ensures Get(Next(s, step).instances[l].stored, part) == Get(s.instances[l].stored, part)
      + if step.StoreStep? && step.p == l && s.instances[l].phase == Storing(part) then 1 else 0
  {
  }

  lemma {:induction false} StoredCounts(states: seq<State>, steps: seq<Step>, l: nat, part: Part, a: nat, b: nat)
    requires IsRun(states, steps) && SteadyLeader(steps, l) && l < |states[0].instances|
    requires a <= b < |states|
    requires forall k :: 0 <= k < |states| ==> l < |states[k].instances|
    ensures Get(states[b].instances[l].stored, part)
         == Get(states[a].instances[l].stored, part) + Stores(states, steps, l, part, a, b)
  {
    if a < b {
      StoredCounts(states, steps, l, part, a, b - 1);
      RunIsSteady(states, steps, l, b - 1);
      StepStores(states[b - 1], steps[b - 1], l, part);
    }
  }

  /** Instance `p` loads a blob at step `k`, and finds one. */
  ghost predicate LoadsAt(states: seq<State>, steps: seq<Step>, p: nat, k: nat, part: Part) {
    && k < |steps| < |states| && p < |states[k].instances| && p < |states[k + 1].instances|
    && steps[k].LoadStep? && steps[k].p == p
    && states[k].instances[p].phase == Loading(part)
    && !states[k + 1].instances[p].phase.Idle?
  }

  ghost predicate PublishesAt(states: seq<State>, steps: seq<Step>, p: nat, k: nat, part: Part) {
    && k < |steps| < |states| && p < |states[k].instances|
    && steps[k].PublishStep? && steps[k].p == p
    && states[k].instances[p].phase == Publishing(part)
  }

  /** Between two of its own steps an instance may at most hear of its leader. */
  ghost predicate Waits(steps: seq<Step>, p: nat, a: nat, b: nat) {
    forall k :: a < k < b && k < |steps| ==> steps[k].ClockStep? || steps[k].ElectStep? || steps[k].p != p
  }

  predicate SameWork(i: Instance, j: Instance) {
    i.(leader := j.leader) == j
  }

  lemma {:induction false} WaitingChangesNothing(states: seq<State>, steps: seq<Step>, p: nat, a: nat, b: nat)
    requires IsRun(states, steps) && a < b < |states| && Waits(steps, p, a, b)
    requires p < |states[a + 1].instances|
    ensures p < |states[b].instances| && SameWork(states[a + 1].instances[p], states[b].instances[p])
    decreases b
  {
    if a + 1 < b {
      WaitingChangesNothing(states, steps, p, a, b - 1);
      assert Enabled(states[b - 1], steps[b - 1]) && states[b] == Next(states[b - 1], steps[b - 1]);
    }
  }

  /** A load that finds something finds what is stored under the name of the leader of the moment. */
  lemma LoadTakes(states: seq<State>, steps: seq<Step>, p: nat, k: nat, part: Part)
    requires IsRun(states, steps) && LoadsAt(states, steps, p, k, part)
    ensures var i, j := states[k].instances[p], states[k + 1].instances[p];
      && j.loaded == Put(i.loaded, part, Offered(states, p, part, k))
      && i.leader.Some?
      && j.phase == (match part
                     case Relays => Loading(CostMatrix)
                     case CostMatrix => Loading(RouteMatrix)
                     case RouteMatrix => Publishing(Relays))
  {
    assert states[k + 1] == Next(states[k], steps[k]);
  }

  /** The three loads of one update take each blob as its leader's name has it at that moment, whoever is
      elected and whatever redis refuses. */
  lemma TripleLoaded(states: seq<State>, steps: seq<Step>, p: nat, a: nat, b: nat, c: nat)
    requires IsRun(states, steps)
    requires a < b < c && Waits(steps, p, a, b) && Waits(steps, p, b, c)
    requires LoadsAt(states, steps, p, a, Relays) && LoadsAt(states, steps, p, b, CostMatrix)
    requires LoadsAt(states, steps, p, c, RouteMatrix)
    ensures var i := states[c + 1].instances[p];
      && i.phase == Publishing(Relays)
      && i.loaded == Triple(Offered(states, p, Relays, a), Offered(states, p, CostMatrix, b),
                            Offered(states, p, RouteMatrix, c))
  {
    LoadTakes(states, steps, p, a, Relays);
    LoadTakes(states, steps, p, b, CostMatrix);
    LoadTakes(states, steps, p, c, RouteMatrix);
    WaitingChangesNothing(states, steps, p, a, b);
    WaitingChangesNothing(states, steps, p, b, c);
  }

  lemma PublishPuts(states: seq<State>, steps: seq<Step>, p: nat, k: nat, part: Part)
    requires IsRun(states, steps) && PublishesAt(states, steps, p, k, part)
    ensures p < |states[k + 1].instances|
    ensures var i, j := states[k].instances[p], states[k + 1].instances[p];
      j.loaded == i.loaded && j.served == Put(i.served, part, Get(i.loaded, part))
  {
    assert states[k + 1] == Next(states[k], steps[k]);
  }

  /** After the three publications of an update the instance serves what it had loaded. */
  lemma LoadedIsServed(states: seq<State>, steps: seq<Step>, p: nat, c: nat, d: nat, e: nat, f: nat)
    requires IsRun(states, steps) && c < d < e < f < |steps|
    requires p < |states[c + 1].instances|
    requires Waits(steps, p, c, d) && Waits(steps, p, d, e) && Waits(steps, p, e, f)
    requires PublishesAt(states, steps, p, d, Relays) && PublishesAt(states, steps, p, e, CostMatrix)
    requires PublishesAt(states, steps, p, f, RouteMatrix)
    ensures p < |states[f + 1].instances|
    ensures states[f + 1].instances[p].served == states[c + 1].instances[p].loaded
  {
    PublishPuts(states, steps, p, d, Relays);
    PublishPuts(states, steps, p, e, CostMatrix);
    PublishPuts(states, steps, p, f, RouteMatrix);
    WaitingChangesNothing(states, steps, p, c, d);
    WaitingChangesNothing(states, steps, p, d, e);
    WaitingChangesNothing(states, steps, p, e, f);
  }

  /** Whether the leader had stored new relays, and not yet the other blob, when the first load came. */
  function Owed(s: State, l: nat, part: Part): int
    requires l < |s.instances|
  {
    s.instances[l].stored.relays - Get(s.instances[l].stored, part)
  }

  /** The six steps of an update of instance `p` that finds all three blobs. */
  ghost predicate UpdatesAt(
      states: seq<State>, steps: seq<Step>, p: nat, a: nat, b: nat, c: nat, d: nat, e: nat, f: nat) {
    && a < b < c < d < e < f < |steps|
    && Waits(steps, p, a, b) && Waits(steps, p, b, c) && Waits(steps, p, c, d)
    && Waits(steps, p, d, e) && Waits(steps, p, e, f)
    && LoadsAt(states, steps, p, a, Relays) && LoadsAt(states, steps, p, b, CostMatrix)
    && LoadsAt(states, steps, p, c, RouteMatrix)
    && PublishesAt(states, steps, p, d, Relays) && PublishesAt(states, steps, p, e, CostMatrix)
    && PublishesAt(states, steps, p, f, RouteMatrix)
  }

  lemma AcceptedIsLoaded(states: seq<State>, steps: seq<Step>, l: nat, p: nat, k: nat, part: Part)
    requires IsRun(states, steps) && OneLeader(steps, l) && l < |states[0].instances|
    requires LoadsAt(states, steps, p, k, part)
    ensures Offered(states, p, part, k) == LastAccepted(states, steps, l, part, k)
  {
    LoadTakes(states, steps, p, k, part);
    OfferedIsAccepted(states, steps, l, p, part, k);
  }

  /** For a leader whose stores are all accepted, counting its stores tells whether they are in step. */
  lemma AcceptedByCount(states: seq<State>, steps: seq<Step>, l: nat, a: nat, b: nat, c: nat)
    requires IsRun(states, steps) && SteadyLeader(steps, l) && l < |states[0].instances|
    requires a <= b <= c < |states| && forall k :: 0 <= k < |states| ==> l < |states[k].instances|
    ensures 0 <= Owed(states[a], l, CostMatrix) <= Owed(states[a], l, RouteMatrix) <= 1
    ensures
      && LastAccepted(states, steps, l, Relays, a) == LastAccepted(states, steps, l, CostMatrix, b)
      && LastAccepted(states, steps, l, Relays, a) == LastAccepted(states, steps, l, RouteMatrix, c)
      <==>
      && Stores(states, steps, l, CostMatrix, a, b) == Owed(states[a], l, CostMatrix)
      && Stores(states, steps, l, RouteMatrix, a, c) == Owed(states[a], l, RouteMatrix)
  {
    StoredAreLastAccepted(states, steps, l, a);
    StoredIsLastAccepted(states, steps, l, CostMatrix, b);
    StoredIsLastAccepted(states, steps, l, RouteMatrix, c);
    StoredCounts(states, steps, l, CostMatrix, a, b);
    StoredCounts(states, steps, l, RouteMatrix, a, c);
    RunIsSteady(states, steps, l, a);
  }

  /** An update of any instance, from its first load to its last publication, ends with blobs of one
      generation if and only if redis had last accepted one generation of each blob from the leader when
      the blob was loaded. If redis accepts all the leader's stores, that is so if and only if between the
      first load and the load of each matrix the leader stores that matrix exactly as often as it owed it
      at the first load: once if it was between storing the relays and the matrix, and not at all otherwise. */
  lemma OneGenerationExactly(
      states: seq<State>, steps: seq<Step>, l: nat, p: nat, a: nat, b: nat, c: nat, d: nat, e: nat, f: nat)
    requires IsRun(states, steps) && OneLeader(steps, l) && l < |states[0].instances|
    requires UpdatesAt(states, steps, p, a, b, c, d, e, f)
    ensures p < |states[f + 1].instances| && forall k :: 0 <= k < |states| ==> l < |states[k].instances|
    ensures OneGeneration(states[f + 1].instances[p].served) <==>
      LastAccepted(states, steps, l, Relays, a)
      == LastAccepted(states, steps, l, CostMatrix, b)
      == LastAccepted(states, steps, l, RouteMatrix, c)
    ensures SteadyLeader(steps, l) ==> 0 <= Owed(states[a], l, CostMatrix) <= Owed(states[a], l, RouteMatrix) <= 1
    ensures SteadyLeader(steps, l) ==>
      (OneGeneration(states[f + 1].instances[p].served) <==>
       && Stores(states, steps, l, CostMatrix, a, b) == Owed(states[a], l, CostMatrix)
       && Stores(states, steps, l, RouteMatrix, a, c) == Owed(states[a], l, RouteMatrix))
  {
    forall k | 0 <= k < |states| ensures l < |states[k].instances| {
      RunIsFollowed(states, steps, l, k);
    }
    TripleLoaded(states, steps, p, a, b, c);
    LoadedIsServed(states, steps, p, c, d, e, f);
    AcceptedIsLoaded(states, steps, l, p, a, Relays);
    AcceptedIsLoaded(states, steps, l, p, b, CostMatrix);
    AcceptedIsLoaded(states, steps, l, p, c, RouteMatrix);
    if SteadyLeader(steps, l) {
      AcceptedByCount(states, steps, l, a, b, c);
    }
  }
}
