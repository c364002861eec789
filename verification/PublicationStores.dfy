/** Which generations an instance serves, whether or not redis accepts what is stored: each served blob
    is the one last accepted from the leader when the blob was loaded. */
module PublicationStores {
  import opened Common
  import opened Publication

  predicate Halfway(i: Instance) {
    i.phase == Publishing(CostMatrix) || i.phase == Publishing(RouteMatrix)
  }

  predicate OneGeneration(t: Triple) {
    t.relays == t.costMatrix == t.routeMatrix
  }

  // ----- what redis holds -----

  /** Redis accepts one of the blobs from instance `l`. */
  predicate Accepts(s: State, step: Step, l: nat, part: Part) {
    step == StoreStep(l, true) && l < |s.instances| && s.instances[l].phase == Storing(part)
  }

  /** The generation that redis last accepted from instance `l`, before step `n`. */
  function LastAccepted(states: seq<State>, steps: seq<Step>, l: nat, part: Part, n: nat): nat
    requires n <= |steps| < |states|
  {
    if n == 0 then 0
    else if Accepts(states[n - 1], steps[n - 1], l, part) then states[n - 1].instances[l].generation
    else LastAccepted(states, steps, l, part, n - 1)
  }

  /** What redis holds is what it last accepted. */
  lemma {:induction false} StoredIsLastAccepted(states: seq<State>, steps: seq<Step>, l: nat, part: Part, n: nat)
    requires IsRun(states, steps) && n < |states| && l < |states[n].instances|
    ensures Get(states[n].instances[l].stored, part) == LastAccepted(states, steps, l, part, n)
  {
    if n > 0 {
      var s, step := states[n - 1], steps[n - 1];
      assert Enabled(s, step) && states[n] == Next(s, step);
      StoredIsLastAccepted(states, steps, l, part, n - 1);
    }
  }

  predicate WithinGeneration(i: Instance) {
    i.stored.relays <= i.generation && i.stored.costMatrix <= i.generation && i.stored.routeMatrix <= i.generation
  }

  lemma {:induction false} RunIsWithinGeneration(states: seq<State>, steps: seq<Step>, l: nat, n: nat)
    requires IsRun(states, steps) && n < |states| && l < |states[n].instances|
    ensures WithinGeneration(states[n].instances[l])
  {
    if n > 0 {
      assert Enabled(states[n - 1], steps[n - 1]) && states[n] == Next(states[n - 1], steps[n - 1]);
      RunIsWithinGeneration(states, steps, l, n - 1);
    }
  }

  /** What redis holds never goes back to an older generation. */
  lemma {:induction false} StoredGrows(states: seq<State>, steps: seq<Step>, l: nat, m: nat, n: nat)
    requires IsRun(states, steps) && m <= n < |states| && l < |states[n].instances|
    ensures l < |states[m].instances| && NoNewer(states[m].instances[l].stored, states[n].instances[l].stored)
    decreases n
  {
    if m < n {
      assert Enabled(states[n - 1], steps[n - 1]) && states[n] == Next(states[n - 1], steps[n - 1]);
      RunIsWithinGeneration(states, steps, l, n - 1);
      StoredGrows(states, steps, l, m, n - 1);
    }
  }

  // ----- when the blobs were loaded -----

  /** The steps at which an instance loaded the blobs it holds, and those it serves. */
  datatype Times = Times(loaded: Triple, served: Triple)

  function Ticked(t: Times, i: Instance, step: Step, source: Triple, now: nat): Times {
    match step
    case LoadStep(_, ok) =>
      if i.phase.Loading? && ok && Get(source, i.phase.part) != 0 then
        t.(loaded := Put(t.loaded, i.phase.part, now))
      else t
    case PublishStep(_) =>
      if i.phase.Publishing? then t.(served := Put(t.served, i.phase.part, Get(t.loaded, i.phase.part))) else t
    case _ => t
  }

  function TimesOf(states: seq<State>, steps: seq<Step>, p: nat, n: nat): Times
    requires n <= |steps| < |states|
  {
    if n == 0 then Times(NOTHING, NOTHING)
    else
      var t, s, step := TimesOf(states, steps, p, n - 1), states[n - 1], steps[n - 1];
      if step.ClockStep? || step.p != p || p >= |s.instances| then t
      else Ticked(t, s.instances[p], step, Source(s, s.instances[p]), n - 1)
  }

  /** The blobs of one update are loaded in order, and after the update before. */
  ghost predicate TimesInOrder(i: Instance, t: Times, now: nat) {
    var u, v := t.loaded, t.served;
    && u.relays <= now && u.costMatrix <= now && u.routeMatrix <= now
    && v.relays <= now && v.costMatrix <= now && v.routeMatrix <= now
    && (!Halfway(i) ==> v.relays <= v.costMatrix <= v.routeMatrix)
    && (i.phase == Publishing(CostMatrix) ==> v.costMatrix <= v.routeMatrix)
    && (i.phase == Loading(CostMatrix) || i.phase == Loading(RouteMatrix) || i.phase.Publishing? ==>
          v.routeMatrix <= u.relays)
    && (i.phase == Loading(RouteMatrix) || i.phase.Publishing? ==> u.relays <= u.costMatrix)
    && (i.phase.Publishing? ==> u.costMatrix <= u.routeMatrix)
    && (Halfway(i) ==> v.relays == u.relays)
    && (i.phase == Publishing(RouteMatrix) ==> v.costMatrix == u.costMatrix)
  }

  lemma TickKeepsOrder(i: Instance, t: Times, step: Step, source: Triple, now: nat)
    requires TimesInOrder(i, t, now)
    requires step.BeginStep? ==> i.phase.Idle?
    ensures TimesInOrder(Move(i, step, source), Ticked(t, i, step, source, now), now + 1)
  {
  }

  lemma WaitKeepsOrder(i: Instance, t: Times, now: nat)
    requires TimesInOrder(i, t, now)
    ensures TimesInOrder(i, t, now + 1)
  {
  }

  /** What a step does to instance `p`. */
  lemma StepMoves(s: State, step: Step, p: nat)
    requires Enabled(s, step) && p < |s.instances|
    ensures |Next(s, step).instances| == |s.instances|
    ensures Next(s, step).instances[p]
      == if step.ClockStep? || step.p != p then s.instances[p]
         else Move(s.instances[p], step, Source(s, s.instances[p]))
    ensures !step.ClockStep? && step.p == p && step.BeginStep? ==> s.instances[p].phase.Idle?
  {
  }

  lemma {:induction false} RunTimesInOrder(states: seq<State>, steps: seq<Step>, n: nat, p: nat)
    requires IsRun(states, steps) && n < |states| && p < |states[n].instances|
    ensures TimesInOrder(states[n].instances[p], TimesOf(states, steps, p, n), n)
  {
    if n > 0 {
      var s, step := states[n - 1], steps[n - 1];
      assert Enabled(s, step) && states[n] == Next(s, step);
      RunTimesInOrder(states, steps, n - 1, p);
      StepMoves(s, step, p);
      var i, t := s.instances[p], TimesOf(states, steps, p, n - 1);
      if step.ClockStep? || step.p != p {
        WaitKeepsOrder(i, t, n - 1);
      } else {
        TickKeepsOrder(i, t, step, Source(s, i), n - 1);
      }
    }
  }

  // ----- what is served -----

  /** What redis held under the name of the leader that instance `p` followed at step `k`. */
  function Offered(states: seq<State>, p: nat, part: Part, k: nat): nat {
    if k < |states| && p < |states[k].instances| then Get(Source(states[k], states[k].instances[p]), part) else 0
  }

  /** The triple is what was offered at these times. */
  ghost predicate OfferedAt(states: seq<State>, p: nat, t: Triple, times: Triple) {
    && t.relays == Offered(states, p, Relays, times.relays)
    && t.costMatrix == Offered(states, p, CostMatrix, times.costMatrix)
    && t.routeMatrix == Offered(states, p, RouteMatrix, times.routeMatrix)
  }

  lemma LoadIsOffered(states: seq<State>, p: nat, t: Triple, times: Triple, part: Part, k: nat)
    requires OfferedAt(states, p, t, times)
    ensures OfferedAt(states, p, Put(t, part, Offered(states, p, part, k)), Put(times, part, k))
  {
  }

  lemma CopyIsOffered(states: seq<State>, p: nat, t: Triple, times: Triple, u: Triple, times': Triple, part: Part)
    requires OfferedAt(states, p, t, times) && OfferedAt(states, p, u, times')
    ensures OfferedAt(states, p, Put(t, part, Get(u, part)), Put(times, part, Get(times', part)))
  {
  }

  lemma TickKeepsOffered(states: seq<State>, n: nat, p: nat, step: Step, t: Times)
    requires n < |states| && p < |states[n].instances|
    requires OfferedAt(states, p, states[n].instances[p].loaded, t.loaded)
    requires OfferedAt(states, p, states[n].instances[p].served, t.served)
    ensures var i, source := states[n].instances[p], Source(states[n], states[n].instances[p]);
      var j, u := Move(i, step, source), Ticked(t, i, step, source, n);
      OfferedAt(states, p, j.loaded, u.loaded) && OfferedAt(states, p, j.served, u.served)
  {
    var i, source := states[n].instances[p], Source(states[n], states[n].instances[p]);
    if step.LoadStep? && i.phase.Loading? {
      LoadIsOffered(states, p, i.loaded, t.loaded, i.phase.part, n);
    } else if step.PublishStep? && i.phase.Publishing? {
      CopyIsOffered(states, p, i.served, t.served, i.loaded, t.loaded, i.phase.part);
    }
  }

  lemma {:induction false} RunIsOffered(states: seq<State>, steps: seq<Step>, n: nat, p: nat)
    requires IsRun(states, steps) && n < |states| && p < |states[n].instances|
    ensures var i, t := states[n].instances[p], TimesOf(states, steps, p, n);
      OfferedAt(states, p, i.loaded, t.loaded) && OfferedAt(states, p, i.served, t.served)
  {
    if n == 0 {
      assert states[0].instances[p].leader == None;
    } else {
      var s, step := states[n - 1], steps[n - 1];
      assert Enabled(s, step) && states[n] == Next(s, step);
      RunIsOffered(states, steps, n - 1, p);
      if !step.ClockStep? && step.p == p {
        TickKeepsOffered(states, n - 1, p, step, TimesOf(states, steps, p, n - 1));
      }
    }
  }

  /** At every instant of every run, whoever is elected and whatever redis refuses: what an instance
      serves is, blob by blob, what redis held under the name of its leader when it loaded the blob, and
      it loaded them in the order in which it replaces them. */
  lemma ServedWasStored(states: seq<State>, steps: seq<Step>, n: nat, p: nat)
    requires IsRun(states, steps) && n < |states| && p < |states[n].instances|
    ensures var i, t := states[n].instances[p], TimesOf(states, steps, p, n).served;
      && OfferedAt(states, p, i.served, t)
      && if i.phase == Publishing(CostMatrix) then t.costMatrix <= t.routeMatrix <= t.relays <= n
         else if i.phase == Publishing(RouteMatrix) then t.routeMatrix <= t.relays <= t.costMatrix <= n
         else t.relays <= t.costMatrix <= t.routeMatrix <= n
  {
    RunIsOffered(states, steps, n, p);
    RunTimesInOrder(states, steps, n, p);
  }

  // ----- one leader -----

  lemma OfferedIsAccepted(states: seq<State>, steps: seq<Step>, l: nat, p: nat, part: Part, k: nat)
    requires IsRun(states, steps) && OneLeader(steps, l) && l < |states[0].instances|
    requires k < |states| && p < |states[k].instances|
    ensures Offered(states, p, part, k)
      == if states[k].instances[p].leader.None? then 0 else LastAccepted(states, steps, l, part, k)
  {
    RunIsFollowed(states, steps, l, k);
    StoredIsLastAccepted(states, steps, l, part, k);
  }

  lemma OfferedGrows(states: seq<State>, steps: seq<Step>, l: nat, p: nat, part: Part, j: nat, k: nat)
    requires IsRun(states, steps) && OneLeader(steps, l) && l < |states[0].instances|
    requires j <= k < |states| && p < |states[j].instances| && p < |states[k].instances|
    requires Offered(states, p, part, k) > 0
    ensures Offered(states, p, part, j) <= Offered(states, p, part, k)
  {
    RunIsFollowed(states, steps, l, j);
    RunIsFollowed(states, steps, l, k);
    StoredGrows(states, steps, l, j, k);
  }

  lemma {:induction false} SameCount(states: seq<State>, steps: seq<Step>, m: nat, n: nat)
    requires IsRun(states, steps) && m <= n < |states|
    ensures |states[m].instances| == |states[n].instances|
    decreases n
  {
    if m < n {
      assert Enabled(states[n - 1], steps[n - 1]) && states[n] == Next(states[n - 1], steps[n - 1]);
      SameCount(states, steps, m, n - 1);
    }
  }

  lemma PartIsAccepted(states: seq<State>, steps: seq<Step>, l: nat, n: nat, p: nat, part: Part)
    requires IsRun(states, steps) && OneLeader(steps, l) && l < |states[0].instances|
    requires n < |states| && p < |states[n].instances|
    ensures var g, k := Get(states[n].instances[p].served, part), Get(TimesOf(states, steps, p, n).served, part);
      k <= n && (g > 0 ==> g == LastAccepted(states, steps, l, part, k))
  {
    ServedWasStored(states, steps, n, p);
    var k := Get(TimesOf(states, steps, p, n).served, part);
    SameCount(states, steps, k, n);
    OfferedIsAccepted(states, steps, l, p, part, k);
  }

  /** Under one leader, what any instance serves at any instant is what redis last accepted from the
      leader before each load. So it serves one generation exactly if it has published nothing yet, or
      the last accepted stores before the three loads were of one generation. */
  lemma ServedIsAccepted(states: seq<State>, steps: seq<Step>, l: nat, n: nat, p: nat)
    requires IsRun(states, steps) && OneLeader(steps, l) && l < |states[0].instances|
    requires n < |states| && p < |states[n].instances|
    ensures var i, t := states[n].instances[p], TimesOf(states, steps, p, n).served;
      && t.relays <= n && t.costMatrix <= n && t.routeMatrix <= n
      && (forall part :: Get(i.served, part) > 0 ==>
            Get(t, part) <= n && Get(i.served, part) == LastAccepted(states, steps, l, part, Get(t, part)))
      && (OneGeneration(i.served) <==>
            || i.served.relays == 0
            || (i.served.routeMatrix > 0
                && LastAccepted(states, steps, l, Relays, t.relays)
                == LastAccepted(states, steps, l, CostMatrix, t.costMatrix)
                == LastAccepted(states, steps, l, RouteMatrix, t.routeMatrix)))
  {
    RunIsInOrder(states, steps, n, p);
    forall part ensures
      var g, k := Get(states[n].instances[p].served, part), Get(TimesOf(states, steps, p, n).served, part);
      k <= n && (g > 0 ==> g == LastAccepted(states, steps, l, part, k))
    {
      PartIsAccepted(states, steps, l, n, p, part);
    }
    PartIsAccepted(states, steps, l, n, p, Relays);
    PartIsAccepted(states, steps, l, n, p, CostMatrix);
    PartIsAccepted(states, steps, l, n, p, RouteMatrix);
  }

  lemma PublishedIsFresher(states: seq<State>, steps: seq<Step>, l: nat, n: nat, p: nat)
    requires IsRun(states, steps) && OneLeader(steps, l) && l < |states[0].instances|
    requires n < |states| && p < |states[n].instances| && states[n].instances[p].phase.Publishing?
    ensures var i := states[n].instances[p]; Get(i.served, i.phase.part) <= Get(i.loaded, i.phase.part)
  {
    RunIsOffered(states, steps, n, p);
    RunTimesInOrder(states, steps, n, p);
    RunIsInOrder(states, steps, n, p);
    var part, t := states[n].instances[p].phase.part, TimesOf(states, steps, p, n);
    SameCount(states, steps, Get(t.loaded, part), n);
    SameCount(states, steps, Get(t.served, part), n);
    OfferedGrows(states, steps, l, p, part, Get(t.served, part), Get(t.loaded, part));
  }

  /** Under one leader no served blob is ever replaced by an older one. */
  lemma {:induction false} ServedNeverGoesBack(states: seq<State>, steps: seq<Step>, l: nat, m: nat, n: nat, p: nat)
    requires IsRun(states, steps) && OneLeader(steps, l) && l < |states[0].instances|
    requires m <= n < |states| && p < |states[n].instances|
    ensures p < |states[m].instances| && NoNewer(states[m].instances[p].served, states[n].instances[p].served)
    decreases n
  {
    if m < n {
      var s, step := states[n - 1], steps[n - 1];
      assert Enabled(s, step) && states[n] == Next(s, step);
      ServedNeverGoesBack(states, steps, l, m, n - 1, p);
      if step.PublishStep? && step.p == p {
        PublishedIsFresher(states, steps, l, n - 1, p);
      }
    }
  }

  /** Nor is any served blob newer than what redis holds of the leader's. */
  lemma ServedWithinStored(states: seq<State>, steps: seq<Step>, l: nat, n: nat, p: nat)
    requires IsRun(states, steps) && OneLeader(steps, l) && l < |states[0].instances|
    requires n < |states| && p < |states[n].instances|
    ensures l < |states[n].instances| && NoNewer(states[n].instances[p].served, states[n].instances[l].stored)
  {
    ServedWasStored(states, steps, n, p);
    RunIsFollowed(states, steps, l, n);
    var t := TimesOf(states, steps, p, n).served;
    forall part ensures Get(states[n].instances[p].served, part) <= Get(states[n].instances[l].stored, part) {
      StoredGrows(states, steps, l, Get(t, part), n);
      RunIsFollowed(states, steps, l, Get(t, part));
    }
    assert Get(states[n].instances[p].served, Relays) <= Get(states[n].instances[l].stored, Relays);
    assert Get(states[n].instances[p].served, CostMatrix) <= Get(states[n].instances[l].stored, CostMatrix);
    assert Get(states[n].instances[p].served, RouteMatrix) <= Get(states[n].instances[l].stored, RouteMatrix);
  }

  // ----- the leader -----

  /** How many steps the run had when the leader last finished publishing. */
  function LastPublished(states: seq<State>, steps: seq<Step>, l: nat, n: nat): (m: nat)
    requires n <= |steps| < |states|
    ensures m <= n
  {
    if n == 0 then 0
    else
      var s := states[n - 1];
      if steps[n - 1] == PublishStep(l) && l < |s.instances| && s.instances[l].phase == Publishing(RouteMatrix) then n
      else LastPublished(states, steps, l, n - 1)
  }

  ghost predicate LeaderServesAccepted(states: seq<State>, steps: seq<Step>, l: nat, n: nat)
    requires n <= |steps| < |states| && l < |states[n].instances|
  {
    var i, m := states[n].instances[l], LastPublished(states, steps, l, n);
    && i.served.relays == LastAccepted(states, steps, l, Relays, if Halfway(i) then n else m)
    && i.served.costMatrix
       == LastAccepted(states, steps, l, CostMatrix, if i.phase == Publishing(RouteMatrix) then n else m)
    && i.served.routeMatrix == LastAccepted(states, steps, l, RouteMatrix, m)
  }

  lemma StoredAreLastAccepted(states: seq<State>, steps: seq<Step>, l: nat, n: nat)
    requires IsRun(states, steps) && n < |states| && l < |states[n].instances|
    ensures states[n].instances[l].stored
      == Triple(LastAccepted(states, steps, l, Relays, n), LastAccepted(states, steps, l, CostMatrix, n),
                LastAccepted(states, steps, l, RouteMatrix, n))
  {
    StoredIsLastAccepted(states, steps, l, Relays, n);
    StoredIsLastAccepted(states, steps, l, CostMatrix, n);
    StoredIsLastAccepted(states, steps, l, RouteMatrix, n);
  }

  lemma LeaderStepServes(states: seq<State>, steps: seq<Step>, l: nat, n: nat)
    requires IsRun(states, steps) && OneLeader(steps, l) && l < |states[0].instances|
    requires n < |steps| && !steps[n].ClockStep? && steps[n].p == l
    requires l < |states[n].instances| && LeaderServesAccepted(states, steps, l, n)
    ensures l < |states[n + 1].instances| && LeaderServesAccepted(states, steps, l, n + 1)
  {
    RunIsFollowed(states, steps, l, n);
    StoredAreLastAccepted(states, steps, l, n);
    assert Enabled(states[n], steps[n]) && states[n + 1] == Next(states[n], steps[n]);
    StepMoves(states[n], steps[n], l);
    StoredAreLastAccepted(states, steps, l, n + 1);
  }

  /** What the leader serves at every instant: halfway through publishing, what it has replaced is what
      redis accepted last; the rest is what redis had accepted last when it finished publishing before. */
  lemma {:induction false} RunLeaderServesAccepted(states: seq<State>, steps: seq<Step>, l: nat, n: nat)
    requires IsRun(states, steps) && OneLeader(steps, l) && l < |states[0].instances|
    requires n < |states|
    ensures l < |states[n].instances| && LeaderServesAccepted(states, steps, l, n)
  {
    RunIsFollowed(states, steps, l, n);
    if n > 0 {
      RunLeaderServesAccepted(states, steps, l, n - 1);
      var s, step := states[n - 1], steps[n - 1];
      assert Enabled(s, step) && states[n] == Next(s, step);
      if step.ClockStep? || step.p != l {
        StepMoves(s, step, l);
      } else {
        LeaderStepServes(states, steps, l, n - 1);
      }
    }
  }
}
