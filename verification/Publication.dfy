/** How relay backend instances publish route data. Every instance computes the three blobs itself,
    stores them under its own name, then loads the leader's three and serves those. The stores, the
    loads and the three publications are separate steps that other instances and readers see between. */
module Publication {
  import opened Common

  /** Generations of the three blobs; zero means no blob. */
  datatype Triple = Triple(relays: nat, costMatrix: nat, routeMatrix: nat)

  datatype Part = Relays | CostMatrix | RouteMatrix

  datatype Phase = Idle | Storing(part: Part) | Loading(part: Part) | Publishing(part: Part)

  /** `stored` is what redis holds under this instance's name; `publications` counts how often each
      blob was replaced. */
  datatype Instance = Instance(
    generation: nat,
    phase: Phase,
    leader: Option<nat>,
    stored: Triple,
    loaded: Triple,
    served: Triple,
    publications: Triple)

  datatype State = State(instances: seq<Instance>, now: nat)

  datatype Step =
    | ElectStep(p: nat, leader: nat)
    | BeginStep(p: nat)
    | StoreStep(p: nat, ok: bool)
    | LoadStep(p: nat, ok: bool)
    | PublishStep(p: nat)
    | ClockStep(time: nat)

  function Get(t: Triple, part: Part): nat {
    match part
    case Relays => t.relays
    case CostMatrix => t.costMatrix
    case RouteMatrix => t.routeMatrix
  }

  function Put(t: Triple, part: Part, g: nat): Triple {
    match part
    case Relays => t.(relays := g)
    case CostMatrix => t.(costMatrix := g)
    case RouteMatrix => t.(routeMatrix := g)
  }

  function After(part: Part, same: Part -> Phase, then': Phase): Phase {
    match part
    case Relays => same(CostMatrix)
    case CostMatrix => same(RouteMatrix)
    case RouteMatrix => then'
  }

  const NOTHING := Triple(0, 0, 0)

  function Start(count: nat): State {
    State(seq(count, _ => Instance(0, Idle, None, NOTHING, NOTHING, NOTHING, NOTHING)), 0)
  }

  predicate Enabled(s: State, step: Step) {
    match step
    case ElectStep(p, leader) => p < |s.instances| && leader < |s.instances|
    case BeginStep(p) => p < |s.instances| && s.instances[p].phase.Idle?
    case StoreStep(p, _) => p < |s.instances| && s.instances[p].phase.Storing?
    case LoadStep(p, _) => p < |s.instances| && s.instances[p].phase.Loading?
    case PublishStep(p) => p < |s.instances| && s.instances[p].phase.Publishing?
    case ClockStep(t) => s.now <= t
  }

  /** One step of instance `i`; `source` is what it loads from. */
  function Move(i: Instance, step: Step, source: Triple): Instance {
    match step
    case ElectStep(_, leader) => i.(leader := Some(leader))
    case BeginStep(_) => i.(generation := i.generation + 1, phase := Storing(Relays))
    case StoreStep(_, ok) =>
      if i.phase.Storing? then
        i.(stored := if ok then Put(i.stored, i.phase.part, i.generation) else i.stored,
           phase := After(i.phase.part, part => Storing(part), Loading(Relays)))
      else i
    case LoadStep(_, ok) =>
      if i.phase.Loading? then
        if !ok || Get(source, i.phase.part) == 0 then i.(phase := Idle)
        else i.(loaded := Put(i.loaded, i.phase.part, Get(source, i.phase.part)),
                phase := After(i.phase.part, part => Loading(part), Publishing(Relays)))
      else i
    case PublishStep(_) =>
      if i.phase.Publishing? then
        i.(served := Put(i.served, i.phase.part, Get(i.loaded, i.phase.part)),
           publications := Put(i.publications, i.phase.part, Get(i.publications, i.phase.part) + 1),
           phase := After(i.phase.part, part => Publishing(part), Idle))
      else i
    case ClockStep(_) => i
  }

  /** What redis holds under the name of the leader the instance follows; nothing before it knows one. */
  function Source(s: State, i: Instance): Triple {
    match i.leader
    case Some(l) => if l < |s.instances| then s.instances[l].stored else NOTHING
    case None => NOTHING
  }

  function Next(s: State, step: Step): State
    requires Enabled(s, step)
  {
    match step
    case ClockStep(t) => s.(now := t)
    case _ =>
      var i := s.instances[step.p];
      s.(instances := s.instances[step.p := Move(i, step, Source(s, i))])
  }

  ghost predicate IsRun(states: seq<State>, steps: seq<Step>) {
    && |states| == |steps| + 1
    && states[0] == Start(|states[0].instances|)
    && forall i :: 0 <= i < |steps| ==> Enabled(states[i], steps[i]) && states[i + 1] == Next(states[i], steps[i])
  }

  // ----- what readers of one instance see -----

  /** The three blobs are replaced in order, so none is ever more than one publication behind the one
      before it; a blob that has been published stays; and between publications the three served blobs
      are one loaded triple. */
  ghost predicate InOrder(i: Instance) {
    var t := i.publications;
    && t.relays >= t.costMatrix >= t.routeMatrix
    && t.relays <= t.routeMatrix + 1
    && (i.phase == Publishing(CostMatrix) || i.phase == Publishing(RouteMatrix) <==> t.relays == t.routeMatrix + 1)
    && (i.phase == Publishing(RouteMatrix) ==> t.costMatrix == t.relays)
    && (i.phase == Publishing(CostMatrix) ==> t.costMatrix == t.routeMatrix)
    && (i.phase.Publishing? ==> i.loaded.relays > 0 && i.loaded.costMatrix > 0 && i.loaded.routeMatrix > 0)
    && (i.phase == Loading(CostMatrix) || i.phase == Loading(RouteMatrix) ==> i.loaded.relays > 0)
    && (i.phase == Loading(RouteMatrix) ==> i.loaded.costMatrix > 0)
    && (t.relays > 0 <==> i.served.relays > 0)
    && (t.costMatrix > 0 <==> i.served.costMatrix > 0)
    && (t.routeMatrix > 0 <==> i.served.routeMatrix > 0)
  }

  lemma {:induction false} RunIsInOrder(states: seq<State>, steps: seq<Step>, n: nat, p: nat)
    requires IsRun(states, steps)
    requires n < |states| && p < |states[n].instances|
    ensures InOrder(states[n].instances[p])
  {
    if n > 0 {
      RunIsInOrder(states, steps, n - 1, p);
    }
  }

  /** At every instant, for every reader: the served relays are at most one publication ahead of the
      cost matrix and the route matrix, in that order; and an instance that serves a route matrix
      serves all three. */
  lemma ServedInOrder(states: seq<State>, steps: seq<Step>, n: nat, p: nat)
    requires IsRun(states, steps)
    requires n < |states| && p < |states[n].instances|
    ensures var i := states[n].instances[p];
      && i.publications.relays >= i.publications.costMatrix >= i.publications.routeMatrix >= i.publications.relays - 1
      && (i.served.routeMatrix > 0 ==> i.served.costMatrix > 0 && i.served.relays > 0)
  {
    RunIsInOrder(states, steps, n, p);
  }

  predicate SendTrafficToMe(i: Instance, now: nat, startTime: nat, initialDelay: nat) {
    i.served.routeMatrix > 0 && now > startTime + initialDelay
  }

  /** An instance asks for traffic exactly if it has finished a publication, and more than the initial
      delay has passed since it started. */
  lemma TrafficExactly(states: seq<State>, steps: seq<Step>, n: nat, p: nat, startTime: nat, initialDelay: nat)
    requires IsRun(states, steps)
    requires n < |states| && p < |states[n].instances|
    ensures SendTrafficToMe(states[n].instances[p], states[n].now, startTime, initialDelay) <==>
      states[n].instances[p].publications.routeMatrix >= 1 && states[n].now - startTime > initialDelay
  {
    RunIsInOrder(states, steps, n, p);
  }

  /** No served blob goes away again, so an instance that asks for traffic keeps asking. */
  lemma {:induction false} ServedBlobsStay(states: seq<State>, steps: seq<Step>, m: nat, n: nat, p: nat,
      startTime: nat, initialDelay: nat)
    requires IsRun(states, steps)
    requires m <= n < |states| && p < |states[m].instances|
    ensures |states[n].instances| == |states[m].instances| && states[m].now <= states[n].now
    ensures forall part :: Get(states[m].instances[p].served, part) > 0 ==> Get(states[n].instances[p].served, part) > 0
    ensures SendTrafficToMe(states[m].instances[p], states[m].now, startTime, initialDelay) ==>
            SendTrafficToMe(states[n].instances[p], states[n].now, startTime, initialDelay)
    decreases n
  {
    if m < n {
      ServedBlobsStay(states, steps, m, n - 1, p, startTime, initialDelay);
      RunIsInOrder(states, steps, n - 1, p);
      assert Enabled(states[n - 1], steps[n - 1]);
    }
  }

  // ----- what the blobs say -----

  /** A run in which nobody but instance `l` is elected. */
  ghost predicate OneLeader(steps: seq<Step>, l: nat) {
    forall i :: 0 <= i < |steps| && steps[i].ElectStep? ==> steps[i].leader == l
  }

  /** Redis accepts the step, if it is a store of instance `l`. */
  predicate NotRefused(step: Step, l: nat) {
    step.StoreStep? && step.p == l ==> step.ok
  }

  /** A run in which, besides, redis accepts every store of the leader. */
  ghost predicate SteadyLeader(steps: seq<Step>, l: nat) {
    && OneLeader(steps, l)
    && forall i :: 0 <= i < |steps| ==> NotRefused(steps[i], l)
  }

  ghost predicate Followed(s: State, l: nat) {
    forall p :: 0 <= p < |s.instances| ==> s.instances[p].leader.None? || s.instances[p].leader == Some(l)
  }

  /** A leader stores nothing while it loads and publishes, so what it publishes is what redis holds. */
  ghost predicate LoadsStored(i: Instance) {
    && (i.phase == Loading(CostMatrix) || i.phase == Loading(RouteMatrix) ==> i.loaded.relays == i.stored.relays)
    && (i.phase == Loading(RouteMatrix) ==> i.loaded.costMatrix == i.stored.costMatrix)
    && (i.phase.Publishing? ==> i.loaded == i.stored)
    && (i.phase == Publishing(CostMatrix) || i.phase == Publishing(RouteMatrix) ==> i.served.relays == i.stored.relays)
    && (i.phase == Publishing(RouteMatrix) ==> i.served.costMatrix == i.stored.costMatrix)
  }

  lemma MoveLoadsStored(i: Instance, step: Step, source: Triple)
    requires LoadsStored(i)
    requires step.BeginStep? ==> i.phase.Idle?
    requires source == i.stored || source == NOTHING
    ensures LoadsStored(Move(i, step, source))
  {
  }

  lemma {:induction false} RunIsFollowed(states: seq<State>, steps: seq<Step>, l: nat, n: nat)
    requires IsRun(states, steps) && OneLeader(steps, l)
    requires n < |states| && l < |states[0].instances|
    ensures |states[n].instances| == |states[0].instances|
    ensures Followed(states[n], l) && LoadsStored(states[n].instances[l])
  {
    if n > 0 {
      RunIsFollowed(states, steps, l, n - 1);
      var s, step := states[n - 1], steps[n - 1];
      assert Enabled(s, step) && states[n] == Next(s, step);
      if !step.ClockStep? && step.p == l {
        MoveLoadsStored(s.instances[l], step, Source(s, s.instances[l]));
      }
    }
  }

  /** The leader's stored generations, in the order it stores them. */
  ghost predicate StoredInOrder(i: Instance) {
    var t, g := i.stored, i.generation;
    match i.phase
    case Storing(part) =>
      && g > 0
      && t.relays == (if part.Relays? then g - 1 else g)
      && t.costMatrix == (if part.RouteMatrix? then g else g - 1)
      && t.routeMatrix == g - 1
    case _ => t == Triple(g, g, g)
  }

  /** No blob is more than one generation older than one loaded before it. */
  predicate Skewed(t: Triple) {
    t.relays <= t.costMatrix + 1 && t.relays <= t.routeMatrix + 1 && t.costMatrix <= t.routeMatrix + 1
  }

  /** What an instance has loaded so far, against what its leader has stored by now. */
  ghost predicate LoadedBehind(i: Instance, source: Triple) {
    var t := i.loaded;
    && (i.phase == Loading(CostMatrix) ==> t.relays <= source.costMatrix + 1 && t.relays <= source.routeMatrix + 1)
    && (i.phase == Loading(RouteMatrix) ==>
          t.relays <= t.costMatrix + 1 && t.relays <= source.routeMatrix + 1 && t.costMatrix <= source.routeMatrix + 1)
    && (i.phase.Publishing? ==> Skewed(t))
    && (i.phase == Publishing(CostMatrix) || i.phase == Publishing(RouteMatrix) ==> i.served.relays == t.relays)
    && (i.phase == Publishing(RouteMatrix) ==> i.served.costMatrix == t.costMatrix)
    && (!i.phase.Publishing? || i.phase == Publishing(Relays) ==> Skewed(i.served))
  }

  /** The leader loads what it has just stored. */
  ghost predicate LeaderLoadsOwn(i: Instance) {
    var t, g := i.loaded, i.generation;
    && (i.phase == Loading(CostMatrix) || i.phase == Loading(RouteMatrix) || i.phase.Publishing? ==> t.relays == g)
    && (i.phase == Loading(RouteMatrix) || i.phase.Publishing? ==> t.costMatrix == g)
    && (i.phase.Publishing? ==> t.routeMatrix == g)
    && (i.phase == Publishing(CostMatrix) || i.phase == Publishing(RouteMatrix) ==> i.served.relays == g)
    && (i.phase == Publishing(RouteMatrix) ==> i.served.costMatrix == g)
    && (!i.phase.Publishing? || i.phase == Publishing(Relays) ==>
          i.served.relays == i.served.costMatrix == i.served.routeMatrix)
  }

  ghost predicate Steady(s: State, l: nat)
    requires l < |s.instances|
  {
    && Followed(s, l)
    && StoredInOrder(s.instances[l])
    && LeaderLoadsOwn(s.instances[l])
    && (forall p :: 0 <= p < |s.instances| ==> LoadedBehind(s.instances[p], s.instances[l].stored))
  }

  predicate NoNewer(a: Triple, b: Triple) {
    a.relays <= b.relays && a.costMatrix <= b.costMatrix && a.routeMatrix <= b.routeMatrix
  }

  lemma LeaderMoves(i: Instance, step: Step, source: Triple)
    requires StoredInOrder(i) && LeaderLoadsOwn(i)
    requires step.StoreStep? ==> step.ok
    requires step.BeginStep? ==> i.phase.Idle?
    requires source == i.stored || source == NOTHING
    ensures var j := Move(i, step, source); StoredInOrder(j) && LeaderLoadsOwn(j) && NoNewer(i.stored, j.stored)
  {
  }

  lemma FollowerMoves(i: Instance, step: Step, source: Triple, now: Triple)
    requires LoadedBehind(i, now)
    requires step.BeginStep? ==> i.phase.Idle?
    requires source == now || source == NOTHING
    requires Skewed(now)
    ensures LoadedBehind(Move(i, step, source), now)
  {
  }

  lemma SourceGrows(i: Instance, source: Triple, later: Triple)
    requires LoadedBehind(i, source)
    requires NoNewer(source, later)
    ensures LoadedBehind(i, later)
  {
  }

  lemma LeaderStepKeepsSteady(s: State, step: Step, l: nat)
    requires l < |s.instances| && Steady(s, l) && Enabled(s, step)
    requires !step.ClockStep? && step.p == l
    requires (step.ElectStep? ==> step.leader == l) && NotRefused(step, l)
    ensures Steady(Next(s, step), l)
  {
    var s' := Next(s, step);
    var i, source, later := s.instances[l], s.instances[l].stored, s'.instances[l].stored;
    LeaderMoves(i, step, Source(s, i));
    FollowerMoves(i, step, Source(s, i), source);
    forall p | 0 <= p < |s.instances| ensures LoadedBehind(s'.instances[p], later) {
      SourceGrows(s'.instances[p], source, later);
    }
  }

  lemma StepKeepsSteady(s: State, step: Step, l: nat)
    requires l < |s.instances| && Steady(s, l) && Enabled(s, step)
    requires (step.ElectStep? ==> step.leader == l) && NotRefused(step, l)
    ensures Steady(Next(s, step), l)
  {
    if step.ClockStep? {
    } else if step.p == l {
      LeaderStepKeepsSteady(s, step, l);
    } else {
      var i := s.instances[step.p];
      FollowerMoves(i, step, Source(s, i), s.instances[l].stored);
    }
  }

  /** Under one leader everybody follows it and it loads what it has stored itself; if redis accepts
      what it stores, its stored blobs are in step and so is what the others load. */
  lemma {:induction false} RunIsSteady(states: seq<State>, steps: seq<Step>, l: nat, n: nat)
    requires IsRun(states, steps) && OneLeader(steps, l)
    requires n < |states| && l < |states[0].instances|
    ensures |states[n].instances| == |states[0].instances|
    ensures Followed(states[n], l) && LoadsStored(states[n].instances[l])
    ensures SteadyLeader(steps, l) ==> Steady(states[n], l)
  {
    RunIsFollowed(states, steps, l, n);
    if n > 0 && SteadyLeader(steps, l) {
      RunIsSteady(states, steps, l, n - 1);
      StepKeepsSteady(states[n - 1], steps[n - 1], l);
    }
  }

  // ----- in place -----

  /** The three blobs an instance serves. */
  class Server {
    var relays: nat
    var costMatrix: nat
    var routeMatrix: nat

    constructor ()
      ensures relays == costMatrix == routeMatrix == 0
    {
      relays, costMatrix, routeMatrix := 0, 0, 0;
    }

    function Served(): Triple
      reads this
    {
      Triple(relays, costMatrix, routeMatrix)
    }

    /** The end of an update: a load that finds nothing gives up before anything is replaced. */
    method Publish(newRelays: nat, newCostMatrix: nat, newRouteMatrix: nat)
      modifies this
      ensures Served() == if newRelays == 0 || newCostMatrix == 0 || newRouteMatrix == 0 then old(Served())
                          else Triple(newRelays, newCostMatrix, newRouteMatrix)
    {
      if newRelays == 0 {
        return;
      }
      if newCostMatrix == 0 {
        return;
      }
      if newRouteMatrix == 0 {
        return;
      }
      relays := newRelays;
      costMatrix := newCostMatrix;
      routeMatrix := newRouteMatrix;
    }
  }

  /** The same in steps, when each load may see another source. */
  lemma StepsArePublish(i: Instance, p: nat, a: Triple, b: Triple, c: Triple)
    requires i.phase == Loading(Relays)
    ensures
      var one := Move(i, LoadStep(p, true), a);
      var two := Move(one, LoadStep(p, true), b);
      var three := Move(two, LoadStep(p, true), c);
      var end := Move(Move(Move(three, PublishStep(p), c), PublishStep(p), c), PublishStep(p), c);
      && end.phase.Idle?
      && end.served == if a.relays == 0 || b.costMatrix == 0 || c.routeMatrix == 0 then i.served
                       else Triple(a.relays, b.costMatrix, c.routeMatrix)
  {
    var one := Move(i, LoadStep(p, true), a);
    assert a.relays == 0 ==> one == i.(phase := Idle);
  }
}
