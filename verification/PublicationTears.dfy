/** Runs from the start that end with an instance, between updates, that serves different generations. */
module PublicationTears {
  import opened Common
  import opened Publication

  /** `steps` leads from `s` to `t`. */
  ghost predicate Leads(s: State, steps: seq<Step>, t: State)
    decreases |steps|
  {
    if steps == [] then s == t
    else Enabled(s, steps[0]) && Leads(Next(s, steps[0]), steps[1..], t)
  }

  lemma LeadsOne(s: State, step: Step)
    requires Enabled(s, step)
    ensures Leads(s, [step], Next(s, step))
  {
    assert [step][1..] == [];
  }

  lemma {:induction false} LeadsOn(s: State, a: seq<Step>, t: State, b: seq<Step>, u: State)
    requires Leads(s, a, t) && Leads(t, b, u)
    ensures Leads(s, a + b, u)
    decreases |a|
  {
    if a == [] {
      assert a + b == b;
    } else {
      LeadsOn(Next(s, a[0]), a[1..], t, b, u);
      assert (a + b)[1..] == a[1..] + b;
    }
  }

  lemma {:induction false} LeadsIsRun(s: State, steps: seq<Step>, t: State) returns (states: seq<State>)
    requires Leads(s, steps, t)
    ensures |states| == |steps| + 1 && states[0] == s && states[|steps|] == t
    ensures forall i :: 0 <= i < |steps| ==> Enabled(states[i], steps[i]) && states[i + 1] == Next(states[i], steps[i])
    decreases |steps|
  {
    if steps == [] {
      states := [s];
    } else {
      var rest := LeadsIsRun(Next(s, steps[0]), steps[1..], t);
      states := [s] + rest;
      forall i | 0 <= i < |steps| ensures Enabled(states[i], steps[i]) && states[i + 1] == Next(states[i], steps[i]) {
        if i > 0 {
          assert steps[i] == steps[1..][i - 1] && states[i] == rest[i - 1] && states[i + 1] == rest[i];
        }
      }
    }
  }

  function All(g: nat): Triple {
    Triple(g, g, g)
  }

  /** A leader that has published `g` generations and is between updates; redis last accepted its relays
      of generation `r`. */
  function Leader(r: nat, g: nat): Instance {
    var t := Triple(r, g, g);
    Instance(g, Idle, Some(0), t, t, t, All(g))
  }

  function LeaderAt(g: nat): Instance {
    Leader(g, g)
  }

  function Two(leader: Instance, follower: Instance): State {
    State([leader, follower], 0)
  }

  /** Three steps in a row. */
  lemma LeadsThree(s0: State, a: Step, s1: State, b: Step, s2: State, c: Step, s3: State)
    requires Enabled(s0, a) && s1 == Next(s0, a)
    requires Enabled(s1, b) && s2 == Next(s1, b)
    requires Enabled(s2, c) && s3 == Next(s2, c)
    ensures Leads(s0, [a] + [b] + [c], s3)
  {
    LeadsOne(s0, a);
    LeadsOne(s1, b);
    LeadsOne(s2, c);
    LeadsOn(s0, [a], s1, [b], s2);
    LeadsOn(s0, [a] + [b], s2, [c], s3);
  }

  /** The three stores of an update, of which redis may refuse the first. */
  function Storing3(p: nat, ok: bool): seq<Step> {
    [StoreStep(p, ok)] + [StoreStep(p, true)] + [StoreStep(p, true)]
  }

  function Loading3(p: nat): seq<Step> {
    [LoadStep(p, true)] + [LoadStep(p, true)] + [LoadStep(p, true)]
  }

  function Publishing3(p: nat): seq<Step> {
    [PublishStep(p)] + [PublishStep(p)] + [PublishStep(p)]
  }

  function Update(p: nat, ok: bool): seq<Step> {
    [BeginStep(p)] + Storing3(p, ok) + Loading3(p) + Publishing3(p)
  }

  lemma LeaderStores(r: nat, g: nat, ok: bool, other: Instance)
    ensures var i, q := Leader(r, g).(generation := g + 1, phase := Storing(Relays)), if ok then g + 1 else r;
      Leads(Two(i, other), Storing3(0, ok), Two(i.(phase := Loading(Relays), stored := Triple(q, g + 1, g + 1)), other))
  {
    var i, q := Leader(r, g).(generation := g + 1, phase := Storing(Relays)), if ok then g + 1 else r;
    var one := i.(phase := Storing(CostMatrix), stored := Triple(q, g, g));
    var two := i.(phase := Storing(RouteMatrix), stored := Triple(q, g + 1, g));
    var three := i.(phase := Loading(Relays), stored := Triple(q, g + 1, g + 1));
    LeadsThree(Two(i, other), StoreStep(0, ok), Two(one, other), StoreStep(0, true), Two(two, other),
               StoreStep(0, true), Two(three, other));
  }

  lemma LeaderLoads(r: nat, g: nat, q: nat, other: Instance)
    requires q > 0
    ensures var i := Leader(r, g).(generation := g + 1, phase := Loading(Relays), stored := Triple(q, g + 1, g + 1));
      Leads(Two(i, other), Loading3(0), Two(i.(phase := Publishing(Relays), loaded := i.stored), other))
  {
    var i := Leader(r, g).(generation := g + 1, phase := Loading(Relays), stored := Triple(q, g + 1, g + 1));
    var step := LoadStep(0, true);
    var one := i.(phase := Loading(CostMatrix), loaded := Triple(q, g, g));
    var two := i.(phase := Loading(RouteMatrix), loaded := Triple(q, g + 1, g));
    var three := i.(phase := Publishing(Relays), loaded := i.stored);
    LeadsThree(Two(i, other), step, Two(one, other), step, Two(two, other), step, Two(three, other));
  }

  lemma LeaderPublishes(r: nat, g: nat, q: nat, other: Instance)
    ensures var t := Triple(q, g + 1, g + 1);
      var i := Leader(r, g).(generation := g + 1, phase := Publishing(Relays), stored := t, loaded := t);
      Leads(Two(i, other), Publishing3(0), Two(Leader(q, g + 1), other))
  {
    var t, step := Triple(q, g + 1, g + 1), PublishStep(0);
    var i := Leader(r, g).(generation := g + 1, phase := Publishing(Relays), stored := t, loaded := t);
    var one := i.(phase := Publishing(CostMatrix), served := Triple(q, g, g), publications := Triple(g + 1, g, g));
    var two := i.(phase := Publishing(RouteMatrix), served := Triple(q, g + 1, g),
                  publications := Triple(g + 1, g + 1, g));
    LeadsThree(Two(i, other), step, Two(one, other), step, Two(two, other), step, Two(Leader(q, g + 1), other));
  }

  /** One whole update of the leader. */
  lemma LeaderUpdates(r: nat, g: nat, ok: bool, other: Instance)
    requires ok || r > 0
    ensures Leads(Two(Leader(r, g), other), Update(0, ok), Two(Leader(if ok then g + 1 else r, g + 1), other))
  {
    var q := if ok then g + 1 else r;
    var begun := Leader(r, g).(generation := g + 1, phase := Storing(Relays));
    var stored := begun.(phase := Loading(Relays), stored := Triple(q, g + 1, g + 1));
    var loaded := stored.(phase := Publishing(Relays), loaded := stored.stored);
    var start := Two(Leader(r, g), other);
    assert Next(start, BeginStep(0)) == Two(begun, other);
    LeadsOne(start, BeginStep(0));
    LeaderStores(r, g, ok, other);
    LeadsOn(start, [BeginStep(0)], Two(begun, other), Storing3(0, ok), Two(stored, other));
    LeaderLoads(r, g, q, other);
    LeadsOn(start, [BeginStep(0)] + Storing3(0, ok), Two(stored, other), Loading3(0), Two(loaded, other));
    LeaderPublishes(r, g, q, other);
    LeadsOn(start, [BeginStep(0)] + Storing3(0, ok) + Loading3(0), Two(loaded, other),
            Publishing3(0), Two(Leader(q, g + 1), other));
  }

  lemma OneLeaderBoth(a: seq<Step>, b: seq<Step>, l: nat)
    requires OneLeader(a, l) && OneLeader(b, l)
    ensures OneLeader(a + b, l)
  {
  }

  lemma UpdateIsLed(p: nat, ok: bool, l: nat)
    ensures OneLeader(Update(p, ok), l)
  {
    OneLeaderBoth([BeginStep(p)], Storing3(p, ok), l);
    OneLeaderBoth([BeginStep(p)] + Storing3(p, ok), Loading3(p), l);
    OneLeaderBoth([BeginStep(p)] + Storing3(p, ok) + Loading3(p), Publishing3(p), l);
  }

  lemma UpdateIsSteady(p: nat, l: nat)
    ensures SteadyLeader(Update(p, true), l)
  {
    SteadyBoth([BeginStep(p)], Storing3(p, true), l);
    SteadyBoth([BeginStep(p)] + Storing3(p, true), Loading3(p), l);
    SteadyBoth([BeginStep(p)] + Storing3(p, true) + Loading3(p), Publishing3(p), l);
  }

  lemma {:induction false} LeaderUpdatesOften(g: nat, h: nat, other: Instance) returns (steps: seq<Step>)
    requires g <= h
    ensures Leads(Two(LeaderAt(g), other), steps, Two(LeaderAt(h), other)) && SteadyLeader(steps, 0)
    ensures Refusals(steps) == 0
    decreases h - g
  {
    if g == h {
      steps := [];
    } else {
      UpdateRefusals(0, true);
      LeaderUpdates(g, g, true, other);
      var rest := LeaderUpdatesOften(g + 1, h, other);
      steps := Update(0, true) + rest;
      UpdateIsSteady(0, 0);
      SteadyBoth(Update(0, true), rest, 0);
      RefusalsOfBoth(Update(0, true), rest);
      LeadsOn(Two(LeaderAt(g), other), Update(0, true), Two(LeaderAt(g + 1), other), rest, Two(LeaderAt(h), other));
    }
  }

  /** A follower that has loaded the leader's first relays and nothing else. */
  function Slow(): Instance {
    Instance(1, Loading(CostMatrix), Some(0), All(1), Triple(1, 0, 0), All(0), All(0))
  }

  function Begun(): Instance {
    LeaderAt(0).(generation := 1, phase := Storing(Relays))
  }

  lemma FollowerStores(leader: Instance)
    ensures Leads(Two(leader, Begun()), Storing3(1, true),
      Two(leader, Begun().(phase := Loading(Relays), stored := All(1))))
  {
    var i, step := Begun(), StoreStep(1, true);
    var one := i.(phase := Storing(CostMatrix), stored := Triple(1, 0, 0));
    var two := i.(phase := Storing(RouteMatrix), stored := Triple(1, 1, 0));
    var three := i.(phase := Loading(Relays), stored := All(1));
    LeadsThree(Two(leader, i), step, Two(leader, one), step, Two(leader, two), step, Two(leader, three));
  }

  lemma SteadyBoth(a: seq<Step>, b: seq<Step>, l: nat)
    requires SteadyLeader(a, l) && SteadyLeader(b, l)
    ensures SteadyLeader(a + b, l)
  {
  }

  lemma BothFollow() returns (steps: seq<Step>)
    ensures Leads(Start(2), steps, Two(LeaderAt(0), LeaderAt(0))) && SteadyLeader(steps, 0) && Refusals(steps) == 0
  {
    var blank := Start(2).instances[0];
    assert Start(2) == Two(blank, blank);
    assert Next(Two(blank, blank), ElectStep(0, 0)) == Two(LeaderAt(0), blank);
    assert Next(Two(LeaderAt(0), blank), ElectStep(1, 0)) == Two(LeaderAt(0), LeaderAt(0));
    LeadsOne(Start(2), ElectStep(0, 0));
    LeadsOne(Two(LeaderAt(0), blank), ElectStep(1, 0));
    LeadsOn(Start(2), [ElectStep(0, 0)], Two(LeaderAt(0), blank), [ElectStep(1, 0)], Two(LeaderAt(0), LeaderAt(0)));
    steps := [ElectStep(0, 0)] + [ElectStep(1, 0)];
    NoRefusals(steps);
  }

  lemma FollowerStarts() returns (steps: seq<Step>)
    ensures Leads(Two(LeaderAt(1), LeaderAt(0)), steps, Two(LeaderAt(1), Slow())) && SteadyLeader(steps, 0)
  {
    var leader, stored := LeaderAt(1), Begun().(phase := Loading(Relays), stored := All(1));
    var start := Two(leader, LeaderAt(0));
    assert Next(start, BeginStep(1)) == Two(leader, Begun());
    LeadsOne(start, BeginStep(1));
    FollowerStores(leader);
    LeadsOn(start, [BeginStep(1)], Two(leader, Begun()), Storing3(1, true), Two(leader, stored));
    assert Next(Two(leader, stored), LoadStep(1, true)) == Two(leader, Slow());
    LeadsOne(Two(leader, stored), LoadStep(1, true));
    LeadsOn(start, [BeginStep(1)] + Storing3(1, true), Two(leader, stored), [LoadStep(1, true)], Two(leader, Slow()));
    steps := [BeginStep(1)] + Storing3(1, true) + [LoadStep(1, true)];
  }

  /** From the start to a follower between its loads. */
  lemma FollowerGetsSlow() returns (steps: seq<Step>)
    ensures Leads(Start(2), steps, Two(LeaderAt(1), Slow())) && SteadyLeader(steps, 0)
  {
    var follow := BothFollow();
    var update := LeaderUpdatesOften(0, 1, LeaderAt(0));
    var begin := FollowerStarts();
    LeadsOn(Start(2), follow, Two(LeaderAt(0), LeaderAt(0)), update, Two(LeaderAt(1), LeaderAt(0)));
    LeadsOn(Start(2), follow + update, Two(LeaderAt(1), LeaderAt(0)), begin, Two(LeaderAt(1), Slow()));
    steps := follow + update + begin;
    SteadyBoth(follow, update, 0);
    SteadyBoth(follow + update, begin, 0);
  }

  /** The follower's last two loads and its publications, when the leader is `g` generations on. */
  lemma FollowerFinishes(g: nat)
    requires g > 0
    ensures var torn := Triple(1, g, g);
      Leads(Two(LeaderAt(g), Slow()), [LoadStep(1, true)] + [LoadStep(1, true)] + Publishing3(1),
            Two(LeaderAt(g), Slow().(phase := Idle, loaded := torn, served := torn, publications := All(1))))
  {
    var leader, i, torn := LeaderAt(g), Slow(), Triple(1, g, g);
    var one := i.(phase := Loading(RouteMatrix), loaded := Triple(1, g, 0));
    var two := i.(phase := Publishing(Relays), loaded := torn);
    var three := two.(phase := Publishing(CostMatrix), served := Triple(1, 0, 0), publications := Triple(1, 0, 0));
    var four := two.(phase := Publishing(RouteMatrix), served := Triple(1, g, 0), publications := Triple(1, 1, 0));
    var five := two.(phase := Idle, served := torn, publications := All(1));
    assert Next(Two(leader, i), LoadStep(1, true)) == Two(leader, one);
    assert Next(Two(leader, one), LoadStep(1, true)) == Two(leader, two);
    LeadsOne(Two(leader, i), LoadStep(1, true));
    LeadsOne(Two(leader, one), LoadStep(1, true));
    LeadsOn(Two(leader, i), [LoadStep(1, true)], Two(leader, one), [LoadStep(1, true)], Two(leader, two));
    LeadsThree(Two(leader, two), PublishStep(1), Two(leader, three), PublishStep(1), Two(leader, four),
               PublishStep(1), Two(leader, five));
    LeadsOn(Two(leader, i), [LoadStep(1, true)] + [LoadStep(1, true)], Two(leader, two), Publishing3(1),
            Two(leader, five));
  }

  /** The bound on a follower is one-sided. For every `g` there is a run from the start, under one steady
      leader, that ends with a follower between updates that serves relays of generation one with
      matrices of generation `g`. */
  lemma FollowerCanTear(g: nat) returns (states: seq<State>, steps: seq<Step>)
    requires g > 0
    ensures IsRun(states, steps) && SteadyLeader(steps, 0)
    ensures |states[|steps|].instances| == 2
    ensures var i := states[|steps|].instances[1]; i.phase.Idle? && i.served == Triple(1, g, g)
  {
    steps := FollowerGetsSlow();
    var meanwhile := LeaderUpdatesOften(1, g, Slow());
    var rest := [LoadStep(1, true)] + [LoadStep(1, true)] + Publishing3(1);
    var torn := Triple(1, g, g);
    var end := Two(LeaderAt(g), Slow().(phase := Idle, loaded := torn, served := torn, publications := All(1)));
    LeadsOn(Start(2), steps, Two(LeaderAt(1), Slow()), meanwhile, Two(LeaderAt(g), Slow()));
    FollowerFinishes(g);
    LeadsOn(Start(2), steps + meanwhile, Two(LeaderAt(g), Slow()), rest, end);
    SteadyBoth(steps, meanwhile, 0);
    SteadyBoth(steps + meanwhile, rest, 0);
    steps := steps + meanwhile + rest;
    states := LeadsIsRun(Start(2), steps, end);
  }

  // ----- a leader whose stores are refused -----

  function Refusals(steps: seq<Step>): nat {
    if steps == [] then 0
    else Refusals(steps[1..]) + if steps[0].StoreStep? && !steps[0].ok then 1 else 0
  }

  lemma {:induction false} RefusalsOfBoth(a: seq<Step>, b: seq<Step>)
    ensures Refusals(a + b) == Refusals(a) + Refusals(b)
    decreases |a|
  {
    if a == [] {
      assert a + b == b;
    } else {
      assert (a + b)[1..] == a[1..] + b;
      RefusalsOfBoth(a[1..], b);
    }
  }

  lemma {:induction false} NoRefusals(steps: seq<Step>)
    requires forall i :: 0 <= i < |steps| && steps[i].StoreStep? ==> steps[i].ok
    ensures Refusals(steps) == 0
  {
    if steps != [] {
      NoRefusals(steps[1..]);
    }
  }

  lemma RefusalsOfOne(step: Step)
    ensures Refusals([step]) == if step.StoreStep? && !step.ok then 1 else 0
  {
    assert [step][1..] == [];
  }

  lemma StoringRefusals(p: nat, ok: bool)
    ensures Refusals(Storing3(p, ok)) == if ok then 0 else 1
  {
    RefusalsOfOne(StoreStep(p, ok));
    RefusalsOfOne(StoreStep(p, true));
    RefusalsOfBoth([StoreStep(p, ok)], [StoreStep(p, true)]);
    RefusalsOfBoth([StoreStep(p, ok)] + [StoreStep(p, true)], [StoreStep(p, true)]);
  }

  lemma UpdateRefusals(p: nat, ok: bool)
    ensures Refusals(Update(p, ok)) == if ok then 0 else 1
  {
    StoringRefusals(p, ok);
    NoRefusals([BeginStep(p)]);
    NoRefusals(Loading3(p));
    NoRefusals(Publishing3(p));
    RefusalsOfBoth([BeginStep(p)], Storing3(p, ok));
    RefusalsOfBoth([BeginStep(p)] + Storing3(p, ok), Loading3(p));
    RefusalsOfBoth([BeginStep(p)] + Storing3(p, ok) + Loading3(p), Publishing3(p));
  }

  lemma {:induction false} LeaderIsRefusedOften(g: nat, h: nat, other: Instance) returns (steps: seq<Step>)
    requires 0 < g <= h
    ensures Leads(Two(Leader(1, g), other), steps, Two(Leader(1, h), other))
    ensures OneLeader(steps, 0) && Refusals(steps) == h - g
    decreases h - g
  {
    if g == h {
      steps := [];
    } else {
      LeaderUpdates(1, g, false, other);
      var rest := LeaderIsRefusedOften(g + 1, h, other);
      steps := Update(0, false) + rest;
      UpdateIsLed(0, false, 0);
      OneLeaderBoth(Update(0, false), rest, 0);
      UpdateRefusals(0, false);
      RefusalsOfBoth(Update(0, false), rest);
      LeadsOn(Two(Leader(1, g), other), Update(0, false), Two(Leader(1, g + 1), other), rest, Two(Leader(1, h), other));
    }
  }

  /** The leader itself can serve different generations between updates, when redis refuses its stores: for
      every `g` a run from the start, under one leader, in which `g` stores are refused ends with the leader
      serving relays of generation one with matrices of generation `g + 1`. */
  lemma LeaderCanTear(g: nat) returns (states: seq<State>, steps: seq<Step>)
    ensures IsRun(states, steps) && OneLeader(steps, 0) && Refusals(steps) == g
    ensures |states[|steps|].instances| == 2
    ensures var i := states[|steps|].instances[0];
      i.phase.Idle? && i.leader == Some(0) && i.served == Triple(1, g + 1, g + 1)
  {
    var follow := BothFollow();
    var update := LeaderUpdatesOften(0, 1, LeaderAt(0));
    var refused := LeaderIsRefusedOften(1, g + 1, LeaderAt(0));
    LeadsOn(Start(2), follow, Two(LeaderAt(0), LeaderAt(0)), update, Two(LeaderAt(1), LeaderAt(0)));
    LeadsOn(Start(2), follow + update, Two(LeaderAt(1), LeaderAt(0)), refused, Two(Leader(1, g + 1), LeaderAt(0)));
    RefusalsOfBoth(follow, update);
    RefusalsOfBoth(follow + update, refused);
    OneLeaderBoth(follow, update, 0);
    OneLeaderBoth(follow + update, refused, 0);
    steps := follow + update + refused;
    states := LeadsIsRun(Start(2), steps, Two(Leader(1, g + 1), LeaderAt(0)));
  }
}
