/** The optimizer as a whole: any number of workers in any order make the rows of indirect relays, and
    after all of them have left, any number of workers in any order make the rows of entries. */
module OptimizeRun {
  import opened RelayNet
  import opened Indirects
  import opened Optimize
  import opened OptimizeLoops
  import opened OptimizeWorkers

  /** What a worker makes of a row in phase one. */
  ghost function PhaseOne(net: Net): nat -> seq<seq<Indirect>> {
    (r: nat) => if Valid(net) && r < net.n then IndirectsFrom(net, r) else []
  }

  /** What a worker makes of a row in phase two. */
  ghost function PhaseTwo(plan: Plan): nat -> seq<RouteEntry> {
    (r: nat) => if Sound(plan) && r < plan.net.n then EntriesOf(plan, r) else []
  }

  ghost function PlanOf(net: Net, hash: seq<nat> -> nat, rows: map<nat, seq<seq<Indirect>>>): Plan
    requires forall r :: 0 <= r < net.n ==> r in rows
  {
    Plan(net, hash, seq(net.n, r requires 0 <= r < net.n => rows[r]))
  }

  /** The rows left behind by phase one, whatever its schedule, are the plan for phase two. */
  lemma PhaseOnePlans(net: Net, hash: seq<nat> -> nat, segments: nat, states: seq<State>, steps: seq<nat>)
    requires Valid(net) && segments > 0
    requires IsRun(net.n, segments, states, steps) && AllGone(states[|steps|])
    ensures var rows := TableOf(PhaseOne(net), states[|steps|].written);
      && (forall r :: 0 <= r < net.n ==> r in rows)
      && Planned(PlanOf(net, hash, rows))
  {
    ScheduleDoesNotMatter(net.n, segments, states, steps, PhaseOne(net));
    var rows := TableOf(PhaseOne(net), states[|steps|].written);
    assert rows == map r: nat | r < net.n :: PhaseOne(net)(r);
    var plan := PlanOf(net, hash, rows);
    forall a | 0 <= a < net.n ensures plan.indirect[a] == IndirectsFrom(net, a) {
      assert plan.indirect[a] == rows[a] == PhaseOne(net)(a);
    }
    RowsArePlanned(plan);
  }

  lemma PhaseTwoRows(plan: Plan, entries: seq<RouteEntry>)
    requires Planned(plan) && |entries| == TriMatrixLength(plan.net.n)
    ensures Rows(plan.net.n, entries, PhaseTwo(plan))
  {
    forall r: nat | r < plan.net.n ensures |PhaseTwo(plan)(r)| == r {
      assert PhaseTwo(plan)(r) == EntriesOf(plan, r);
    }
  }

  /** The row of a pair's entry, and the entry in it. */
  lemma EntryInRow(plan: Plan, i: nat, j: nat)
    requires Planned(plan) && j < i < plan.net.n
    ensures |PhaseTwo(plan)(i)| == i && PhaseTwo(plan)(i)[j] == EntryOf(plan, i, j)
  {
    assert PhaseTwo(plan)(i) == EntriesOf(plan, i);
    var entry := EntryOf(plan, i, j);
  }

  /** After complete schedules of both phases with at least one worker each, every pair has the entry of
      the plan, whatever the schedules were and whatever the entries held before. */
  lemma EveryEntryIsOptimized(
      net: Net, hash: seq<nat> -> nat, entries: seq<RouteEntry>, i: nat, j: nat,
      segments: nat, states: seq<State>, steps: seq<nat>, segments': nat, states': seq<State>, steps': seq<nat>)
      returns (plan: Plan, after: seq<RouteEntry>)
    requires Valid(net) && |entries| == TriMatrixLength(net.n) && j < i < net.n
    requires segments > 0 && IsRun(net.n, segments, states, steps) && AllGone(states[|steps|])
    requires segments' > 0 && IsRun(net.n, segments', states', steps') && AllGone(states'[|steps'|])
    ensures forall r :: 0 <= r < net.n ==> r in TableOf(PhaseOne(net), states[|steps|].written)
    ensures plan == PlanOf(net, hash, TableOf(PhaseOne(net), states[|steps|].written)) && Planned(plan)
    ensures forall k :: 0 <= k < |states'[|steps'|].written| ==> states'[|steps'|].written[k] < net.n
    ensures Rows(net.n, entries, PhaseTwo(plan))
    ensures after == WriteRows(net.n, entries, PhaseTwo(plan), states'[|steps'|].written)
    ensures 0 <= TriMatrixIndex(i, j) < |after| && after[TriMatrixIndex(i, j)] == EntryOf(plan, i, j)
  {
    PhaseOnePlans(net, hash, segments, states, steps);
    plan := PlanOf(net, hash, TableOf(PhaseOne(net), states[|steps|].written));
    PhaseTwoRows(plan, entries);
    EveryEntryIsWritten(net.n, segments', states', steps', entries, PhaseTwo(plan), i, j);
    after := WriteRows(net.n, entries, PhaseTwo(plan), states'[|steps'|].written);
    EntryInRow(plan, i, j);
  }
}
