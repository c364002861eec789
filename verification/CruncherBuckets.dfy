/** The critical sections of the server cruncher, in place: a worker putting a batch into its bucket,
    and a snapshot swapping out the sets of all buckets. */
module CruncherBuckets {
  import opened CruncherModel

  class Bucket {
    var servers: set<ServerId>

    constructor ()
      ensures servers == {}
    {
      servers := {};
    }

    /** What the worker does to the set between lock and unlock. */
    method Process(batch: Batch)
      modifies this
      ensures servers == old(servers) + Elements(batch)
    {
      for i := 0 to |batch|
        invariant servers == old(servers) + Elements(batch[..i])
      {
        servers := servers + {batch[i]};
        assert batch[..i + 1] == batch[..i] + [batch[i]];
      }
      assert batch[..|batch|] == batch;
    }
  }

  /** What the snapshot does while it holds all locks. */
  method SwapOut(buckets: array<Bucket>) returns (taken: seq<set<ServerId>>)
    requires forall i, j :: 0 <= i < j < buckets.Length ==> buckets[i] != buckets[j]
    modifies set i | 0 <= i < buckets.Length :: buckets[i]
    ensures |taken| == buckets.Length
    ensures forall i :: 0 <= i < buckets.Length ==> taken[i] == old(buckets[i].servers) && buckets[i].servers == {}
  {
    taken := [];
    for i := 0 to buckets.Length
      invariant |taken| == i
      invariant forall k :: 0 <= k < i ==> taken[k] == old(buckets[k].servers) && buckets[k].servers == {}
      invariant forall k :: i <= k < buckets.Length ==> buckets[k].servers == old(buckets[k].servers)
    {
      taken := taken + [buckets[i].servers];
      buckets[i].servers := {};
    }
  }

  // ----- the same in steps -----

  ghost predicate Repeats(states: seq<State>, step: Step, count: nat) {
    && |states| == count + 1
    && forall i :: 0 <= i < count ==>
         Shaped(states[i]) && Enabled(states[i], step) && states[i + 1] == Next(states[i], step)
  }

  /** Between its lock and unlock steps a worker leaves its bucket as the method does. */
  lemma {:induction false} InsertsAreProcess(states: seq<State>, b: nat, n: nat)
    requires Repeats(states, InsertStep(b), n)
    requires Shaped(states[0]) && b < Buckets(states[0])
    requires states[0].workers[b].Inserting? && states[0].workers[b].done == 0
    ensures Shaped(states[n]) && b < Buckets(states[n]) && states[n].workers[b].Inserting?
    ensures states[n].workers[b] == states[0].workers[b].(done := n)
    ensures n <= |states[0].workers[b].batch|
    ensures states[n].live[b] == states[0].live[b] + Elements(states[0].workers[b].batch[..n])
  {
    if n > 0 {
      var front := states[..n];
      InsertsAreProcess(front, b, n - 1);
      assert Enabled(states[n - 1], InsertStep(b)) && states[n] == Next(states[n - 1], InsertStep(b));
      StepKeepsShape(states[n - 1], InsertStep(b));
      var batch := states[0].workers[b].batch;
      assert batch[..n] == batch[..n - 1] + [batch[n - 1]];
    }
  }

  /** While it holds all locks a snapshot collects the sets and empties the buckets as the method does. */
  lemma {:induction false} SwapsAreSwapOut(states: seq<State>, k: nat, n: nat)
    requires Repeats(states, TickStep(k), n) && n <= Buckets(states[0])
    requires Shaped(states[0]) && k < |states[0].snapshots| && states[0].snapshots[k] == Swapping(0, [])
    ensures Shaped(states[n]) && Buckets(states[n]) == Buckets(states[0]) && k < |states[n].snapshots|
    ensures states[n].snapshots[k] == Swapping(n, states[0].live[..n])
    ensures forall i :: 0 <= i < Buckets(states[0]) ==> states[n].live[i] == if i < n then {} else states[0].live[i]
  {
    if n > 0 {
      SwapsAreSwapOut(states[..n], k, n - 1);
      assert Enabled(states[n - 1], TickStep(k)) && states[n] == Next(states[n - 1], TickStep(k));
      StepKeepsShape(states[n - 1], TickStep(k));
    }
  }
}
