/** The cruncher never deadlocks and always drains: work in progress can always move, each move
    uses up some of a finite amount of work, and when nothing can move nothing is left to do. */
module CruncherProgress {
  import opened CruncherModel
  import opened CruncherCut

  /** Some goroutine other than an idle worker has something left to do. */
  predicate Pending(s: State) {
    || (exists h :: 0 <= h < |s.handlers| && s.handlers[h] != [])
    || (exists b :: 0 <= b < |s.channels| && s.channels[b] != [])
    || (exists b :: 0 <= b < |s.workers| && !s.workers[b].Idle?)
    || (exists k :: 0 <= k < |s.snapshots| && !s.snapshots[k].Published?)
  }

  ghost predicate CanMove(s: State)
    requires Shaped(s)
  {
    exists step :: Internal(step) && Enabled(s, step)
  }

  /** A snapshot that waits for locks and has got further than every other one. */
  lemma {:induction false} FurthestLocker(s: State, upTo: nat) returns (k: nat)
    requires upTo <= |s.snapshots|
    requires exists j :: 0 <= j < upTo && s.snapshots[j].Locking?
    ensures k < upTo && s.snapshots[k].Locking?
    ensures forall j :: 0 <= j < upTo && s.snapshots[j].Locking? ==> s.snapshots[j].next <= s.snapshots[k].next
  {
    var last := upTo - 1;
    if exists j :: 0 <= j < last && s.snapshots[j].Locking? {
      k := FurthestLocker(s, last);
      if s.snapshots[last].Locking? && s.snapshots[k].next < s.snapshots[last].next {
        k := last;
      }
    } else {
      k := last;
    }
  }

  lemma SnapshotLockIsHeld(s: State, b: nat)
    requires Cutting(s)
    requires b < Buckets(s)
    ensures s.locks[b].BySnapshot? ==>
      s.locks[b].index < |s.snapshots| && Holds(s.snapshots[s.locks[b].index], b)
  {
  }

  /** Snapshots lock in index order, so the one that has got furthest waits for nobody but a worker. */
  lemma LockersDoNotDeadlock(s: State)
    requires Cutting(s)
    requires exists k :: 0 <= k < |s.snapshots| && s.snapshots[k].Locking?
    requires forall k :: 0 <= k < |s.snapshots| ==> !s.snapshots[k].Swapping? && !s.snapshots[k].Unlocking?
    requires forall b :: 0 <= b < Buckets(s) ==> !s.workers[b].Inserting?
    ensures CanMove(s)
  {
    var k := FurthestLocker(s, |s.snapshots|);
    var i := s.snapshots[k].next;
    if i < Buckets(s) {
      SnapshotLockIsHeld(s, i);
    }
    assert Enabled(s, TickStep(k));
  }

  lemma NoSnapshotNoLock(s: State, b: nat)
    requires Cutting(s)
    requires b < Buckets(s)
    requires forall k :: 0 <= k < |s.snapshots| ==> s.snapshots[k].Published? || s.snapshots[k].Merging?
    ensures !s.locks[b].BySnapshot?
  {
    SnapshotLockIsHeld(s, b);
  }

  /** Without snapshots in the way, workers and handlers can move whenever they have work. */
  lemma WorkersDoNotDeadlock(s: State)
    requires Cutting(s)
    requires Pending(s)
    requires forall k :: 0 <= k < |s.snapshots| ==> s.snapshots[k].Published?
    requires forall b :: 0 <= b < Buckets(s) ==> !s.workers[b].Inserting?
    ensures CanMove(s)
  {
    if b :| 0 <= b < Buckets(s) && s.workers[b].Got? {
      NoSnapshotNoLock(s, b);
      assert Enabled(s, LockStep(b));
    } else if b :| 0 <= b < Buckets(s) && s.channels[b] != [] {
      assert Enabled(s, TakeStep(b));
    } else {
      var h :| 0 <= h < |s.handlers| && s.handlers[h] != [];
      assert s.handlers[h][0] in s.handlers[h];
      assert Enabled(s, HandOffStep(h));
    }
  }

  lemma PendingCanMove(s: State)
    requires Cutting(s)
    requires Pending(s)
    ensures CanMove(s)
  {
    if k :| 0 <= k < |s.snapshots| && !s.snapshots[k].Published? && !s.snapshots[k].Locking? {
      assert Enabled(s, TickStep(k));
    } else if b :| 0 <= b < Buckets(s) && s.workers[b].Inserting? {
      if s.workers[b].done < |s.workers[b].batch| {
        assert Enabled(s, InsertStep(b));
      } else {
        assert Enabled(s, UnlockStep(b));
      }
    } else if k :| 0 <= k < |s.snapshots| && s.snapshots[k].Locking? {
      LockersDoNotDeadlock(s);
    } else {
      WorkersDoNotDeadlock(s);
    }
  }

  /** In every reachable state with work in progress some goroutine can take a step, whatever the
      channel capacity and however many handlers and snapshots are under way. */
  lemma NeverDeadlocks(states: seq<State>, steps: seq<Step>, i: nat)
    requires IsRun(states, steps)
    requires i < |states|
    requires Pending(states[i])
    ensures Shaped(states[i]) && CanMove(states[i])
  {
    RunIsCutting(states, steps, i);
    PendingCanMove(states[i]);
  }

  // ----- draining -----

  function Sum(costs: seq<nat>): nat {
    if costs == [] then 0 else costs[0] + Sum(costs[1..])
  }

  lemma {:induction false} SumUpdate(costs: seq<nat>, i: nat, cost: nat)
    requires i < |costs|
    ensures Sum(costs[i := cost]) == Sum(costs) - costs[i] + cost
  {
    if i == 0 {
      assert costs[0 := cost][1..] == costs[1..];
    } else {
      assert costs[i := cost][1..] == costs[1..][i - 1 := cost];
      SumUpdate(costs[1..], i - 1, cost);
    }
  }

  function DeliveriesWork(ds: seq<Delivery>): nat {
    if ds == [] then 0 else |ds[0].batch| + 5 + DeliveriesWork(ds[1..])
  }

  function ChannelWork(batches: seq<Batch>): nat {
    if batches == [] then 0 else |batches[0]| + 4 + ChannelWork(batches[1..])
  }

  function WorkerWork(w: Worker): nat {
    match w
    case Idle => 0
    case Got(batch) => |batch| + 3
    case Inserting(batch, done, _) => if done <= |batch| then |batch| - done + 2 else 0
  }

  function SnapshotWork(buckets: nat, snapshot: Snapshot): nat {
    match snapshot
    case Locking(i) => if i <= buckets then 3 * buckets + 4 - i else 0
    case Swapping(i, _) => if i <= buckets then 2 * buckets + 3 - i else 0
    case Unlocking(i, _) => if i <= buckets then buckets + 2 - i else 0
    case Merging(_) => 1
    case Published => 0
  }

  function HandlerCosts(s: State): seq<nat> {
    seq(|s.handlers|, h requires 0 <= h < |s.handlers| => DeliveriesWork(s.handlers[h]))
  }

  function ChannelCosts(s: State): seq<nat> {
    seq(|s.channels|, b requires 0 <= b < |s.channels| => ChannelWork(s.channels[b]))
  }

  function WorkerCosts(s: State): seq<nat> {
    seq(|s.workers|, b requires 0 <= b < |s.workers| => WorkerWork(s.workers[b]))
  }

  function SnapshotCosts(s: State): seq<nat> {
    seq(|s.snapshots|, k requires 0 <= k < |s.snapshots| => SnapshotWork(|s.channels|, s.snapshots[k]))
  }

  /** How much work is in progress, in steps at most. */
  function Work(s: State): nat {
    Sum(HandlerCosts(s)) + Sum(ChannelCosts(s)) + Sum(WorkerCosts(s)) + Sum(SnapshotCosts(s))
  }

  lemma {:induction false} ChannelWorkSnoc(batches: seq<Batch>, batch: Batch)
    ensures ChannelWork(batches + [batch]) == ChannelWork(batches) + |batch| + 4
  {
    if batches != [] {
      assert (batches + [batch])[1..] == batches[1..] + [batch];
      ChannelWorkSnoc(batches[1..], batch);
    } else {
      assert ([] + [batch])[1..] == [];
    }
  }

  lemma HandlerStepWorks(s: State, step: Step)
    requires Cutting(s) && Enabled(s, step)
    requires step.SendStep? || step.HandOffStep?
    ensures Work(Next(s, step)) < Work(s)
  {
    var s' := Next(s, step);
    var d := s.handlers[step.h][0];
    assert d in s.handlers[step.h];
    assert HandlerCosts(s') == HandlerCosts(s)[step.h := DeliveriesWork(s.handlers[step.h][1..])];
    SumUpdate(HandlerCosts(s), step.h, DeliveriesWork(s.handlers[step.h][1..]));
    assert SnapshotCosts(s') == SnapshotCosts(s);
    if step.SendStep? {
      ChannelWorkSnoc(s.channels[d.bucket], d.batch);
      assert ChannelCosts(s') == ChannelCosts(s)[d.bucket := ChannelWork(s'.channels[d.bucket])];
      SumUpdate(ChannelCosts(s), d.bucket, ChannelWork(s'.channels[d.bucket]));
      assert WorkerCosts(s') == WorkerCosts(s);
    } else {
      assert WorkerCosts(s') == WorkerCosts(s)[d.bucket := WorkerWork(s'.workers[d.bucket])];
      SumUpdate(WorkerCosts(s), d.bucket, WorkerWork(s'.workers[d.bucket]));
      assert ChannelCosts(s') == ChannelCosts(s);
    }
  }

  lemma WorkerStepWorks(s: State, step: Step)
    requires Cutting(s) && Enabled(s, step)
    requires step.TakeStep? || step.LockStep? || step.InsertStep? || step.UnlockStep?
    ensures Work(Next(s, step)) < Work(s)
  {
    var s' := Next(s, step);
    var b := step.b;
    assert HandlerCosts(s') == HandlerCosts(s);
    assert SnapshotCosts(s') == SnapshotCosts(s);
    assert WorkerCosts(s') == WorkerCosts(s)[b := WorkerWork(s'.workers[b])];
    SumUpdate(WorkerCosts(s), b, WorkerWork(s'.workers[b]));
    assert ChannelCosts(s') == ChannelCosts(s)[b := ChannelWork(s'.channels[b])];
    SumUpdate(ChannelCosts(s), b, ChannelWork(s'.channels[b]));
  }

  lemma TickWorks(s: State, k: nat)
    requires Cutting(s) && Enabled(s, TickStep(k))
    ensures Work(Next(s, TickStep(k))) < Work(s)
  {
    var s' := Next(s, TickStep(k));
    assert HandlerCosts(s') == HandlerCosts(s);
    assert ChannelCosts(s') == ChannelCosts(s);
    assert WorkerCosts(s') == WorkerCosts(s);
    assert SnapshotCosts(s') == SnapshotCosts(s)[k := SnapshotWork(Buckets(s), s'.snapshots[k])];
    SumUpdate(SnapshotCosts(s), k, SnapshotWork(Buckets(s), s'.snapshots[k]));
  }

  /** Every step of a goroutine uses up work. */
  lemma StepWorks(s: State, step: Step)
    requires Cutting(s) && Internal(step) && Enabled(s, step)
    ensures Work(Next(s, step)) < Work(s)
  {
    match step
    case SendStep(_) => HandlerStepWorks(s, step);
    case HandOffStep(_) => HandlerStepWorks(s, step);
    case TickStep(k) => TickWorks(s, k);
    case _ => WorkerStepWorks(s, step);
  }

  /** A stretch of a run without new requests or ticks is no longer than the work it starts with. */
  lemma {:induction false} QuietStretchIsShort(states: seq<State>, steps: seq<Step>, i: nat, j: nat)
    requires IsRun(states, steps)
    requires i <= j < |states|
    requires forall n :: i <= n < j ==> Internal(steps[n])
    ensures (j - i) + Work(states[j]) <= Work(states[i])
  {
    if i < j {
      QuietStretchIsShort(states, steps, i, j - 1);
      RunIsCutting(states, steps, j - 1);
      StepWorks(states[j - 1], steps[j - 1]);
    }
  }

  /** When nothing more can move, every accepted batch has been inserted whole, and every snapshot
      that was started has been published. */
  lemma StandstillIsDone(states: seq<State>, steps: seq<Step>, i: nat, b: nat)
    requires IsRun(states, steps)
    requires i < |states|
    requires b < |states[i].channels|
    requires Shaped(states[i]) && !CanMove(states[i])
    ensures var s := states[i];
      && s.accepted[b] == Finished(s.log, b)
      && s.live[b] == Logged(s.log, b, |s.cuts|)
      && (forall k :: 0 <= k < |s.snapshots| ==> s.snapshots[k].Published?)
      && (forall h :: 0 <= h < |s.handlers| ==> s.handlers[h] == [])
  {
    RunIsCutting(states, steps, i);
    RunConserves(states, steps, i);
    if Pending(states[i]) {
      PendingCanMove(states[i]);
    }
  }
}
