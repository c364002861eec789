/** Every snapshot of the cruncher is one atomic cut through the work of all its workers, and no
    accepted batch is ever lost, duplicated or torn between two snapshots. */
module CruncherCut {
  import opened CruncherModel

  /** The servers that bucket `b` was given in generation `g`. */
  function Logged(log: seq<Entry>, b: nat, g: nat): set<ServerId> {
    if log == [] then {}
    else
      var e := log[|log| - 1];
      Logged(log[..|log| - 1], b, g) + if e.bucket == b && e.generation == g then Elements(e.batch) else {}
  }

  /** The batches bucket `b` has finished, in order. */
  function Finished(log: seq<Entry>, b: nat): seq<Batch> {
    if log == [] then []
    else
      var e := log[|log| - 1];
      Finished(log[..|log| - 1], b) + if e.bucket == b then [e.batch] else []
  }

  function InHand(w: Worker): seq<Batch> {
    if w.Idle? then [] else [w.batch]
  }

  function Inserted(w: Worker): set<ServerId> {
    if w.Inserting? && w.done <= |w.batch| then Elements(w.batch[..w.done]) else {}
  }

  // ----- who holds which lock -----

  predicate Holds(snapshot: Snapshot, b: nat) {
    match snapshot
    case Locking(i) => b < i
    case Swapping(_, _) => true
    case Unlocking(i, _) => i <= b
    case _ => false
  }

  ghost predicate LocksOk(s: State)
    requires Shaped(s)
  {
    && (forall b :: 0 <= b < Buckets(s) ==> (s.locks[b].ByWorker? <==> s.workers[b].Inserting?))
    && (forall b, k :: 0 <= b < Buckets(s) && 0 <= k < |s.snapshots| ==>
          (s.locks[b] == BySnapshot(k) <==> Holds(s.snapshots[k], b)))
    && (forall b :: 0 <= b < Buckets(s) && s.locks[b].BySnapshot? ==> s.locks[b].index < |s.snapshots|)
  }

  lemma WorkerStepKeepsLocks(s: State, step: Step)
    requires Shaped(s) && Enabled(s, step) && LocksOk(s)
    requires !step.TickStep?
    ensures Shaped(Next(s, step)) && LocksOk(Next(s, step))
  {
    StepKeepsShape(s, step);
  }

  lemma TickKeepsLocks(s: State, k: nat)
    requires Shaped(s) && Enabled(s, TickStep(k)) && LocksOk(s)
    ensures Shaped(Next(s, TickStep(k))) && LocksOk(Next(s, TickStep(k)))
  {
    StepKeepsShape(s, TickStep(k));
  }

  /** While a snapshot swaps it holds every lock: no worker inserts and no other snapshot swaps. */
  lemma SwapIsExclusive(s: State, k: nat)
    requires Shaped(s) && LocksOk(s)
    requires k < |s.snapshots| && s.snapshots[k].Swapping?
    ensures forall b :: 0 <= b < Buckets(s) ==> !s.workers[b].Inserting?
    ensures forall j :: 0 <= j < |s.snapshots| && s.snapshots[j].Swapping? ==> j == k
  {
    forall b | 0 <= b < Buckets(s) ensures s.locks[b] == BySnapshot(k) {
      assert Holds(s.snapshots[k], b);
    }
    forall j | 0 <= j < |s.snapshots| && s.snapshots[j].Swapping? ensures j == k {
      assert Holds(s.snapshots[j], 0);
      assert s.locks[0] == BySnapshot(j);
    }
  }

  // ----- generations -----

  /** How often bucket `b` has been swapped: once per completed snapshot, and once more if the
      snapshot that swaps now has passed it. */
  ghost predicate GenerationsOk(s: State)
    requires Shaped(s)
  {
    && (forall k :: 0 <= k < |s.snapshots| && s.snapshots[k].Swapping? ==>
          forall b :: 0 <= b < Buckets(s) ==> s.swaps[b] == |s.cuts| + if b < s.snapshots[k].next then 1 else 0)
    && ((forall k :: 0 <= k < |s.snapshots| ==> !s.snapshots[k].Swapping?) ==>
          forall b :: 0 <= b < Buckets(s) ==> s.swaps[b] == |s.cuts|)
    && (forall b :: 0 <= b < Buckets(s) && s.workers[b].Inserting? ==>
          s.workers[b].generation == s.swaps[b] && s.workers[b].done <= |s.workers[b].batch|)
  }

  lemma InserterIsCurrent(s: State, b: nat)
    requires Shaped(s) && LocksOk(s) && GenerationsOk(s)
    requires b < Buckets(s) && s.workers[b].Inserting?
    ensures s.swaps[b] == |s.cuts|
    ensures forall k :: 0 <= k < |s.snapshots| ==> !s.snapshots[k].Swapping?
  {
    forall k | 0 <= k < |s.snapshots| ensures !s.snapshots[k].Swapping? {
      if s.snapshots[k].Swapping? {
        SwapIsExclusive(s, k);
        assert false;
      }
    }
  }

  lemma WorkerStepKeepsGenerations(s: State, step: Step)
    requires Shaped(s) && Enabled(s, step) && LocksOk(s) && GenerationsOk(s)
    requires !step.TickStep?
    ensures Shaped(Next(s, step)) && GenerationsOk(Next(s, step))
  {
    StepKeepsShape(s, step);
    var s' := Next(s, step);
    assert s'.swaps == s.swaps && s'.cuts == s.cuts;
    if step.StartTickStep? {
      assert forall k :: 0 <= k < |s.snapshots| ==> s'.snapshots[k] == s.snapshots[k];
    } else {
      assert s'.snapshots == s.snapshots;
    }
  }

  /** A tick that swaps: it passes one more bucket, or it is done and its sets are a cut. */
  lemma SwapKeepsGenerations(s: State, k: nat)
    requires Shaped(s) && Enabled(s, TickStep(k)) && LocksOk(s) && GenerationsOk(s)
    requires s.snapshots[k].Swapping?
    ensures Shaped(Next(s, TickStep(k))) && GenerationsOk(Next(s, TickStep(k)))
  {
    StepKeepsShape(s, TickStep(k));
    SwapIsExclusive(s, k);
    var s' := Next(s, TickStep(k));
    assert forall b :: 0 <= b < Buckets(s) ==> s.swaps[b] == |s.cuts| + if b < s.snapshots[k].next then 1 else 0;
    assert forall j :: 0 <= j < |s.snapshots| && j != k ==> !s'.snapshots[j].Swapping?;
    if s.snapshots[k].next < Buckets(s) {
      assert s'.snapshots[k].Swapping?;
    } else {
      assert s'.swaps == s.swaps && |s'.cuts| == |s.cuts| + 1;
    }
  }

  /** A tick that begins to swap: no other one does, so no bucket is ahead. */
  lemma SwapBeginKeepsGenerations(s: State, k: nat)
    requires Shaped(s) && Enabled(s, TickStep(k)) && LocksOk(s) && GenerationsOk(s)
    requires s.snapshots[k] == Locking(Buckets(s))
    ensures Shaped(Next(s, TickStep(k))) && GenerationsOk(Next(s, TickStep(k)))
  {
    StepKeepsShape(s, TickStep(k));
    TickKeepsLocks(s, k);
    var s' := Next(s, TickStep(k));
    SwapIsExclusive(s', k);
    assert forall j :: 0 <= j < |s.snapshots| && j != k ==> s'.snapshots[j] == s.snapshots[j];
    assert forall j :: 0 <= j < |s.snapshots| ==> !s.snapshots[j].Swapping?;
  }

  lemma OtherTickKeepsGenerations(s: State, k: nat)
    requires Shaped(s) && Enabled(s, TickStep(k)) && GenerationsOk(s)
    requires !s.snapshots[k].Swapping? && s.snapshots[k] != Locking(Buckets(s))
    ensures Shaped(Next(s, TickStep(k))) && GenerationsOk(Next(s, TickStep(k)))
  {
    StepKeepsShape(s, TickStep(k));
    var s' := Next(s, TickStep(k));
    assert s'.swaps == s.swaps && s'.cuts == s.cuts && s'.workers == s.workers;
    assert forall j :: 0 <= j < |s.snapshots| && j != k ==> s'.snapshots[j] == s.snapshots[j];
    assert !s'.snapshots[k].Swapping?;
  }

  lemma TickKeepsGenerations(s: State, k: nat)
    requires Shaped(s) && Enabled(s, TickStep(k)) && LocksOk(s) && GenerationsOk(s)
    ensures Shaped(Next(s, TickStep(k))) && GenerationsOk(Next(s, TickStep(k)))
  {
    if s.snapshots[k].Swapping? {
      SwapKeepsGenerations(s, k);
    } else if s.snapshots[k] == Locking(Buckets(s)) {
      SwapBeginKeepsGenerations(s, k);
    } else {
      OtherTickKeepsGenerations(s, k);
    }
  }

  // ----- what the sets hold -----

  /** The log is in generation order, and no entry is ahead of the generation in force. */
  ghost predicate LogOk(s: State) {
    && (forall i :: 0 <= i < |s.log| ==> s.log[i].generation <= |s.cuts| && s.log[i].bucket < |s.channels|)
    && (forall i, j :: 0 <= i < j < |s.log| ==> s.log[i].generation <= s.log[j].generation)
  }

  /** Each live set holds what its bucket was given since its last swap. */
  ghost predicate LiveOk(s: State)
    requires Shaped(s)
  {
    forall b :: 0 <= b < Buckets(s) ==> s.live[b] == Logged(s.log, b, s.swaps[b]) + Inserted(s.workers[b])
  }

  /** The first sets of `taken` are exactly the log of generation `g`. */
  ghost predicate IsCut(log: seq<Entry>, taken: seq<set<ServerId>>, g: nat) {
    forall b :: 0 <= b < |taken| ==> taken[b] == Logged(log, b, g)
  }

  /** Every snapshot, finished or under way, is a cut. */
  ghost predicate CutsOk(s: State)
    requires Shaped(s)
  {
    && (forall g :: 0 <= g < |s.cuts| ==> |s.cuts[g]| == Buckets(s) && IsCut(s.log, s.cuts[g], g))
    && (forall k :: 0 <= k < |s.snapshots| ==>
          match s.snapshots[k]
          case Locking(i) => i <= Buckets(s)
          case Swapping(i, taken) => i == |taken| <= Buckets(s) && IsCut(s.log, taken, |s.cuts|)
          case Unlocking(i, taken) => i <= Buckets(s) && taken in s.cuts
          case Merging(taken) => taken in s.cuts
          case Published => true)
  }

  lemma {:induction false} NothingLoggedAhead(log: seq<Entry>, b: nat, g: nat)
    requires forall i :: 0 <= i < |log| ==> log[i].generation < g
    ensures Logged(log, b, g) == {}
  {
    if log != [] {
      NothingLoggedAhead(log[..|log| - 1], b, g);
    }
  }

  lemma LoggedSnoc(log: seq<Entry>, e: Entry, b: nat, g: nat)
    ensures Logged(log + [e], b, g)
      == Logged(log, b, g) + if e.bucket == b && e.generation == g then Elements(e.batch) else {}
  {
    assert (log + [e])[..|log|] == log;
  }

  ghost predicate Cutting(s: State) {
    && Shaped(s)
    && LocksOk(s)
    && GenerationsOk(s)
    && LogOk(s)
    && LiveOk(s)
    && CutsOk(s)
  }

  lemma CutSurvivesSnoc(log: seq<Entry>, e: Entry, taken: seq<set<ServerId>>, g: nat)
    requires IsCut(log, taken, g)
    requires e.generation != g
    ensures IsCut(log + [e], taken, g)
  {
    forall b | 0 <= b < |taken| ensures taken[b] == Logged(log + [e], b, g) {
      LoggedSnoc(log, e, b, g);
    }
  }

  lemma UnlockKeepsLive(s: State, b: nat)
    requires Cutting(s) && Enabled(s, UnlockStep(b))
    ensures LogOk(Next(s, UnlockStep(b)))
    ensures Shaped(Next(s, UnlockStep(b))) && LiveOk(Next(s, UnlockStep(b)))
  {
    var s' := Next(s, UnlockStep(b));
    StepKeepsShape(s, UnlockStep(b));
    InserterIsCurrent(s, b);
    var w := s.workers[b];
    assert w.batch[..w.done] == w.batch;
    forall c | 0 <= c < Buckets(s) ensures s'.live[c] == Logged(s'.log, c, s'.swaps[c]) + Inserted(s'.workers[c]) {
      LoggedSnoc(s.log, Entry(b, w.batch, w.generation), c, s.swaps[c]);
    }
  }

  lemma UnlockKeepsCutting(s: State, b: nat)
    requires Cutting(s) && Enabled(s, UnlockStep(b))
    ensures Cutting(Next(s, UnlockStep(b)))
  {
    var s' := Next(s, UnlockStep(b));
    WorkerStepKeepsLocks(s, UnlockStep(b));
    WorkerStepKeepsGenerations(s, UnlockStep(b));
    UnlockKeepsLive(s, b);
    InserterIsCurrent(s, b);
    forall g | 0 <= g < |s.cuts| ensures IsCut(s'.log, s'.cuts[g], g) {
      CutSurvivesSnoc(s.log, Entry(b, s.workers[b].batch, s.workers[b].generation), s.cuts[g], g);
    }
  }

  lemma InsertKeepsCutting(s: State, b: nat)
    requires Cutting(s) && Enabled(s, InsertStep(b))
    ensures Cutting(Next(s, InsertStep(b)))
  {
    WorkerStepKeepsLocks(s, InsertStep(b));
    WorkerStepKeepsGenerations(s, InsertStep(b));
    var w := s.workers[b];
    assert w.batch[..w.done + 1] == w.batch[..w.done] + [w.batch[w.done]];
    assert Elements(w.batch[..w.done + 1]) == Elements(w.batch[..w.done]) + {w.batch[w.done]};
  }

  lemma QuietStepKeepsCutting(s: State, step: Step)
    requires Cutting(s) && Enabled(s, step)
    requires !step.TickStep? && !step.UnlockStep? && !step.InsertStep?
    ensures Cutting(Next(s, step))
  {
    WorkerStepKeepsLocks(s, step);
    WorkerStepKeepsGenerations(s, step);
    QuietStepFrame(s, step);
  }

  /** What a step that neither inserts, unlocks nor swaps leaves alone. */
  lemma QuietStepFrame(s: State, step: Step)
    requires Shaped(s) && Enabled(s, step)
    requires !step.TickStep? && !step.UnlockStep? && !step.InsertStep?
    ensures var s' := Next(s, step);
      && s'.live == s.live && s'.log == s.log && s'.swaps == s.swaps && s'.cuts == s.cuts
      && |s'.channels| == |s.channels| && |s'.workers| == |s.workers|
      && (s'.snapshots == s.snapshots || s'.snapshots == s.snapshots + [Locking(0)])
      && (forall b :: 0 <= b < |s.workers| ==> Inserted(s'.workers[b]) == Inserted(s.workers[b]))
  {
    if step.LockStep? {
      var batch := s.workers[step.b].batch;
      assert batch[..0] == [];
    }
  }

  lemma TickKeepsLive(s: State, k: nat)
    requires Cutting(s) && Enabled(s, TickStep(k))
    ensures Shaped(Next(s, TickStep(k))) && LiveOk(Next(s, TickStep(k)))
  {
    StepKeepsShape(s, TickStep(k));
    if s.snapshots[k].Swapping? && s.snapshots[k].next < Buckets(s) {
      SwapIsExclusive(s, k);
      NothingLoggedAhead(s.log, s.snapshots[k].next, |s.cuts| + 1);
    }
  }

  /** Swapping one more bucket out extends the cut by that bucket. */
  lemma SwapExtendsCut(s: State, k: nat)
    requires Cutting(s) && Enabled(s, TickStep(k))
    requires s.snapshots[k].Swapping? && s.snapshots[k].next < Buckets(s)
    ensures IsCut(s.log, s.snapshots[k].taken + [s.live[s.snapshots[k].next]], |s.cuts|)
  {
    SwapIsExclusive(s, k);
    assert IsCut(s.log, s.snapshots[k].taken, |s.cuts|);
  }

  lemma TickKeepsCuts(s: State, k: nat)
    requires Cutting(s) && Enabled(s, TickStep(k))
    ensures Shaped(Next(s, TickStep(k))) && CutsOk(Next(s, TickStep(k)))
  {
    StepKeepsShape(s, TickStep(k));
    var s' := Next(s, TickStep(k));
    if s.snapshots[k].Swapping? {
      SwapIsExclusive(s, k);
      if s.snapshots[k].next < Buckets(s) {
        SwapExtendsCut(s, k);
      } else {
        assert s'.cuts[|s.cuts|] == s.snapshots[k].taken;
      }
    }
  }

  lemma TickKeepsCutting(s: State, k: nat)
    requires Cutting(s) && Enabled(s, TickStep(k))
    ensures Cutting(Next(s, TickStep(k)))
  {
    TickKeepsLocks(s, k);
    TickKeepsGenerations(s, k);
    TickKeepsLive(s, k);
    TickKeepsCuts(s, k);
  }

  lemma StepKeepsCutting(s: State, step: Step)
    requires Cutting(s) && Enabled(s, step)
    ensures Cutting(Next(s, step))
  {
    match step
    case TickStep(k) => TickKeepsCutting(s, k);
    case UnlockStep(b) => UnlockKeepsCutting(s, b);
    case InsertStep(b) => InsertKeepsCutting(s, b);
    case _ => QuietStepKeepsCutting(s, step);
  }

  lemma {:induction false} RunIsCutting(states: seq<State>, steps: seq<Step>, i: nat)
    requires IsRun(states, steps)
    requires i < |states|
    ensures Cutting(states[i])
  {
    if i > 0 {
      RunIsCutting(states, steps, i - 1);
      StepKeepsCutting(states[i - 1], steps[i - 1]);
    }
  }

  // ----- nothing is lost -----

  /** What a channel accepted is, in order, what its worker finished, holds, and has yet to take. */
  ghost predicate Conserved(s: State)
    requires Shaped(s)
  {
    forall b :: 0 <= b < Buckets(s) ==> s.accepted[b] == Finished(s.log, b) + InHand(s.workers[b]) + s.channels[b]
  }

  lemma FinishedSnoc(log: seq<Entry>, e: Entry, b: nat)
    ensures Finished(log + [e], b) == Finished(log, b) + if e.bucket == b then [e.batch] else []
  {
    assert (log + [e])[..|log|] == log;
  }

  ghost predicate ConservedAt(s: State, b: nat)
    requires Shaped(s) && b < Buckets(s)
  {
    s.accepted[b] == Finished(s.log, b) + InHand(s.workers[b]) + s.channels[b]
  }

  lemma UnlockConserves(s: State, u: nat, b: nat)
    requires Shaped(s) && Enabled(s, UnlockStep(u)) && b < Buckets(s) && ConservedAt(s, b)
    requires Shaped(Next(s, UnlockStep(u)))
    ensures ConservedAt(Next(s, UnlockStep(u)), b)
  {
    var w := s.workers[u];
    FinishedSnoc(s.log, Entry(u, w.batch, w.generation), b);
  }

  lemma OtherStepConserves(s: State, step: Step, b: nat)
    requires Shaped(s) && Enabled(s, step) && b < Buckets(s) && ConservedAt(s, b)
    requires !step.UnlockStep? && Shaped(Next(s, step))
    ensures b < Buckets(Next(s, step)) && ConservedAt(Next(s, step), b)
  {
    var s' := Next(s, step);
    var finished := Finished(s.log, b);
    assert s'.log == s.log;
    match step
    case SendStep(h) =>
      var d := s.handlers[h][0];
      assert finished + InHand(s.workers[b]) + (s.channels[b] + [d.batch])
          == finished + InHand(s.workers[b]) + s.channels[b] + [d.batch];
    case HandOffStep(h) =>
      var d := s.handlers[h][0];
      assert d.bucket == b ==> s.accepted[b] == finished;
    case TakeStep(u) =>
      assert u == b ==> s.channels[b] == InHand(s'.workers[b]) + s'.channels[b];
    case _ =>
      assert s'.channels == s.channels && s'.accepted == s.accepted;
      assert InHand(s'.workers[b]) == InHand(s.workers[b]);
  }

  lemma StepConserves(s: State, step: Step)
    requires Shaped(s) && Enabled(s, step) && Conserved(s)
    ensures Shaped(Next(s, step)) && Conserved(Next(s, step))
  {
    StepKeepsShape(s, step);
    var s' := Next(s, step);
    forall b | 0 <= b < Buckets(s')
      ensures s'.accepted[b] == Finished(s'.log, b) + InHand(s'.workers[b]) + s'.channels[b]
    {
      assert ConservedAt(s, b);
      if step.UnlockStep? {
        UnlockConserves(s, step.b, b);
      } else {
        OtherStepConserves(s, step, b);
      }
      assert ConservedAt(s', b);
    }
  }

  lemma {:induction false} RunConserves(states: seq<State>, steps: seq<Step>, i: nat)
    requires IsRun(states, steps)
    requires i < |states|
    ensures Shaped(states[i]) && Conserved(states[i])
  {
    if i > 0 {
      RunConserves(states, steps, i - 1);
      StepConserves(states[i - 1], steps[i - 1]);
    }
  }

  // ----- theorems -----

  /** In every reachable state: the workers' log is in generation order, so each generation is one
      contiguous stretch of it across all buckets, and every completed snapshot holds, bucket by
      bucket, exactly the servers of its stretch. */
  lemma SnapshotsAreAtomicCuts(states: seq<State>, steps: seq<Step>, i: nat)
    requires IsRun(states, steps)
    requires i < |states|
    ensures var s := states[i];
      && (forall x, y :: 0 <= x < y < |s.log| ==> s.log[x].generation <= s.log[y].generation)
      && (forall g, b :: 0 <= g < |s.cuts| && 0 <= b < |s.cuts[g]| ==> s.cuts[g][b] == Logged(s.log, b, g))
      && (forall g :: 0 <= g < |s.cuts| ==> |s.cuts[g]| == |s.channels|)
      && (forall k :: 0 <= k < |s.snapshots| && s.snapshots[k].Merging? ==> s.snapshots[k].taken in s.cuts)
  {
    RunIsCutting(states, steps, i);
    var s := states[i];
    forall g, b | 0 <= g < |s.cuts| && 0 <= b < |s.cuts[g]| ensures s.cuts[g][b] == Logged(s.log, b, g) {
      assert IsCut(s.log, s.cuts[g], g);
    }
  }

  lemma {:induction false} EntryIsLogged(log: seq<Entry>, i: nat)
    requires i < |log|
    ensures Elements(log[i].batch) <= Logged(log, log[i].bucket, log[i].generation)
  {
    if i < |log| - 1 {
      EntryIsLogged(log[..|log| - 1], i);
    }
  }

  lemma {:induction false} LoggedCameFromBatch(log: seq<Entry>, b: nat, g: nat, x: ServerId)
    requires x in Logged(log, b, g)
    ensures exists batch :: batch in Finished(log, b) && x in batch
  {
    var e := log[|log| - 1];
    if e.bucket == b && e.generation == g && x in e.batch {
      assert e.batch in Finished(log, b);
    } else {
      LoggedCameFromBatch(log[..|log| - 1], b, g, x);
      var batch :| batch in Finished(log[..|log| - 1], b) && x in batch;
      assert batch in Finished(log, b);
    }
  }

  /** The whole batch of a log entry is in one place: the completed snapshot of its generation, the
      snapshot that is being swapped out, or its bucket's live set. */
  ghost predicate Placed(s: State, e: Entry) {
    || (&& e.generation < |s.cuts|
        && e.bucket < |s.cuts[e.generation]|
        && Elements(e.batch) <= s.cuts[e.generation][e.bucket])
    || (exists k :: && 0 <= k < |s.snapshots|
                    && s.snapshots[k].Swapping?
                    && e.bucket < |s.snapshots[k].taken|
                    && Elements(e.batch) <= s.snapshots[k].taken[e.bucket])
    || (e.bucket < |s.live| && Elements(e.batch) <= s.live[e.bucket])
  }

  lemma EntryIsPlaced(s: State, x: nat)
    requires Cutting(s)
    requires x < |s.log|
    ensures Placed(s, s.log[x])
  {
    var e := s.log[x];
    EntryIsLogged(s.log, x);
    if e.generation < |s.cuts| {
      assert IsCut(s.log, s.cuts[e.generation], e.generation);
    } else if k :| 0 <= k < |s.snapshots| && s.snapshots[k].Swapping? {
      assert IsCut(s.log, s.snapshots[k].taken, |s.cuts|);
    }
  }

  /** No update is lost: what a channel accepted is, in order and without loss or repetition, what
      its worker finished, what it holds, and what waits in the channel; and every finished batch,
      each on its own, lies entirely in one snapshot or in the live set. */
  lemma NoUpdateIsLost(states: seq<State>, steps: seq<Step>, i: nat, b: nat)
    requires IsRun(states, steps)
    requires i < |states|
    requires b < |states[i].channels|
    ensures var s := states[i];
      && |s.workers| == |s.accepted| == |s.channels|
      && s.accepted[b] == Finished(s.log, b) + InHand(s.workers[b]) + s.channels[b]
      && (forall x :: 0 <= x < |s.log| ==> Placed(s, s.log[x]))
  {
    RunConserves(states, steps, i);
    RunIsCutting(states, steps, i);
    var s := states[i];
    forall x | 0 <= x < |s.log| ensures Placed(s, s.log[x]) {
      EntryIsPlaced(s, x);
    }
  }

  /** No update is made up: every server in a snapshot came in a batch its bucket accepted. */
  lemma SnapshotsHoldOnlyUpdates(states: seq<State>, steps: seq<Step>, i: nat, g: nat, b: nat, x: ServerId)
    requires IsRun(states, steps)
    requires i < |states|
    requires g < |states[i].cuts| && b < |states[i].cuts[g]|
    requires x in states[i].cuts[g][b]
    ensures b < |states[i].accepted| && exists batch :: batch in states[i].accepted[b] && x in batch
  {
    RunConserves(states, steps, i);
    RunIsCutting(states, steps, i);
    var s := states[i];
    assert IsCut(s.log, s.cuts[g], g);
    LoggedCameFromBatch(s.log, b, g, x);
    var batch :| batch in Finished(s.log, b) && x in batch;
    assert batch in s.accepted[b];
  }
}
