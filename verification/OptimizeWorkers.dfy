/** Workers that pull rows from a shared counter until none is left. */
module OptimizeWorkers {
  import opened RelayNet

  datatype Worker = Idle | Busy(row: nat) | Gone

  /** The counter, the workers, and the rows in the order in which they were completed. */
  datatype State = State(next: nat, workers: seq<Worker>, written: seq<nat>)

  predicate Enabled(s: State, w: nat) {
    w < |s.workers| && s.workers[w] != Gone
  }

  /** Worker `w` takes the next row, or leaves when there is none, or completes the row it has. */
  function Next(n: nat, s: State, w: nat): State
    requires Enabled(s, w)
  {
    match s.workers[w]
    case Idle =>
      State(s.next + 1, s.workers[w := if s.next < n then Busy(s.next) else Gone], s.written)
    case Busy(row) => State(s.next, s.workers[w := Idle], s.written + [row])
  }

  function Start(segments: nat): State {
    State(0, seq(segments, _ => Idle), [])
  }

  ghost predicate IsRun(n: nat, segments: nat, states: seq<State>, steps: seq<nat>) {
    && |states| == |steps| + 1
    && states[0] == Start(segments)
    && (forall i :: 0 <= i < |steps| ==>
          Enabled(states[i], steps[i]) && states[i + 1] == Next(n, states[i], steps[i]))
  }

  ghost predicate AllGone(s: State) {
    forall w :: 0 <= w < |s.workers| ==> s.workers[w] == Gone
  }

  // ----- the invariant -----

  predicate Handed(n: nat, s: State, row: nat) {
    row < s.next && row < n
  }

  ghost predicate HeldBy(s: State, row: nat, w: nat) {
    w < |s.workers| && s.workers[w] == Busy(row)
  }

  ghost predicate Exclusive(n: nat, s: State) {
    && (forall i, j :: 0 <= i < j < |s.written| ==> s.written[i] != s.written[j])
    && (forall i :: 0 <= i < |s.written| ==> Handed(n, s, s.written[i]))
    && (forall w :: 0 <= w < |s.workers| && s.workers[w].Busy? ==>
          Handed(n, s, s.workers[w].row) && s.workers[w].row !in s.written)
    && (forall v, w :: 0 <= v < w < |s.workers| && s.workers[v].Busy? ==> s.workers[v] != s.workers[w])
  }

  ghost predicate Complete(n: nat, s: State) {
    && (forall row :: Handed(n, s, row) ==> row in s.written || exists w :: HeldBy(s, row, w))
    && (forall w :: 0 <= w < |s.workers| && s.workers[w] == Gone ==> s.next >= n)
  }

  lemma StepKeepsExclusive(n: nat, s: State, w: nat)
    requires Enabled(s, w) && Exclusive(n, s)
    ensures Exclusive(n, Next(n, s, w))
  {
  }

  lemma StepKeepsComplete(n: nat, s: State, w: nat)
    requires Enabled(s, w) && Complete(n, s)
    ensures Complete(n, Next(n, s, w))
  {
    var t := Next(n, s, w);
    forall row | Handed(n, t, row) ensures row in t.written || exists v :: HeldBy(t, row, v) {
      if Handed(n, s, row) {
        if row !in s.written {
          var v :| HeldBy(s, row, v);
          if v != w {
            assert HeldBy(t, row, v);
          } else {
            assert t.written[|s.written|] == row;
          }
        }
      } else {
        assert HeldBy(t, row, w);
      }
    }
  }

  // ----- counting -----

  function Count(workers: seq<Worker>, gone: bool): nat {
    if workers == [] then 0
    else Count(workers[..|workers| - 1], gone) + Weight(workers[|workers| - 1], gone)
  }

  function Weight(worker: Worker, gone: bool): nat {
    if (if gone then worker.Gone? else worker.Busy?) then 1 else 0
  }

  lemma {:induction false} CountUpdate(workers: seq<Worker>, w: nat, worker: Worker, gone: bool)
    requires w < |workers|
    ensures Count(workers[w := worker], gone) + Weight(workers[w], gone) == Count(workers, gone) + Weight(worker, gone)
  {
    var n := |workers| - 1;
    if w < n {
      CountUpdate(workers[..n], w, worker, gone);
      assert workers[w := worker][..n] == workers[..n][w := worker];
    } else {
      assert workers[w := worker][..n] == workers[..n];
    }
  }

  lemma {:induction false} CountBounds(workers: seq<Worker>)
    ensures Count(workers, true) + Count(workers, false) <= |workers|
  {
    if workers != [] {
      CountBounds(workers[..|workers| - 1]);
    }
  }

  lemma {:induction false} CountIdle(segments: nat)
    ensures Count(Start(segments).workers, true) == 0 == Count(Start(segments).workers, false)
  {
    if segments > 0 {
      CountIdle(segments - 1);
      assert Start(segments).workers[..segments - 1] == Start(segments - 1).workers;
    }
  }

  /** Every row handed out is completed or held; every pull beyond the last row sent a worker away. */
  ghost predicate Counted(n: nat, s: State, taken: nat) {
    && |s.written| + Count(s.workers, false) == (if s.next < n then s.next else n)
    && Count(s.workers, true) == (if s.next < n then 0 else s.next - n)
    && taken == s.next + |s.written|
  }

  lemma StepKeepsCounted(n: nat, s: State, w: nat, taken: nat)
    requires Enabled(s, w) && Counted(n, s, taken)
    ensures Counted(n, Next(n, s, w), taken + 1)
  {
    var worker := Next(n, s, w).workers[w];
    CountUpdate(s.workers, w, worker, true);
    CountUpdate(s.workers, w, worker, false);
  }

  // ----- whole runs -----

  lemma {:induction false} RunIsOrderly(n: nat, segments: nat, states: seq<State>, steps: seq<nat>, i: nat)
    requires IsRun(n, segments, states, steps) && i <= |steps|
    ensures |states[i].workers| == segments
    ensures Exclusive(n, states[i]) && Complete(n, states[i]) && Counted(n, states[i], i)
  {
    if i == 0 {
      CountIdle(segments);
    } else {
      RunIsOrderly(n, segments, states, steps, i - 1);
      var before, w := states[i - 1], steps[i - 1];
      assert Enabled(before, w) && states[i] == Next(n, before, w);
      StepKeepsExclusive(n, before, w);
      StepKeepsComplete(n, before, w);
      StepKeepsCounted(n, before, w, i - 1);
    }
  }

  /** No row is completed twice, no row is held by two workers, and a run ends within two moves per
      row and one per worker; until all workers have left, one of them can move. */
  lemma RunIsShort(n: nat, segments: nat, states: seq<State>, steps: seq<nat>)
    requires IsRun(n, segments, states, steps)
    ensures forall i :: 0 <= i < |states| ==> Exclusive(n, states[i])
    ensures |steps| <= 2 * n + segments
    ensures AllGone(states[|steps|]) || exists w :: Enabled(states[|steps|], w)
  {
    var s := states[|steps|];
    forall i | 0 <= i < |states| ensures Exclusive(n, states[i]) {
      RunIsOrderly(n, segments, states, steps, i);
    }
    RunIsOrderly(n, segments, states, steps, |steps|);
    CountBounds(s.workers);
    if !AllGone(s) {
      var w :| 0 <= w < |s.workers| && s.workers[w] != Gone;
      assert Enabled(s, w);
    }
  }

  /** The table that the completed rows leave behind, when row i always comes out as `f(i)`. */
  function TableOf<T>(f: nat -> T, written: seq<nat>): map<nat, T> {
    if written == [] then map[]
    else
      var row := written[|written| - 1];
      TableOf(f, written[..|written| - 1])[row := f(row)]
  }

  lemma {:induction false} TableHolds<T>(f: nat -> T, written: seq<nat>)
    ensures TableOf(f, written) == map row: nat | row in written :: f(row)
  {
    if written != [] {
      TableHolds(f, written[..|written| - 1]);
      assert written == written[..|written| - 1] + [written[|written| - 1]];
    }
  }

  lemma AllRowsWritten(n: nat, segments: nat, states: seq<State>, steps: seq<nat>, row: nat)
    requires IsRun(n, segments, states, steps) && AllGone(states[|steps|]) && segments > 0 && row < n
    ensures row in states[|steps|].written
  {
    var s := states[|steps|];
    RunIsOrderly(n, segments, states, steps, |steps|);
    assert s.workers[0] == Gone;
    assert Handed(n, s, row);
  }

  /** When all workers have left, the table is the same whatever the number of workers and whatever
      their order, and it holds every row exactly if there was a worker or nothing to do. */
  lemma ScheduleDoesNotMatter<T>(n: nat, segments: nat, states: seq<State>, steps: seq<nat>, f: nat -> T)
    requires IsRun(n, segments, states, steps) && AllGone(states[|steps|])
    ensures var written := states[|steps|].written;
      if segments > 0 then |written| == n && TableOf(f, written) == map row: nat | row < n :: f(row)
      else written == []
  {
    var s := states[|steps|];
    RunIsOrderly(n, segments, states, steps, |steps|);
    TableHolds(f, s.written);
    if segments > 0 {
      forall row: nat | row < n ensures row in s.written {
        AllRowsWritten(n, segments, states, steps, row);
      }
      GoneAreNotBusy(s.workers);
    } else {
      assert s.workers == [];
      assert Count(s.workers, true) == 0 == Count(s.workers, false);
    }
  }

  lemma {:induction false} GoneAreNotBusy(workers: seq<Worker>)
    requires forall w :: 0 <= w < |workers| ==> workers[w] == Gone
    ensures Count(workers, false) == 0
  {
    if workers != [] {
      GoneAreNotBusy(workers[..|workers| - 1]);
    }
  }

  // ----- rows of the triangle -----

  /** Row `r` written into its stretch of the triangle. */
  function WriteRow<T>(entries: seq<T>, r: nat, row: seq<T>): (after: seq<T>)
    requires |row| == r && TriMatrixLength(r) + r <= |entries|
    ensures |after| == |entries|
    ensures forall k :: 0 <= k < |entries| ==>
      after[k] == if TriMatrixLength(r) <= k < TriMatrixLength(r) + r then row[k - TriMatrixLength(r)] else entries[k]
  {
    entries[..TriMatrixLength(r)] + row + entries[TriMatrixLength(r) + r..]
  }

  ghost predicate Rows<T>(n: nat, entries: seq<T>, rowOf: nat -> seq<T>) {
    |entries| == TriMatrixLength(n) && forall r: nat :: r < n ==> |rowOf(r)| == r
  }

  lemma StretchFits(r: nat, n: nat)
    requires r < n
    ensures TriMatrixLength(r) + r <= TriMatrixLength(n)
  {
    TriMatrixStep(r);
    TriMatrixMonotone(r + 1, n);
  }

  ghost function WriteRows<T>(n: nat, entries: seq<T>, rowOf: nat -> seq<T>, written: seq<nat>): (after: seq<T>)
    requires Rows(n, entries, rowOf) && forall i :: 0 <= i < |written| ==> written[i] < n
    ensures |after| == |entries|
    decreases |written|
  {
    if written == [] then entries
    else
      var r := written[|written| - 1];
      StretchFits(r, n);
      WriteRow(WriteRows(n, entries, rowOf, written[..|written| - 1]), r, rowOf(r))
  }

  /** Whatever the order, each row written ends up whole in its own stretch. */
  lemma {:induction false} RowsLand<T>(n: nat, entries: seq<T>, rowOf: nat -> seq<T>, written: seq<nat>, i: nat, j: nat)
    requires Rows(n, entries, rowOf) && forall k :: 0 <= k < |written| ==> written[k] < n
    requires j < i < n && i in written
    ensures 0 <= TriMatrixIndex(i, j) < |entries|
    ensures WriteRows(n, entries, rowOf, written)[TriMatrixIndex(i, j)] == rowOf(i)[j]
    decreases |written|
  {
    TriMatrixInRange(i, j, n);
    TriMatrixIndexIs(i, j);
    var r := written[|written| - 1];
    if r != i {
      RowsLand(n, entries, rowOf, written[..|written| - 1], i, j);
      StretchesAreDisjoint(i, j, r);
    }
  }

  lemma StretchesAreDisjoint(i: nat, j: nat, r: nat)
    requires j < i && r != i
    ensures !(TriMatrixLength(r) <= TriMatrixLength(i) + j < TriMatrixLength(r) + r)
  {
    TriMatrixStep(r);
    TriMatrixStep(i);
    if r < i {
      TriMatrixMonotone(r + 1, i);
    } else {
      TriMatrixMonotone(i + 1, r);
    }
  }

  /** When all workers have left, and there was at least one, every pair has the entry of its row. */
  lemma EveryEntryIsWritten<T>(
      n: nat, segments: nat, states: seq<State>, steps: seq<nat>, entries: seq<T>, rowOf: nat -> seq<T>, i: nat, j: nat)
    requires IsRun(n, segments, states, steps) && AllGone(states[|steps|]) && segments > 0
    requires Rows(n, entries, rowOf) && j < i < n
    ensures forall k :: 0 <= k < |states[|steps|].written| ==> states[|steps|].written[k] < n
    ensures 0 <= TriMatrixIndex(i, j) < |entries|
    ensures WriteRows(n, entries, rowOf, states[|steps|].written)[TriMatrixIndex(i, j)] == rowOf(i)[j]
  {
    var s := states[|steps|];
    RunIsOrderly(n, segments, states, steps, |steps|);
    assert forall k :: 0 <= k < |s.written| ==> Handed(n, s, s.written[k]);
    AllRowsWritten(n, segments, states, steps, i);
    RowsLand(n, entries, rowOf, s.written, i, j);
  }
}
