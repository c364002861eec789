/** The server cruncher's goroutines: request handlers that feed bounded channels, one worker per
    bucket, and snapshot ticks that lock every bucket, swap all the sets out and unlock them.
    A tick is started in its own goroutine, so several snapshots may be under way at once. */
module CruncherModel {

  type ServerId = nat
  type Batch = seq<ServerId>

  function Elements(batch: Batch): set<ServerId> {
    set x | x in batch
  }

  /** A bucket's worker. While inserting it holds the bucket's lock; `generation` is how often the
      bucket had been swapped when the lock was taken. */
  datatype Worker = Idle | Got(batch: Batch) | Inserting(batch: Batch, done: nat, generation: nat)

  datatype Owner = Free | ByWorker | BySnapshot(index: nat)

  /** A snapshot tick: `next` is the bucket it will lock, swap or unlock next. */
  datatype Snapshot =
    | Locking(next: nat)
    | Swapping(next: nat, taken: seq<set<ServerId>>)
    | Unlocking(next: nat, taken: seq<set<ServerId>>)
    | Merging(taken: seq<set<ServerId>>)
    | Published

  /** One channel send a request handler still has to make. */
  datatype Delivery = Delivery(bucket: nat, batch: Batch)

  datatype Entry = Entry(bucket: nat, batch: Batch, generation: nat)

  /** The last four fields are history: the batches each channel accepted, the batches the workers
      finished in the order they released the lock, how often each bucket was swapped, and the
      completed snapshots. */
  datatype State = State(
    capacity: nat,
    channels: seq<seq<Batch>>,
    workers: seq<Worker>,
    locks: seq<Owner>,
    live: seq<set<ServerId>>,
    snapshots: seq<Snapshot>,
    handlers: seq<seq<Delivery>>,
    accepted: seq<seq<Batch>>,
    log: seq<Entry>,
    swaps: seq<nat>,
    cuts: seq<seq<set<ServerId>>>)

  datatype Step =
    | ArriveStep(deliveries: seq<Delivery>)
    | StartTickStep
    | SendStep(h: nat)
    | HandOffStep(h: nat)
    | TakeStep(b: nat)
    | LockStep(b: nat)
    | InsertStep(b: nat)
    | UnlockStep(b: nat)
    | TickStep(k: nat)

  predicate Internal(step: Step) {
    !step.ArriveStep? && !step.StartTickStep?
  }

  function Buckets(s: State): nat {
    |s.channels|
  }

  predicate Shaped(s: State) {
    && 0 < |s.channels|
    && |s.workers| == |s.locks| == |s.live| == |s.accepted| == |s.swaps| == |s.channels|
    && (forall h, d :: 0 <= h < |s.handlers| && d in s.handlers[h] ==> d.bucket < |s.channels|)
  }

  function Start(buckets: nat, capacity: nat): State {
    State(capacity, seq(buckets, _ => []), seq(buckets, _ => Idle), seq(buckets, _ => Free), seq(buckets, _ => {}),
          [], [], seq(buckets, _ => []), [], seq(buckets, _ => 0), [])
  }

  predicate Enabled(s: State, step: Step)
    requires Shaped(s)
  {
    match step
    case ArriveStep(ds) => forall d :: d in ds ==> d.bucket < Buckets(s)
    case StartTickStep => true
    case SendStep(h) => h < |s.handlers| && s.handlers[h] != [] && HasRoom(s, h)
    case HandOffStep(h) => h < |s.handlers| && s.handlers[h] != [] && HasReceiver(s, h)
    case TakeStep(b) => b < Buckets(s) && s.workers[b].Idle? && s.channels[b] != []
    case LockStep(b) => b < Buckets(s) && s.workers[b].Got? && s.locks[b].Free?
    case InsertStep(b) => b < Buckets(s) && s.workers[b].Inserting? && s.workers[b].done < |s.workers[b].batch|
    case UnlockStep(b) => b < Buckets(s) && s.workers[b].Inserting? && s.workers[b].done == |s.workers[b].batch|
    case TickStep(k) =>
      && k < |s.snapshots|
      && match s.snapshots[k]
         case Locking(i) => i == Buckets(s) || (i < Buckets(s) && s.locks[i].Free?)
         case Swapping(i, _) => i <= Buckets(s)
         case Unlocking(i, _) => i <= Buckets(s)
         case Merging(_) => true
         case Published => false
  }

  /** A buffered send needs room in the channel. */
  predicate HasRoom(s: State, h: nat)
    requires Shaped(s) && h < |s.handlers| && s.handlers[h] != []
  {
    var d := s.handlers[h][0];
    assert d in s.handlers[h];
    |s.channels[d.bucket]| < s.capacity
  }

  /** A send straight to a worker that waits on the empty channel; the only kind of send an
      unbuffered channel allows. */
  predicate HasReceiver(s: State, h: nat)
    requires Shaped(s) && h < |s.handlers| && s.handlers[h] != []
  {
    var d := s.handlers[h][0];
    assert d in s.handlers[h];
    s.channels[d.bucket] == [] && s.workers[d.bucket].Idle?
  }

  function Tick(s: State, k: nat): State
    requires Shaped(s) && Enabled(s, TickStep(k))
  {
    match s.snapshots[k]
    case Locking(i) =>
      if i == Buckets(s) then s.(snapshots := s.snapshots[k := Swapping(0, [])])
      else s.(snapshots := s.snapshots[k := Locking(i + 1)], locks := s.locks[i := BySnapshot(k)])
    case Swapping(i, taken) =>
      if i == Buckets(s) then s.(snapshots := s.snapshots[k := Unlocking(0, taken)], cuts := s.cuts + [taken])
      else s.(snapshots := s.snapshots[k := Swapping(i + 1, taken + [s.live[i]])],
              live := s.live[i := {}],
              swaps := s.swaps[i := s.swaps[i] + 1])
    case Unlocking(i, taken) =>
      if i == Buckets(s) then s.(snapshots := s.snapshots[k := Merging(taken)])
      else s.(snapshots := s.snapshots[k := Unlocking(i + 1, taken)], locks := s.locks[i := Free])
    case Merging(taken) => s.(snapshots := s.snapshots[k := Published])
  }

  function Next(s: State, step: Step): State
    requires Shaped(s) && Enabled(s, step)
  {
    match step
    case ArriveStep(ds) => s.(handlers := s.handlers + [ds])
    case StartTickStep => s.(snapshots := s.snapshots + [Locking(0)])
    case SendStep(h) =>
      var d := s.handlers[h][0];
      assert d in s.handlers[h];
      s.(handlers := s.handlers[h := s.handlers[h][1..]],
         channels := s.channels[d.bucket := s.channels[d.bucket] + [d.batch]],
         accepted := s.accepted[d.bucket := s.accepted[d.bucket] + [d.batch]])
    case HandOffStep(h) =>
      var d := s.handlers[h][0];
      assert d in s.handlers[h];
      s.(handlers := s.handlers[h := s.handlers[h][1..]],
         workers := s.workers[d.bucket := Got(d.batch)],
         accepted := s.accepted[d.bucket := s.accepted[d.bucket] + [d.batch]])
    case TakeStep(b) =>
      s.(workers := s.workers[b := Got(s.channels[b][0])], channels := s.channels[b := s.channels[b][1..]])
    case LockStep(b) =>
      s.(workers := s.workers[b := Inserting(s.workers[b].batch, 0, s.swaps[b])], locks := s.locks[b := ByWorker])
    case InsertStep(b) =>
      var w := s.workers[b];
      s.(workers := s.workers[b := w.(done := w.done + 1)], live := s.live[b := s.live[b] + {w.batch[w.done]}])
    case UnlockStep(b) =>
      var w := s.workers[b];
      s.(workers := s.workers[b := Idle], locks := s.locks[b := Free], log := s.log + [Entry(b, w.batch, w.generation)])
    case TickStep(k) => Tick(s, k)
  }

  /** `steps` leads through `states` from an empty cruncher. */
  ghost predicate IsRun(states: seq<State>, steps: seq<Step>) {
    && |states| == |steps| + 1
    && 0 < |states[0].channels|
    && states[0] == Start(|states[0].channels|, states[0].capacity)
    && forall i :: 0 <= i < |steps| ==>
         Shaped(states[i]) && Enabled(states[i], steps[i]) && states[i + 1] == Next(states[i], steps[i])
  }

  lemma StepKeepsShape(s: State, step: Step)
    requires Shaped(s) && Enabled(s, step)
    ensures Shaped(Next(s, step)) && Buckets(Next(s, step)) == Buckets(s)
  {
    var s' := Next(s, step);
    forall h, d | 0 <= h < |s'.handlers| && d in s'.handlers[h] ensures d.bucket < |s'.channels| {
      if h < |s.handlers| {
        assert d in s.handlers[h];
      }
    }
  }
}
