/** The rolling magic values: three of them are valid at a time, the previous, the current and the
    upcoming one. One backend keeps registers and shifts them; the other derives the values from the
    clock; services poll them over HTTP. */
module Magic {
  import opened Common
  import opened LittleEndian

  const MAGIC_BYTES: nat := 8

  datatype Window = Window(upcoming: seq<byte>, current: seq<byte>, previous: seq<byte>)

  /** The abstract window: three consecutive values of one endless sequence. */
  function WindowAt(g: nat -> seq<byte>, c: nat): Window {
    Window(g(c + 2), g(c + 1), g(c))
  }

  predicate Accepts(w: Window, magic: seq<byte>) {
    magic == w.upcoming || magic == w.current || magic == w.previous
  }

  // ----- registers -----

  /** The sequence behind the registers: the first three draws fill them newest first, and every
      later draw becomes the next upcoming value. */
  function Drawn(draw: nat -> seq<byte>, c: nat): seq<byte> {
    if c <= 2 then draw(2 - c) else draw(c)
  }

  function DrawnWindow(draw: nat -> seq<byte>, shifts: nat): Window {
    Window(Drawn(draw, shifts + 2), Drawn(draw, shifts + 1), Drawn(draw, shifts))
  }

  function SequenceOf(draw: nat -> seq<byte>): nat -> seq<byte> {
    c => Drawn(draw, c)
  }

  /** The registers hold the abstract window of that sequence. */
  lemma DrawnIsWindow(draw: nat -> seq<byte>, shifts: nat)
    ensures DrawnWindow(draw, shifts) == WindowAt(SequenceOf(draw), shifts)
  {
    assert forall c: nat :: SequenceOf(draw)(c) == Drawn(draw, c);
  }

  class Registers {
    ghost const draw: nat -> seq<byte>
    ghost var shifts: nat
    var magicUpcoming: seq<byte>
    var magicCurrent: seq<byte>
    var magicPrevious: seq<byte>

    ghost predicate Valid()
      reads this
    {
      Window(magicUpcoming, magicCurrent, magicPrevious) == DrawnWindow(draw, shifts)
    }

    constructor (first: seq<byte>, second: seq<byte>, third: seq<byte>, ghost draw: nat -> seq<byte>)
      requires first == draw(0) && second == draw(1) && third == draw(2)
      ensures Valid() && this.draw == draw && shifts == 0
      ensures magicUpcoming == first && magicCurrent == second && magicPrevious == third
    {
      this.draw := draw;
      shifts := 0;
      magicUpcoming, magicCurrent, magicPrevious := first, second, third;
    }

    method GetMagic() returns (upcoming: seq<byte>, current: seq<byte>, previous: seq<byte>)
      requires Valid()
      ensures Window(upcoming, current, previous) == DrawnWindow(draw, shifts)
      ensures upcoming == magicUpcoming && current == magicCurrent && previous == magicPrevious
    {
      upcoming, current, previous := magicUpcoming, magicCurrent, magicPrevious;
    }

    /** The timer: every value moves one place down and a fresh one comes in. */
    method UpdateMagic(generated: seq<byte>)
      requires Valid() && generated == draw(shifts + 3)
      modifies this
      ensures Valid() && shifts == old(shifts) + 1
      ensures magicPrevious == old(magicCurrent) && magicCurrent == old(magicUpcoming) && magicUpcoming == generated
    {
      magicPrevious := magicCurrent;
      magicCurrent := magicUpcoming;
      magicUpcoming := generated;
      shifts := shifts + 1;
    }
  }

  // ----- the clock -----

  function Counter(timestamp: nat, period: nat): nat
    requires period > 0
  {
    timestamp / period
  }

  /** What the magic backend answers: the counter, then the three values newest first. */
  function Answer(hash: nat -> seq<byte>, timestamp: nat, period: nat): seq<byte>
    requires period > 0
  {
    var c := Counter(timestamp, period);
    Encode(8, c) + hash(c + 2) + hash(c + 1) + hash(c)
  }

  ghost predicate Hashes(hash: nat -> seq<byte>) {
    forall c :: |hash(c)| == MAGIC_BYTES
  }

  /** An answer is its counter and the abstract window at that counter. */
  lemma AnswerIsWindow(hash: nat -> seq<byte>, timestamp: nat, period: nat)
    requires period > 0 && Hashes(hash) && Counter(timestamp, period) < U64
    ensures var data, c := Answer(hash, timestamp, period), Counter(timestamp, period);
      && |data| == 32
      && Decode(data[0..8]) == c
      && Window(data[8..16], data[16..24], data[24..32]) == WindowAt(hash, c)
  {
    WordBounds();
    var c := Counter(timestamp, period);
    EncodeThenDecode(8, c);
    assert Answer(hash, timestamp, period)[0..8] == Encode(8, c);
  }

  /** The bytes of an answer: the number of whole periods since the epoch, lowest byte first, then the
      values two, one and none after it. */
  lemma AnswerBytes(hash: nat -> seq<byte>, timestamp: nat, period: nat)
    requires period > 0 && Hashes(hash) && timestamp / period < U64
    ensures var data, c := Answer(hash, timestamp, period), timestamp / period;
      && |data| == 32
      && (forall k :: 0 <= k < 8 ==> Bound(k) > 0 && data[k] == c / Bound(k) % 256)
      && data[8..16] == hash(c + 2) && data[16..24] == hash(c + 1) && data[24..32] == hash(c)
  {
    var data, c := Answer(hash, timestamp, period), timestamp / period;
    forall k | 0 <= k < 8 ensures Bound(k) > 0 && data[k] == c / Bound(k) % 256 {
      EncodeAt(8, c, k);
      assert data[k] == Encode(8, c)[k];
    }
  }

  lemma CountersClose(s: nat, t: nat, period: nat)
    requires period > 0 && s <= t <= s + period
    ensures Counter(s, period) <= Counter(t, period) <= Counter(s, period) + 1
  {
    var r := s / period;
    assert r * period <= s < r * period + period;
    if t < r * period + period {
      QuotientIs(t, r, period);
    } else {
      QuotientIs(t, r + 1, period);
    }
  }

  /** Windows accept each other's current value exactly when their counters are at most one apart,
      provided the sequence never repeats. */
  lemma CurrentIsShared(g: nat -> seq<byte>, c: nat, d: nat)
    requires forall i, j :: i != j ==> g(i) != g(j)
    ensures Accepts(WindowAt(g, d), WindowAt(g, c).current) <==> c <= d + 1 && d <= c + 1
  {
  }

  /** Two instances with the same key whose clocks are at most one period apart: each accepts the
      other's current value. */
  lemma InstancesAgree(hash: nat -> seq<byte>, s: nat, t: nat, period: nat)
    requires period > 0
    requires s <= t + period && t <= s + period
    ensures Accepts(WindowAt(hash, Counter(s, period)), WindowAt(hash, Counter(t, period)).current)
    ensures Accepts(WindowAt(hash, Counter(t, period)), WindowAt(hash, Counter(s, period)).current)
  {
    if s <= t {
      CountersClose(s, t, period);
    } else {
      CountersClose(t, s, period);
    }
  }

  // ----- polling -----

  /** A service's copy of the magic values, refreshed from answers that may come from several
      instances and arrive out of order. */
  class Cache {
    var magicData: seq<byte>
    var magicCounter: nat
    var upcomingMagic: seq<byte>
    var currentMagic: seq<byte>
    var previousMagic: seq<byte>

    ghost function State(): Held
      reads this
    {
      Held(magicCounter, magicData, Window(upcomingMagic, currentMagic, previousMagic))
    }

    constructor ()
      ensures State() == EmptyHeld()
    {
      magicData, magicCounter := [], 0;
      upcomingMagic, currentMagic, previousMagic := [], [], [];
    }

    /** Answers that are not newer than the copy are ignored. */
    method UpdateMagicValues(data: seq<byte>)
      requires |data| == 32
      modifies this
      ensures State() == Refresh(old(State()), data)
    {
      if data == magicData {
        return;
      }
      var counter := Decode(data[0..8]);
      if counter <= magicCounter {
        return;
      }
      magicData := data;
      magicCounter := counter;
      upcomingMagic := data[8..16];
      currentMagic := data[16..24];
      previousMagic := data[24..32];
    }
  }

  datatype Held = Held(counter: nat, data: seq<byte>, window: Window)

  function EmptyHeld(): Held {
    Held(0, [], Window([], [], []))
  }

  function Refresh(held: Held, data: seq<byte>): Held
    requires |data| == 32
  {
    if data == held.data || Decode(data[0..8]) <= held.counter then held
    else Held(Decode(data[0..8]), data, Window(data[8..16], data[16..24], data[24..32]))
  }

  /** The copy after a list of polls, each a timestamp some instance answered at. */
  function Polled(hash: nat -> seq<byte>, period: nat, polls: seq<nat>): Held
    requires period > 0
  {
    if polls == [] then EmptyHeld()
    else
      var held, data := Polled(hash, period, polls[..|polls| - 1]), Answer(hash, polls[|polls| - 1], period);
      if |data| == 32 then Refresh(held, data) else held
  }

  /** The largest counter among the polls; zero if there are none. */
  function Newest(polls: seq<nat>, period: nat): nat
    requires period > 0
  {
    if polls == [] then 0
    else
      var rest, c := Newest(polls[..|polls| - 1], period), Counter(polls[|polls| - 1], period);
      if rest < c then c else rest
  }

  ghost predicate HeldOk(hash: nat -> seq<byte>, held: Held) {
    || held == EmptyHeld()
    || (&& held.counter > 0
        && held.window == WindowAt(hash, held.counter)
        && |held.data| == 32
        && Decode(held.data[0..8]) == held.counter)
  }

  lemma RefreshTakesNewer(hash: nat -> seq<byte>, period: nat, held: Held, timestamp: nat)
    requires period > 0 && Hashes(hash) && Counter(timestamp, period) < U64
    requires HeldOk(hash, held)
    ensures var data, c := Answer(hash, timestamp, period), Counter(timestamp, period);
      && |data| == 32
      && HeldOk(hash, Refresh(held, data))
      && Refresh(held, data).counter == (if held.counter < c then c else held.counter)
  {
    AnswerIsWindow(hash, timestamp, period);
  }

  /** However the polls are ordered, the copy is the window of the latest instant polled, so it never
      steps back; it stays empty while every counter seen is zero. */
  lemma {:induction false} PollsKeepNewest(hash: nat -> seq<byte>, period: nat, polls: seq<nat>)
    requires period > 0 && Hashes(hash)
    requires forall i :: 0 <= i < |polls| ==> Counter(polls[i], period) < U64
    ensures var held := Polled(hash, period, polls);
      && held.counter == Newest(polls, period)
      && HeldOk(hash, held)
      && (held.counter > 0 ==> held.window == WindowAt(hash, Newest(polls, period)))
  {
    if polls != [] {
      PollsKeepNewest(hash, period, polls[..|polls| - 1]);
      RefreshTakesNewer(hash, period, Polled(hash, period, polls[..|polls| - 1]), polls[|polls| - 1]);
    }
  }
}
