/** Two routes with one hash, relay by relay, and what the table of routes makes of them. */
module RouteCollision {
  import opened RouteHash
  import opened RouteManager

  lemma {:induction false} XorZero(a: nat, weight: nat)
    requires IsWeight(weight) && a < Bound(weight)
    ensures Xor(a, 0, weight) == a
    decreases weight
  {
    if weight > 0 {
      XorZero(Rest(a, weight), weight / 2);
    }
  }

  lemma MixZero(hash: nat)
    ensures Mix(hash, 0) == Scale(hash)
  {
    XorZero(hash % 256, 128);
  }

  lemma SmallRelay(hash: nat, o1: nat, o0: nat)
    requires o1 < 256 && o0 < 256
    ensures Extend(hash, o1 * 256 + o0) == Mix(Mix(Scale(Scale(hash)), o1), o0)
  {
    Parts(o1, o0);
    HighOctetsAreZero(o1 * 256 + o0);
    MixZero(hash);
    MixZero(Scale(hash));
  }

  /** One octet: a hash split into its higher octets and its lowest one, the octet, and the lowest octet after. */
  datatype Turn = Turn(high: nat, low: nat, octet: nat, mixed: nat)

  predicate IsTurn(hash: nat, t: Turn, after: nat) {
    && hash == t.high * 256 + t.low && t.low < 256 && t.octet < 256
    && Xor(t.low, t.octet, 128) == t.mixed
    && Scale(t.high * 256 + t.mixed) == after
  }

  lemma TurnMixes(hash: nat, t: Turn, after: nat)
    requires IsTurn(hash, t, after)
    ensures Mix(hash, t.octet) == after
  {
    Parts(t.high, t.low);
  }

  /** One relay index of two octets, octet by octet. */
  datatype Step = Step(h1: nat, h2: nat, first: Turn, h3: nat, second: Turn, after: nat) {
    function Relay(): nat {
      first.octet * 256 + second.octet
    }

    predicate StartsFrom(hash: nat) {
      Scale(hash) == h1 && Scale(h1) == h2 && IsTurn(h2, first, h3)
    }

    predicate Ends() {
      IsTurn(h3, second, after)
    }

    predicate From(hash: nat) {
      StartsFrom(hash) && Ends()
    }
  }

  lemma StepExtends(hash: nat, s: Step)
    requires s.From(hash)
    ensures Extend(hash, s.Relay()) == s.after
  {
    SmallRelay(hash, s.first.octet, s.second.octet);
    TurnMixes(s.h2, s.first, s.h3);
    TurnMixes(s.h3, s.second, s.after);
  }

  lemma StepOn(relays: seq<nat>, s: Step)
    requires s.From(HashOf(relays))
    ensures HashOf(relays + [s.Relay()]) == s.after
  {
    var longer := relays + [s.Relay()];
    assert longer[..|longer| - 1] == relays;
    StepExtends(HashOf(relays), s);
  }

  predicate Chain(a: Step, b: Step, c: Step, d: Step) {
    a.From(0) && b.From(a.after) && c.From(b.after) && d.From(c.after)
  }

  function Relays(a: Step, b: Step, c: Step, d: Step): seq<nat> {
    [a.Relay(), b.Relay(), c.Relay(), d.Relay()]
  }

  lemma ChainHash(a: Step, b: Step, c: Step, d: Step)
    requires Chain(a, b, c, d)
    ensures HashOf(Relays(a, b, c, d)) == d.after
  {
    StepOn([], a);
    assert [] + [a.Relay()] == [a.Relay()];
    StepOn([a.Relay()], b);
    assert [a.Relay()] + [b.Relay()] == [a.Relay(), b.Relay()];
    StepOn([a.Relay(), b.Relay()], c);
    assert [a.Relay(), b.Relay()] + [c.Relay()] == [a.Relay(), b.Relay(), c.Relay()];
    StepOn([a.Relay(), b.Relay(), c.Relay()], d);
    assert [a.Relay(), b.Relay(), c.Relay()] + [d.Relay()] == Relays(a, b, c, d);
  }

  const BY1 := Step(
    0, 0, Turn(0, 0, 0, 0),
    0, Turn(0, 0, 1, 1), 16777619)

  lemma By1High()
    ensures BY1.StartsFrom(0)
  {
    XorZero(0, 128);
  }

  lemma By1Low()
    ensures BY1.Ends()
  {
    assert Xor(0, 1, 128) == 1 by {
      assert Xor(0, 1, 2) == 1;
      assert Xor(0, 1, 16) == 1;
    }
  }

  const BY7 := Step(
    637696617, 1055306571, Turn(4122291, 75, 0, 75),
    1345077009, Turn(5254207, 17, 7, 22), 1269256098)

  lemma By7High()
    ensures BY7.StartsFrom(BY1.after)
  {
    assert Xor(75, 0, 128) == 75 by {
      assert Xor(3, 0, 2) == 3;
      assert Xor(11, 0, 16) == 11;
    }
  }

  lemma By7Low()
    ensures BY7.Ends()
  {
    assert Xor(17, 7, 128) == 22 by {
      assert Xor(1, 3, 2) == 2;
      assert Xor(17, 7, 16) == 22;
    }
  }

  const BY476 := Step(
    3127008262, 1859575154, Turn(7263965, 114, 1, 115),
    4013857801, Turn(15679132, 9, 220, 213), 1955652431)

  lemma By476High()
    ensures BY476.StartsFrom(BY7.after)
  {
    assert Xor(114, 1, 128) == 115 by {
      assert Xor(2, 1, 2) == 3;
      assert Xor(18, 1, 16) == 19;
    }
  }

  lemma By476Low()
    ensures BY476.Ends()
  {
    assert Xor(9, 220, 128) == 213 by {
      assert Xor(1, 0, 2) == 1;
      assert Xor(9, 28, 16) == 21;
    }
  }

  const BY553 := Step(
    3474314589, 1549721959, Turn(6053601, 103, 2, 101),
    3462189567, Turn(13524177, 255, 41, 214), 2988332002)

  lemma By553High()
    ensures BY553.StartsFrom(BY476.after)
  {
    assert Xor(103, 2, 128) == 101 by {
      assert Xor(3, 2, 2) == 1;
      assert Xor(7, 2, 16) == 5;
    }
  }

  lemma By553Low()
    ensures BY553.Ends()
  {
    assert Xor(255, 41, 128) == 214 by {
      assert Xor(3, 1, 2) == 2;
      assert Xor(31, 9, 16) == 22;
    }
  }

  const BY112 := Step(
    637696617, 1055306571, Turn(4122291, 75, 0, 75),
    1345077009, Turn(5254207, 17, 112, 97), 2527577523)

  lemma By112High()
    ensures BY112.StartsFrom(BY1.after)
  {
    assert Xor(75, 0, 128) == 75 by {
      assert Xor(3, 0, 2) == 3;
      assert Xor(11, 0, 16) == 11;
    }
  }

  lemma By112Low()
    ensures BY112.Ends()
  {
    assert Xor(17, 112, 128) == 97 by {
      assert Xor(1, 0, 2) == 1;
      assert Xor(17, 16, 16) == 1;
    }
  }

  const BY770 := Step(
    3709614281, 3698156651, Turn(14445924, 107, 3, 104),
    1748307896, Turn(6829327, 184, 2, 186), 3314008526)

  lemma By770High()
    ensures BY770.StartsFrom(BY112.after)
  {
    assert Xor(107, 3, 128) == 104 by {
      assert Xor(3, 3, 2) == 0;
      assert Xor(11, 3, 16) == 8;
    }
  }

  lemma By770Low()
    ensures BY770.Ends()
  {
    assert Xor(184, 2, 128) == 186 by {
      assert Xor(0, 2, 2) == 2;
      assert Xor(24, 2, 16) == 26;
    }
  }

  const BY140 := Step(
    3266713418, 3467028862, Turn(13543081, 126, 0, 126),
    3462189402, Turn(13524177, 90, 140, 214), 2988332002)

  lemma By140High()
    ensures BY140.StartsFrom(BY770.after)
  {
    assert Xor(126, 0, 128) == 126 by {
      assert Xor(2, 0, 2) == 2;
      assert Xor(30, 0, 16) == 30;
    }
  }

  lemma By140Low()
    ensures BY140.Ends()
  {
    assert Xor(90, 140, 128) == 214 by {
      assert Xor(2, 0, 2) == 2;
      assert Xor(26, 12, 16) == 22;
    }
  }

  lemma FirstChain()
    ensures Chain(BY1, BY7, BY476, BY553)
  {
    By1High();
    By1Low();
    By7High();
    By7Low();
    By476High();
    By476Low();
    By553High();
    By553Low();
  }

  lemma SecondChain()
    ensures Chain(BY1, BY112, BY770, BY140)
  {
    By1High();
    By1Low();
    By112High();
    By112Low();
    By770High();
    By770Low();
    By140High();
    By140Low();
  }

  lemma ChainRelays()
    ensures Relays(BY1, BY7, BY476, BY553) == [1, 7, 476, 553]
    ensures Relays(BY1, BY112, BY770, BY140) == [1, 112, 770, 140]
  {
  }

  lemma PrefixesCollide()
    ensures HashOf([1, 7, 476, 553]) == HashOf([1, 112, 770, 140]) == 2988332002
  {
    FirstChain();
    SecondChain();
    ChainHash(BY1, BY7, BY476, BY553);
    ChainHash(BY1, BY112, BY770, BY140);
    ChainRelays();
  }

  lemma SameRelayKeepsCollision(a: seq<nat>, b: seq<nat>, relay: nat)
    requires HashOf(a) == HashOf(b)
    ensures HashOf(a + [relay]) == HashOf(b + [relay])
  {
    assert (a + [relay])[..|a|] == a && (b + [relay])[..|b|] == b;
  }

  const FIRST: seq<nat> := [1, 7, 476, 553] + [0]
  const SECOND: seq<nat> := [1, 112, 770, 140] + [0]

  lemma RoutesAreLoopFree()
    ensures FIRST == [1, 7, 476, 553, 0] && SECOND == [1, 112, 770, 140, 0]
    ensures LoopFree(FIRST) && LoopFree(SECOND)
  {
  }

  lemma RoutesCollide()
    ensures HashOf(FIRST) == HashOf(SECOND)
  {
    PrefixesCollide();
    SameRelayKeepsCollision([1, 7, 476, 553], [1, 112, 770, 140], 0);
  }

  /** Two routes of five relays from relay 1 to relay 0 that share a hash: whichever is offered first,
      a cheaper offer of the other is lost. */
  lemma RealCollision(dear: nat, cheap: nat, prices: (nat, nat))
    requires cheap < dear < 255
    ensures FIRST == [1, 7, 476, 553, 0] && SECOND == [1, 112, 770, 140, 0]
    ensures HashOf([1, 7, 476, 553]) == HashOf([1, 112, 770, 140]) == 2988332002
    ensures
      var a, b := Route(dear, prices.0, HashOf(FIRST), FIRST), Route(cheap, prices.1, HashOf(SECOND), SECOND);
      Eligible(a) && Eligible(b) && AllAdded([a] + [b]) == [a] && !Kept(AllAdded([a] + [b]), b)
  {
    RoutesAreLoopFree();
    RoutesCollide();
    PrefixesCollide();
    CollisionLosesRoute(
      Route(dear, prices.0, HashOf(FIRST), FIRST), Route(cheap, prices.1, HashOf(SECOND), SECOND));
  }
}
