/** Which relay backends the gateway forwards to. Backends write their address into a hash named
    after the current minute once a second; the gateway reads this minute's and the last one's. */
module GatewayMembership {
  import opened Common

  // ----- string order -----

  predicate Below(a: string, b: string) {
    if b == [] then false
    else if a == [] then true
    else a[0] < b[0] || (a[0] == b[0] && Below(a[1..], b[1..]))
  }

  lemma {:induction false} BelowTransitive(a: string, b: string, c: string)
    requires Below(a, b) && Below(b, c)
    ensures Below(a, c)
  {
    if a != [] && a[0] == b[0] == c[0] {
      BelowTransitive(a[1..], b[1..], c[1..]);
    }
  }

  lemma {:induction false} BelowTotal(a: string, b: string)
    ensures a == b || Below(a, b) || Below(b, a)
    ensures !(Below(a, b) && Below(b, a)) && !Below(a, a)
  {
    if a != [] && b != [] {
      BelowTotal(a[1..], b[1..]);
      assert a == [a[0]] + a[1..] && b == [b[0]] + b[1..];
    }
    if a != [] {
      BelowTotal(a[1..], a[1..]);
    }
  }

  /** The order of the dictionary: the first character that differs decides, and a prefix comes first. */
  lemma {:induction false} BelowExactly(a: string, b: string, k: nat)
    requires k <= |a| && k <= |b| && a[..k] == b[..k]
    requires k == |a| || k == |b| || a[k] != b[k]
    ensures Below(a, b) <==> k < |b| && (k == |a| || a[k] < b[k])
    decreases k
  {
    if k > 0 {
      assert a[..k][0] == b[..k][0];
      assert a[..k][1..] == a[1..][..k - 1] && b[..k][1..] == b[1..][..k - 1];
      BelowExactly(a[1..], b[1..], k - 1);
    }
  }

  ghost predicate Ascending(s: seq<string>) {
    forall i, j :: 0 <= i < j < |s| ==> Below(s[i], s[j])
  }

  function Elements(s: seq<string>): set<string> {
    set x | x in s
  }

  lemma ElementsOfEmpty(s: seq<string>)
    ensures s == [] <==> Elements(s) == {}
  {
    if s != [] {
      assert s[0] in Elements(s);
    }
  }

  /** A set has one ascending listing. */
  lemma {:induction false} AscendingIsUnique(s: seq<string>, t: seq<string>)
    requires Ascending(s) && Ascending(t)
    requires Elements(s) == Elements(t)
    ensures s == t
  {
    ElementsOfEmpty(s);
    ElementsOfEmpty(t);
    if s != [] {
      assert s[0] in Elements(t) && t[0] in Elements(s);
      var i :| 0 <= i < |s| && s[i] == t[0];
      var j :| 0 <= j < |t| && t[j] == s[0];
      BelowTotal(s[0], t[0]);
      assert s[0] == t[0];
      TailElements(s);
      TailElements(t);
      AscendingIsUnique(s[1..], t[1..]);
    }
  }

  lemma TailElements(s: seq<string>)
    requires s != [] && Ascending(s)
    ensures Elements(s[1..]) == Elements(s) - {s[0]}
  {
    forall x | x in s[1..] ensures x != s[0] {
      var i :| 0 <= i < |s[1..]| && s[1..][i] == x;
      assert Below(s[0], s[i + 1]);
      BelowTotal(s[0], x);
    }
    assert s == [s[0]] + s[1..];
  }

  // ----- sorting -----

  method InsertAscending(s: seq<string>, x: string) returns (t: seq<string>)
    requires Ascending(s) && x !in s
    ensures Ascending(t) && Elements(t) == Elements(s) + {x}
  {
    var i := |s|;
    while i > 0 && Below(x, s[i - 1])
      invariant 0 <= i <= |s|
      invariant forall k :: i <= k < |s| ==> Below(x, s[k])
    {
      i := i - 1;
    }
    if i > 0 {
      BelowTotal(x, s[i - 1]);
    }
    t := s[..i] + [x] + s[i..];
    InsertedAscends(s, x, i);
    assert s == s[..i] + s[i..];
  }

  lemma InsertedAscends(s: seq<string>, x: string, i: nat)
    requires Ascending(s) && i <= |s|
    requires i > 0 ==> Below(s[i - 1], x)
    requires forall k :: i <= k < |s| ==> Below(x, s[k])
    ensures Ascending(s[..i] + [x] + s[i..])
  {
    var t := s[..i] + [x] + s[i..];
    forall k | 0 <= k < i ensures Below(s[k], x) {
      if k < i - 1 {
        BelowTransitive(s[k], s[i - 1], x);
      }
    }
    forall a, b | 0 <= a < b < |t| ensures Below(t[a], t[b]) {
      var u, v := if a < i then a else a - 1, if b < i then b else b - 1;
      assert a != i ==> t[a] == s[u];
      assert b != i ==> t[b] == s[v];
    }
  }

  method SortStrings(addresses: set<string>) returns (sorted: seq<string>)
    ensures Ascending(sorted) && Elements(sorted) == addresses
  {
    sorted := [];
    var rest := addresses;
    while rest != {}
      invariant rest <= addresses
      invariant Ascending(sorted) && Elements(sorted) == addresses - rest
      decreases |rest|
    {
      var x :| x in rest;
      assert x !in Elements(sorted);
      sorted := InsertAscending(sorted, x);
      rest := rest - {x};
    }
  }

  // ----- heartbeats -----

  datatype Beat = Beat(address: string, time: nat)

  /** The hash of one minute after the given heartbeats. */
  function Bucket(beats: seq<Beat>, minute: int): set<string> {
    set b | b in beats && b.time / 60 == minute :: b.address
  }

  class Gateway {
    var relayBackendAddresses: seq<string>

    constructor ()
      ensures relayBackendAddresses == []
    {
      relayBackendAddresses := [];
    }

    /** One refresh; a failed read of either hash leaves the list as it was. */
    method Refresh(currentKeys: Option<seq<string>>, previousKeys: Option<seq<string>>)
      modifies this
      ensures currentKeys.None? || previousKeys.None? ==> relayBackendAddresses == old(relayBackendAddresses)
      ensures currentKeys.Some? && previousKeys.Some? ==>
        && Ascending(relayBackendAddresses)
        && Elements(relayBackendAddresses) == Elements(currentKeys.value) + Elements(previousKeys.value)
    {
      if currentKeys.None? {
        return;
      }
      if previousKeys.None? {
        return;
      }
      var addressMap: set<string> := {};
      for i := 0 to |currentKeys.value|
        invariant addressMap == Elements(currentKeys.value[..i])
      {
        addressMap := addressMap + {currentKeys.value[i]};
        assert currentKeys.value[..i + 1] == currentKeys.value[..i] + [currentKeys.value[i]];
      }
      assert currentKeys.value[..|currentKeys.value|] == currentKeys.value;
      for i := 0 to |previousKeys.value|
        invariant addressMap == Elements(currentKeys.value) + Elements(previousKeys.value[..i])
      {
        addressMap := addressMap + {previousKeys.value[i]};
        assert previousKeys.value[..i + 1] == previousKeys.value[..i] + [previousKeys.value[i]];
      }
      assert previousKeys.value[..|previousKeys.value|] == previousKeys.value;
      var addresses := SortStrings(addressMap);
      relayBackendAddresses := addresses;
    }
  }

  /** After a refresh that looked at the clock at `now` and then read this minute's hash and the last
      one's, more heartbeats arriving all the while: every backend that beat in the 60 seconds before
      is listed, and every backend listed has beaten less than 120 seconds before or since. */
  lemma RefreshedList(before: seq<Beat>, between: seq<Beat>, now: nat, list: seq<string>)
    requires before <= between
    requires Elements(list) == Bucket(before, now / 60) + Bucket(between, now / 60 - 1)
    ensures forall b :: b in before && now <= b.time + 60 && b.time <= now ==> b.address in list
    ensures forall a :: a in list ==> exists b :: b in between && b.address == a && now < b.time + 120
  {
    forall b | b in before && now <= b.time + 60 && b.time <= now ensures b.address in list {
      assert b in between;
      assert b.time / 60 == now / 60 || b.time / 60 == now / 60 - 1;
      assert b.address in Elements(list);
    }
    forall a | a in list ensures exists b :: b in between && b.address == a && now < b.time + 120 {
      assert a in Elements(list);
      if a in Bucket(before, now / 60) {
        var b :| b in before && b.time / 60 == now / 60 && b.address == a;
        assert b in between;
      } else {
        var b :| b in between && b.time / 60 == now / 60 - 1 && b.address == a;
      }
    }
  }

  /** Both bounds are the best possible: a beat 61 seconds old can be missed, one 119 seconds old can
      still count. */
  lemma BoundsAreTight()
    ensures "a" !in Bucket([Beat("a", 59)], 120 / 60) + Bucket([Beat("a", 59)], 120 / 60 - 1)
    ensures "a" in Bucket([Beat("a", 60)], 179 / 60) + Bucket([Beat("a", 60)], 179 / 60 - 1)
  {
    var b := Beat("a", 60);
    assert b in [b] && b.time / 60 == 1;
  }
}
