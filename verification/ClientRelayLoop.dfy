/** The relay selection as it runs: an array of entries sorted in place, its distances overwritten
    between the two passes, and a map filled by two loops. */
module ClientRelayLoop {
  import opened StableSort
  import opened ClientRelays

  function Relays(entries: seq<Entry>): seq<Relay> {
    seq(|entries|, i requires 0 <= i < |entries| => entries[i].relay)
  }

  /** The relays as the caller passes them, in parallel arrays. */
  function Given(ids: seq<nat>, addresses: seq<nat>, places: seq<Place>): seq<Relay>
    requires |ids| <= |addresses| && |ids| <= |places|
  {
    seq(|ids|, i requires 0 <= i < |ids| => Relay(ids[i], addresses[i], places[i]))
  }

  // ----- sorting entries sorts their relays -----

  lemma {:induction false} InsertRelays(s: seq<Entry>, x: Entry, key: Entry -> int, relayKey: Relay -> int)
    requires forall i :: 0 <= i < |s| ==> key(s[i]) == relayKey(s[i].relay)
    requires key(x) == relayKey(x.relay)
    ensures Relays(Insert(s, x, key)) == Insert(Relays(s), x.relay, relayKey)
  {
    if s != [] {
      var front := s[..|s| - 1];
      InsertRelays(front, x, key, relayKey);
      assert Relays(s)[..|s| - 1] == Relays(front);
    }
  }

  lemma {:induction false} SortRelays(s: seq<Entry>, key: Entry -> int, relayKey: Relay -> int)
    requires forall i :: 0 <= i < |s| ==> key(s[i]) == relayKey(s[i].relay)
    ensures Relays(Sort(s, key)) == Sort(Relays(s), relayKey)
    ensures forall i :: 0 <= i < |Sort(s, key)| ==> key(Sort(s, key)[i]) == relayKey(Sort(s, key)[i].relay)
  {
    if s != [] {
      var front, last := s[..|s| - 1], s[|s| - 1];
      SortRelays(front, key, relayKey);
      InsertRelays(Sort(front, key), last, key, relayKey);
      assert Relays(s)[..|s| - 1] == Relays(front);
      SortElements(s, key);
    }
  }

  /** Sorting only moves entries. */
  lemma SortElements(s: seq<Entry>, key: Entry -> int)
    ensures forall i :: 0 <= i < |Sort(s, key)| ==> Sort(s, key)[i] in s
  {
    SortPermutes(s, key);
    forall i | 0 <= i < |Sort(s, key)| ensures Sort(s, key)[i] in s {
      assert Sort(s, key)[i] in multiset(Sort(s, key));
      assert Sort(s, key)[i] in multiset(s);
    }
  }

  /** Every entry carries the distance it is sorted by. */
  ghost predicate Measured(entries: seq<Entry>, relayKey: Relay -> int) {
    forall i :: 0 <= i < |entries| ==> entries[i].distance == relayKey(entries[i].relay)
  }

  method SortByDistance(a: array<Entry>, ghost relayKey: Relay -> int)
    requires Measured(a[..], relayKey)
    modifies a
    ensures Relays(a[..]) == Sort(old(Relays(a[..])), relayKey)
    ensures Measured(a[..], relayKey)
  {
    var key := (e: Entry) => e.distance;
    SortRelays(a[..], key, relayKey);
    SortInPlace(a, key);
  }

  // ----- the loops -----

  method Collect(q: Query, ids: seq<nat>, addresses: seq<nat>, places: seq<Place>) returns (a: array<Entry>)
    requires |ids| <= |addresses| && |ids| <= |places|
    ensures fresh(a)
    ensures Relays(a[..]) == BySource(q, Given(ids, addresses, places))
    ensures Measured(a[..], (r: Relay) => q.FromSource(r))
  {
    a := new Entry[|ids|](_ => Entry(Relay(0, 0, Place(0.0, 0.0)), 0));
    for i := 0 to |ids|
      invariant forall k :: 0 <= k < i ==>
        a[k].relay == Relay(ids[k], addresses[k], places[k]) && a[k].distance == q.FromSource(a[k].relay)
    {
      var relay := Relay(ids[i], addresses[i], places[i]);
      a[i] := Entry(relay, q.distance(q.source, relay.place));
    }
    assert Relays(a[..]) == Given(ids, addresses, places);
    var key := (e: Entry) => e.relay.id;
    SortRelays(a[..], key, (r: Relay) => r.id);
    SortElements(a[..], key);
    ghost var before := a[..];
    SortInPlace(a, key);
    assert Measured(a[..], (r: Relay) => q.FromSource(r)) by {
      forall i | 0 <= i < a.Length ensures a[i].distance == q.FromSource(a[i].relay) {
        assert a[..][i] in before;
      }
    }
    SortByDistance(a, (r: Relay) => q.FromSource(r));
  }

  method SelectNear(q: Query, a: array<Entry>) returns (relayMap: map<nat, Relay>)
    requires Measured(a[..], (r: Relay) => q.FromSource(r))
    ensures relayMap == Pick(q, NearOf(q), map[], Relays(a[..]))
  {
    relayMap := map[];
    ghost var relays := Relays(a[..]);
    assert relays[0..] == relays;
    for i := 0 to a.Length
      invariant Pick(q, NearOf(q), map[], relays) == Pick(q, NearOf(q), relayMap, relays[i..])
    {
      var entry := a[i];
      assert entry == a[..][i];
      assert relays[i..][0] == entry.relay && relays[i..][1..] == relays[i + 1..];
      if |relayMap| == q.max {
        break;
      }
      if entry.distance > q.threshold {
        break;
      }
      if q.detour(entry.relay.place) {
        continue;
      }
      relayMap := relayMap[entry.relay.id := entry.relay];
    }
  }

  method SelectMore(q: Query, a: array<Entry>, chosen: map<nat, Relay>) returns (relayMap: map<nat, Relay>)
    ensures relayMap == Pick(q, Anywhere(), chosen, Relays(a[..]))
  {
    relayMap := chosen;
    ghost var relays := Relays(a[..]);
    assert relays[0..] == relays;
    for i := 0 to a.Length
      invariant Pick(q, Anywhere(), chosen, relays) == Pick(q, Anywhere(), relayMap, relays[i..])
    {
      var entry := a[i];
      assert entry == a[..][i];
      assert relays[i..][0] == entry.relay && relays[i..][1..] == relays[i + 1..];
      if |relayMap| == q.max {
        break;
      }
      if q.detour(entry.relay.place) {
        continue;
      }
      relayMap := relayMap[entry.relay.id := entry.relay];
    }
  }

  method MeasureFromDest(q: Query, a: array<Entry>)
    modifies a
    ensures Relays(a[..]) == old(Relays(a[..]))
    ensures Measured(a[..], (r: Relay) => q.FromDest(r))
  {
    for i := 0 to a.Length
      invariant forall k :: 0 <= k < a.Length ==> a[k].relay == old(a[k].relay)
      invariant forall k :: 0 <= k < i ==> a[k].distance == q.FromDest(a[k].relay)
    {
      a[i] := a[i].(distance := q.distance(q.dest, a[i].relay.place));
    }
  }

  /** The two result arrays list the map, in whatever order the map is walked. */
  ghost predicate Lists(ids: seq<nat>, addresses: seq<nat>, relayMap: map<nat, Relay>) {
    && |ids| == |addresses| == |relayMap|
    && (forall i :: 0 <= i < |ids| ==> ids[i] in relayMap && addresses[i] == relayMap[ids[i]].address)
    && (forall i, j :: 0 <= i < j < |ids| ==> ids[i] != ids[j])
    && (forall id :: id in relayMap ==> id in ids)
  }

  method List(relayMap: map<nat, Relay>) returns (ids: seq<nat>, addresses: seq<nat>)
    ensures Lists(ids, addresses, relayMap)
  {
    ids, addresses := [], [];
    var keys := relayMap.Keys;
    while keys != {}
      invariant keys <= relayMap.Keys
      invariant |ids| == |addresses| == |relayMap| - |keys|
      invariant forall i :: 0 <= i < |ids| ==>
        ids[i] in relayMap && ids[i] !in keys && addresses[i] == relayMap[ids[i]].address
      invariant forall i, j :: 0 <= i < j < |ids| ==> ids[i] != ids[j]
      invariant forall id :: id in relayMap && id !in keys ==> id in ids
      decreases |keys|
    {
      var id :| id in keys;
      keys := keys - {id};
      ids := ids + [id];
      addresses := addresses + [relayMap[id].address];
    }
  }

  method GetClientRelays(q: Query, relayIds: seq<nat>, relayAddresses: seq<nat>, relayPlaces: seq<Place>)
    returns (ids: seq<nat>, addresses: seq<nat>)
    requires |relayIds| <= |relayAddresses| && |relayIds| <= |relayPlaces|
    ensures Lists(ids, addresses, Chosen(q, Given(relayIds, relayAddresses, relayPlaces)))
  {
    if |relayIds| == 0 {
      assert Given(relayIds, relayAddresses, relayPlaces) == [];
      return [], [];
    }
    var a := Collect(q, relayIds, relayAddresses, relayPlaces);
    var relayMap := SelectNear(q, a);
    if |relayMap| == q.max {
      ids, addresses := List(relayMap);
      return;
    }
    MeasureFromDest(q, a);
    SortByDistance(a, (r: Relay) => q.FromDest(r));
    relayMap := SelectMore(q, a, relayMap);
    ids, addresses := List(relayMap);
  }

  /** A listing has one (id, address) pair for every chosen relay and no other. */
  lemma ListingPairs(ids: seq<nat>, addresses: seq<nat>, m: map<nat, Relay>, r: Relay, i: nat)
    requires Lists(ids, addresses, m)
    requires forall id :: id in m ==> m[id].id == id
    ensures Has(m, r) ==> exists k :: 0 <= k < |ids| && ids[k] == r.id && addresses[k] == r.address
    ensures i < |ids| ==> Has(m, m[ids[i]]) && m[ids[i]].id == ids[i] && m[ids[i]].address == addresses[i]
  {
    if Has(m, r) {
      assert r.id in ids;
      var k :| 0 <= k < |ids| && ids[k] == r.id;
    }
  }

  ghost predicate HasPair(ids: seq<nat>, addresses: seq<nat>, id: nat, address: nat)
    requires |ids| == |addresses|
  {
    exists k :: 0 <= k < |ids| && ids[k] == id && addresses[k] == address
  }

  ghost predicate OwnsPair(relays: set<Relay>, id: nat, address: nat) {
    exists r :: r in relays && r.id == id && r.address == address
  }

  ghost predicate ListsPairsOf(ids: seq<nat>, addresses: seq<nat>, relays: set<Relay>)
    requires |ids| == |addresses|
  {
    && (forall r {:trigger HasPair(ids, addresses, r.id, r.address)} ::
          r in relays ==> HasPair(ids, addresses, r.id, r.address))
    && (forall k {:trigger OwnsPair(relays, ids[k], addresses[k])} ::
          0 <= k < |ids| ==> OwnsPair(relays, ids[k], addresses[k]))
  }

  lemma ListingOf(ids: seq<nat>, addresses: seq<nat>, m: map<nat, Relay>, relays: set<Relay>)
    requires Lists(ids, addresses, m)
    requires forall id :: id in m ==> m[id].id == id
    requires forall r :: Has(m, r) <==> r in relays
    ensures ListsPairsOf(ids, addresses, relays)
  {
    forall r | r in relays ensures HasPair(ids, addresses, r.id, r.address) {
      assert Has(m, r);
      ListingPairs(ids, addresses, m, r, 0);
    }
    forall k | 0 <= k < |ids| ensures OwnsPair(relays, ids[k], addresses[k]) {
      ListingPairs(ids, addresses, m, m[ids[k]], k);
      assert m[ids[k]] in relays;
    }
  }

  /** What the caller gets for distinct ids: the (id, address) pairs of the declared relays. */
  lemma ResultIsDeclared(q: Query, relays: seq<Relay>, ids: seq<nat>, addresses: seq<nat>)
    requires DistinctIds(relays)
    requires Lists(ids, addresses, Chosen(q, relays))
    ensures ListsPairsOf(ids, addresses, Declared(q, Set(relays)))
  {
    ChosenIsDeclared(q, relays);
    ListingOf(ids, addresses, Chosen(q, relays), Declared(q, Set(relays)));
  }

  lemma DeclaredIsGiven(q: Query, relays: seq<Relay>, r: Relay) returns (i: nat)
    requires r in EligibleOf(q, Set(relays))
    ensures i < |relays| && relays[i] == r && !q.detour(r.place)
  {
    i :| 0 <= i < |relays| && relays[i] == r;
  }

  lemma ListedRelay(ids: seq<nat>, addresses: seq<nat>, relays: set<Relay>, k: nat) returns (r: Relay)
    requires k < |ids| == |addresses| && ListsPairsOf(ids, addresses, relays)
    ensures r in relays && r.id == ids[k] && r.address == addresses[k]
  {
    assert OwnsPair(relays, ids[k], addresses[k]);
    r :| r in relays && r.id == ids[k] && r.address == addresses[k];
  }

  lemma PairIsGiven(q: Query, relays: seq<Relay>, ids: seq<nat>, addresses: seq<nat>, k: nat) returns (i: nat)
    requires DistinctIds(relays) && Lists(ids, addresses, Chosen(q, relays)) && k < |ids|
    ensures i < |relays| && ids[k] == relays[i].id && addresses[k] == relays[i].address && !q.detour(relays[i].place)
  {
    ResultIsDeclared(q, relays, ids, addresses);
    var r := ListedRelay(ids, addresses, Declared(q, Set(relays)), k);
    DeclaredIsEligible(q, relays, r);
    i := DeclaredIsGiven(q, relays, r);
  }

  lemma DeclaredIsEligible(q: Query, relays: seq<Relay>, r: Relay)
    requires DistinctIds(relays) && r in Declared(q, Set(relays))
    ensures r in EligibleOf(q, Set(relays))
  {
    ChosenIsDeclared(q, relays);
  }

  lemma GivenIsReturned(q: Query, relays: seq<Relay>, ids: seq<nat>, addresses: seq<nat>, i: nat)
    requires DistinctIds(relays) && Lists(ids, addresses, Chosen(q, relays)) && i < |relays|
    requires !q.detour(relays[i].place) && |ids| != q.max
    ensures HasPair(ids, addresses, relays[i].id, relays[i].address)
  {
    MustBeDeclared(q, relays, ids, addresses, relays[i]);
    ResultIsDeclared(q, relays, ids, addresses);
    assert HasPair(ids, addresses, relays[i].id, relays[i].address);
  }

  lemma MustBeDeclared(q: Query, relays: seq<Relay>, ids: seq<nat>, addresses: seq<nat>, r: Relay)
    requires DistinctIds(relays) && Lists(ids, addresses, Chosen(q, relays)) && r in relays
    requires !q.detour(r.place) && |ids| != q.max
    ensures r in Declared(q, Set(relays))
  {
    ChosenIsDeclared(q, relays);
    assert r in EligibleOf(q, Set(relays));
    if r !in Declared(q, Set(relays)) {
      FullWhenSkipping(q, Set(relays), r);
    }
  }

  /** Every returned pair is the id and the address of one given relay that is no detour; and a given relay
      that is no detour is returned too, unless as many as the maximum are. */
  lemma ResultIsGiven(q: Query, relayIds: seq<nat>, relayAddresses: seq<nat>, relayPlaces: seq<Place>,
      ids: seq<nat>, addresses: seq<nat>)
    requires |relayIds| <= |relayAddresses| && |relayIds| <= |relayPlaces|
    requires forall i, j :: 0 <= i < j < |relayIds| ==> relayIds[i] != relayIds[j]
    requires Lists(ids, addresses, Chosen(q, Given(relayIds, relayAddresses, relayPlaces)))
    ensures forall k :: 0 <= k < |ids| ==> exists i ::
      0 <= i < |relayIds| && ids[k] == relayIds[i] && addresses[k] == relayAddresses[i] && !q.detour(relayPlaces[i])
    ensures forall i :: 0 <= i < |relayIds| && !q.detour(relayPlaces[i]) && |ids| != q.max ==>
      HasPair(ids, addresses, relayIds[i], relayAddresses[i])
  {
    var relays := Given(relayIds, relayAddresses, relayPlaces);
    forall k | 0 <= k < |ids| ensures exists i ::
      0 <= i < |relayIds| && ids[k] == relayIds[i] && addresses[k] == relayAddresses[i] && !q.detour(relayPlaces[i])
    {
      var i := PairIsGiven(q, relays, ids, addresses, k);
    }
    forall i | 0 <= i < |relayIds| && !q.detour(relayPlaces[i]) && |ids| != q.max
      ensures HasPair(ids, addresses, relayIds[i], relayAddresses[i])
    {
      GivenIsReturned(q, relays, ids, addresses, i);
    }
  }
}
