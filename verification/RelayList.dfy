/** The list of other relays the gateway answers an update with. */
module RelayList {
  import opened StableSort

  const MAX_RELAYS: nat := 1000

  /** `name` is the place of the relay's name in the order of strings. */
  datatype Relay = Relay(
    id: nat,
    name: int,
    publicAddress: nat,
    hasInternalAddress: bool,
    internalAddress: nat,
    internalGroup: nat,
    sellerId: nat)

  /** Parallel arrays over the database's relays, and the relays by id. */
  datatype RelayData = RelayData(
    relayIds: seq<nat>,
    relayArray: seq<Relay>,
    relaySellerIds: seq<nat>,
    relayHash: map<nat, Relay>)

  datatype Peer = Peer(id: nat, address: nat, internal: bool)

  /** The parallel arrays describe the same relays. */
  ghost predicate Aligned(data: RelayData) {
    && |data.relayIds| == |data.relayArray| == |data.relaySellerIds|
    && (forall i :: 0 <= i < |data.relayArray| ==> data.relayIds[i] == data.relayArray[i].id)
    && (forall i :: 0 <= i < |data.relayArray| ==> data.relaySellerIds[i] == data.relayArray[i].sellerId)
  }

  /** Relays by id; of relays with one id the last counts. */
  function Indexed(relays: seq<Relay>): map<nat, Relay> {
    if relays == [] then map[]
    else
      var last := relays[|relays| - 1];
      Indexed(relays[..|relays| - 1])[last.id := last]
  }

  ghost predicate LastAt(relays: seq<Relay>, i: nat, id: nat) {
    i < |relays| && relays[i].id == id && forall k :: i < k < |relays| ==> relays[k].id != id
  }

  lemma {:induction false} IndexedIsLast(relays: seq<Relay>, i: nat, id: nat)
    requires LastAt(relays, i, id)
    ensures id in Indexed(relays) && Indexed(relays)[id] == relays[i]
  {
    if i < |relays| - 1 {
      IndexedIsLast(relays[..|relays| - 1], i, id);
    }
  }

  lemma {:induction false} IndexedComesFrom(relays: seq<Relay>, id: nat) returns (i: nat)
    requires id in Indexed(relays)
    ensures LastAt(relays, i, id)
  {
    var n := |relays| - 1;
    if relays[n].id == id {
      i := n;
    } else {
      i := IndexedComesFrom(relays[..n], id);
    }
  }

  /** The map holds the same relays, and their ids are distinct. */
  ghost predicate Hashed(data: RelayData) {
    && (forall i :: 0 <= i < |data.relayArray| ==> data.relayArray[i].id in data.relayHash)
    && (forall i :: 0 <= i < |data.relayArray| ==> data.relayHash[data.relayArray[i].id] == data.relayArray[i])
    && (forall id :: id in data.relayHash ==> data.relayHash[id] in data.relayArray && data.relayHash[id].id == id)
    && (forall i, j :: 0 <= i < j < |data.relayArray| ==> data.relayArray[i].id != data.relayArray[j].id)
  }

  ghost predicate Consistent(data: RelayData) {
    Aligned(data) && Hashed(data)
  }

  function ByName(): Relay -> int {
    (relay: Relay) => relay.name
  }

  function ById(): Relay -> int {
    (relay: Relay) => relay.id
  }

  /** The database's relays are sorted by name in place. The arrays describe them in that order, and
      of relays with one id the map holds the last; distinct relays in, consistent data out. */
  method GenerateRelayData(database: array<Relay>) returns (data: RelayData)
    modifies database
    ensures database[..] == Sort(old(database[..]), ByName())
    ensures data.relayArray == database[..]
    ensures Aligned(data) && data.relayHash == Indexed(data.relayArray)
    ensures forall i, j :: 0 <= i < j < database.Length ==> database[i].name <= database[j].name
    ensures multiset(database[..]) == multiset(old(database[..]))
    ensures DistinctBy(old(database[..]), ById()) ==> Consistent(data)
  {
    ghost var before := database[..];
    SortInPlace(database, ByName());
    SortedByName(before);
    assert database[..] == Sort(before, ByName());
    assert forall i :: 0 <= i < database.Length ==> database[i] == database[..][i];
    data := IndexRelays(database[..]);
    if DistinctBy(before, ById()) {
      SortKeepsDistinct(before, ByName(), ById());
      DistinctIsConsistent(data);
    }
  }

  lemma SortedByName(relays: seq<Relay>)
    ensures var sorted := Sort(relays, ByName());
      && multiset(sorted) == multiset(relays)
      && forall i, j :: 0 <= i < j < |sorted| ==> sorted[i].name <= sorted[j].name
  {
    SortPermutes(relays, ByName());
    SortLexOrdered(relays, ByName(), (a: Relay, b: Relay) => true);
  }

  lemma DistinctIsConsistent(data: RelayData)
    requires Aligned(data) && data.relayHash == Indexed(data.relayArray) && DistinctBy(data.relayArray, ById())
    ensures Consistent(data)
  {
    var relays, hash := data.relayArray, data.relayHash;
    forall i, j | 0 <= i < j < |relays| ensures relays[i].id != relays[j].id {
      assert ById()(relays[i]) != ById()(relays[j]);
    }
    forall i | 0 <= i < |relays| ensures relays[i].id in hash && hash[relays[i].id] == relays[i] {
      IndexedIsLast(relays, i, relays[i].id);
    }
    forall id | id in hash ensures hash[id] in relays && hash[id].id == id {
      var i := IndexedComesFrom(relays, id);
      IndexedIsLast(relays, i, id);
    }
  }

  method IndexRelays(relays: seq<Relay>) returns (data: RelayData)
    ensures data.relayArray == relays && Aligned(data) && data.relayHash == Indexed(relays)
  {
    var hash: map<nat, Relay> := map[];
    for i := 0 to |relays|
      invariant hash == Indexed(relays[..i])
    {
      hash := hash[relays[i].id := relays[i]];
      assert relays[..i + 1][..i] == relays[..i];
    }
    assert relays[..|relays|] == relays;
    var ids, sellers := new nat[|relays|](_ => 0), new nat[|relays|](_ => 0);
    for i := 0 to |relays|
      invariant forall k :: 0 <= k < i ==> ids[k] == relays[k].id && sellers[k] == relays[k].sellerId
    {
      ids[i] := relays[i].id;
      sellers[i] := relays[i].sellerId;
    }
    data := RelayData(ids[..], relays, sellers[..], hash);
  }

  /** Two relays talk over their internal addresses when both have one, in the same group of the same
      seller. */
  predicate Internally(a: Relay, b: Relay) {
    a.sellerId == b.sellerId && b.hasInternalAddress && a.hasInternalAddress && b.internalGroup == a.internalGroup
  }

  function PeerOf(relay: Relay, other: Relay): Peer {
    var internal := Internally(relay, other);
    Peer(other.id, if internal then other.internalAddress else other.publicAddress, internal)
  }

  function Peers(relay: Relay, others: seq<Relay>): seq<Peer> {
    if others == [] then []
    else
      var front, last := others[..|others| - 1], others[|others| - 1];
      Peers(relay, front) + if last.id == relay.id then [] else [PeerOf(relay, last)]
  }

  method AnswerPeer(data: RelayData, relay: Relay, i: nat) returns (peer: Peer)
    requires Aligned(data) && i < |data.relayIds|
    ensures peer == PeerOf(relay, data.relayArray[i])
  {
    var address := data.relayArray[i].publicAddress;
    var internal := false;
    if relay.sellerId == data.relaySellerIds[i] && data.relayArray[i].hasInternalAddress && relay.hasInternalAddress
       && data.relayArray[i].internalGroup == relay.internalGroup {
      address := data.relayArray[i].internalAddress;
      internal := true;
    }
    peer := Peer(data.relayIds[i], address, internal);
  }

  lemma PeersSnoc(relay: Relay, others: seq<Relay>, i: nat)
    requires i < |others|
    ensures Peers(relay, others[..i + 1]) ==
            Peers(relay, others[..i]) + if others[i].id == relay.id then [] else [PeerOf(relay, others[i])]
  {
    assert others[..i + 1][..i] == others[..i];
  }

  /** `Overrun` is a write past the end of the answer's arrays (a panic in the original). */
  datatype Answer = UnknownRelay | Overrun | Listed(peers: seq<Peer>)

  /** Every relay the gateway knows is answered exactly if there are at most as many others as the
      answer has room for. */
  method AnswerPeers(data: RelayData, relayId: nat) returns (answer: Answer)
    requires Consistent(data)
    ensures answer.UnknownRelay? <==> relayId !in data.relayHash
    ensures answer.Overrun? <==> relayId in data.relayHash && |data.relayIds| > 1001
    ensures answer.Listed? ==> answer.peers == Peers(data.relayHash[relayId], data.relayArray)
  {
    if relayId !in data.relayHash {
      return UnknownRelay;
    }
    var relay := data.relayHash[relayId];
    ghost var k :| 0 <= k < |data.relayArray| && data.relayArray[k] == relay;
    PeersSkipOnlySelf(data.relayArray, k);
    answer := FillPeers(data, relay);
  }

  lemma {:induction false} PeersGrow(relay: Relay, others: seq<Relay>, i: nat)
    requires i <= |others|
    ensures |Peers(relay, others[..i])| <= |Peers(relay, others)|
  {
    if i == |others| {
      assert others[..i] == others;
    } else {
      PeersGrow(relay, others[..|others| - 1], i);
      assert others[..|others| - 1][..i] == others[..i];
    }
  }

  /** The answer's arrays, filled by an index that skips the asking relay. */
  method FillPeers(data: RelayData, relay: Relay) returns (answer: Answer)
    requires Aligned(data)
    ensures answer == if |Peers(relay, data.relayArray)| <= MAX_RELAYS then Listed(Peers(relay, data.relayArray))
      else Overrun
  {
    var response := new Peer[MAX_RELAYS](_ => Peer(0, 0, false));
    var relayIndex := 0;
    for i := 0 to |data.relayIds|
      invariant relayIndex <= MAX_RELAYS
      invariant response[..relayIndex] == Peers(relay, data.relayArray[..i])
    {
      PeersSnoc(relay, data.relayArray, i);
      if data.relayIds[i] == relay.id {
        continue;
      }
      var peer := AnswerPeer(data, relay, i);
      if relayIndex == MAX_RELAYS {
        PeersGrow(relay, data.relayArray, i + 1);
        return Overrun;
      }
      response[relayIndex] := peer;
      relayIndex := relayIndex + 1;
    }
    assert data.relayArray[..|data.relayIds|] == data.relayArray;
    answer := Listed(response[..relayIndex]);
  }

  /** Where relay `i` of the list ends up when relay `k` is left out. */
  function Shifted(i: nat, k: nat): nat {
    if k < i then i - 1 else i
  }

  /** The list is the database order with exactly the asking relay removed. */
  lemma {:induction false} PeersSkipOnlySelf(others: seq<Relay>, k: nat)
    requires k < |others|
    requires forall i, j :: 0 <= i < j < |others| ==> others[i].id != others[j].id
    ensures |Peers(others[k], others)| == |others| - 1
    ensures forall i :: 0 <= i < |others| && i != k ==>
      Peers(others[k], others)[Shifted(i, k)] == PeerOf(others[k], others[i])
    decreases |others|
  {
    var front := others[..|others| - 1];
    if k == |others| - 1 {
      PeersOfOthers(others[k], front);
    } else {
      PeersSkipOnlySelf(front, k);
    }
  }

  lemma {:induction false} PeersOfOthers(relay: Relay, others: seq<Relay>)
    requires forall i :: 0 <= i < |others| ==> others[i].id != relay.id
    ensures |Peers(relay, others)| == |others|
    ensures forall i :: 0 <= i < |others| ==> Peers(relay, others)[i] == PeerOf(relay, others[i])
  {
    if others != [] {
      PeersOfOthers(relay, others[..|others| - 1]);
    }
  }

  /** What relay `a` is told about relay `b`: its internal address exactly when both belong to one seller,
      both have an internal address and both are in one group, and its public address otherwise. */
  lemma PeerIsToldExactly(data: RelayData, a: nat, b: nat)
    requires Consistent(data)
    requires a < |data.relayArray| && b < |data.relayArray| && a != b
    ensures var relays := data.relayArray; var toA := Peers(relays[a], relays);
      && |toA| == |relays| - 1
      && var peer, r, s := toA[if b < a then b else b - 1], relays[a], relays[b];
      && peer.id == s.id
      && (peer.internal <==>
            && r.sellerId == s.sellerId && r.internalGroup == s.internalGroup
            && r.hasInternalAddress && s.hasInternalAddress)
      && peer.address == if peer.internal then s.internalAddress else s.publicAddress
  {
    PeersSkipOnlySelf(data.relayArray, a);
  }

  /** Across two requests: relay `a` is told the internal address of `b` exactly when `b` is told that
      of `a`; otherwise both are told public addresses. */
  lemma InternalIsSymmetric(data: RelayData, a: nat, b: nat)
    requires Consistent(data)
    requires a < |data.relayArray| && b < |data.relayArray| && a != b
    ensures var relays := data.relayArray; var toA, toB := Peers(relays[a], relays), Peers(relays[b], relays);
      && |toA| == |toB| == |relays| - 1
      && toA[Shifted(b, a)].id == relays[b].id && toB[Shifted(a, b)].id == relays[a].id
      && toA[Shifted(b, a)].internal == toB[Shifted(a, b)].internal
      && (toA[Shifted(b, a)].internal ==>
            && toA[Shifted(b, a)].address == relays[b].internalAddress
            && toB[Shifted(a, b)].address == relays[a].internalAddress)
      && (!toA[Shifted(b, a)].internal ==>
            && toA[Shifted(b, a)].address == relays[b].publicAddress
            && toB[Shifted(a, b)].address == relays[a].publicAddress)
  {
    PeersSkipOnlySelf(data.relayArray, a);
    PeersSkipOnlySelf(data.relayArray, b);
  }
}
