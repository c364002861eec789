/** The table of the cheapest routes between two relays, filled one offered route at a time. */
module RouteManager {
  import opened Common

  const MAX_ROUTES: nat := 16
  const COST_LIMIT: nat := 255

  datatype Route = Route(cost: nat, price: nat, hash: nat, relays: seq<nat>)

  predicate LoopFree(relays: seq<nat>) {
    forall i, j :: 0 <= i < j < |relays| ==> relays[i] != relays[j]
  }

  /** An offer that may enter a table at all. */
  predicate Eligible(route: Route) {
    route.cost < COST_LIMIT && LoopFree(route.relays)
  }

  predicate HasHash(routes: seq<Route>, hash: nat) {
    exists k :: 0 <= k < |routes| && routes[k].hash == hash
  }

  // ----- what adding a route does -----

  /** Left of every route that is not cheaper. */
  function LeftPlace(routes: seq<Route>, cost: nat): (p: nat)
    ensures p <= |routes|
    ensures p > 0 ==> routes[p - 1].cost < cost
    ensures forall k :: p <= k < |routes| ==> routes[k].cost >= cost
  {
    if routes == [] || routes[|routes| - 1].cost < cost then |routes| else LeftPlace(routes[..|routes| - 1], cost)
  }

  /** A route that ties the dearest one goes last; any other goes before its equals. */
  function Place(routes: seq<Route>, cost: nat): (p: nat)
    ensures p <= |routes|
  {
    if routes != [] && cost >= routes[|routes| - 1].cost then |routes| else LeftPlace(routes, cost)
  }

  lemma PlaceIs(routes: seq<Route>, cost: nat, p: nat)
    requires routes != [] && cost < routes[|routes| - 1].cost
    requires p <= |routes| && (p > 0 ==> routes[p - 1].cost < cost)
    requires forall k :: p <= k < |routes| ==> routes[k].cost >= cost
    ensures Place(routes, cost) == p
  {
    NotAfter(routes, cost, p, LeftPlace(routes, cost));
    NotAfter(routes, cost, LeftPlace(routes, cost), p);
  }

  lemma NotAfter(routes: seq<Route>, cost: nat, p: nat, q: nat)
    requires p <= |routes| && q <= |routes| && (p > 0 ==> routes[p - 1].cost < cost)
    requires forall k :: q <= k < |routes| ==> routes[k].cost >= cost
    ensures p <= q
  {
  }

  predicate TurnedAway(routes: seq<Route>, route: Route) {
    || !Eligible(route)
    || (|routes| >= MAX_ROUTES && route.cost >= routes[|routes| - 1].cost)
    || HasHash(routes, route.hash)
  }

  function Inserted(routes: seq<Route>, p: nat, route: Route): (grown: seq<Route>)
    requires p <= |routes|
    ensures |grown| == |routes| + 1
    ensures forall k :: 0 <= k < p ==> grown[k] == routes[k]
    ensures grown[p] == route
    ensures forall k :: p < k < |grown| ==> grown[k] == routes[k - 1]
  {
    routes[..p] + [route] + routes[p..]
  }

  function Capped(routes: seq<Route>): seq<Route> {
    if |routes| > MAX_ROUTES then routes[..MAX_ROUTES] else routes
  }

  function Added(routes: seq<Route>, route: Route): seq<Route> {
    if TurnedAway(routes, route) then routes
    else
      Capped(Inserted(routes, Place(routes, route.cost), route))
  }

  ghost predicate Repeats(relays: seq<nat>) {
    exists a, b :: 0 <= a < b < |relays| && relays[a] == relays[b]
  }

  /** What adding does, by the number `p` of cheaper routes: a route that costs too much, passes a relay
      twice, has a hash that is stored, or ties or exceeds the last of sixteen changes nothing; any other
      goes after the cheaper ones and before its equals, but last if it ties the last; and of seventeen
      the last is dropped. */
  lemma AddedExactly(routes: seq<Route>, route: Route, p: nat)
    requires p <= |routes| <= 16
    requires forall k :: 0 <= k < p ==> routes[k].cost < route.cost
    requires forall k :: p <= k < |routes| ==> routes[k].cost >= route.cost
    ensures var n := |routes|;
      Added(routes, route) ==
      if || route.cost >= 255 || Repeats(route.relays)
         || (exists k :: 0 <= k < n && routes[k].hash == route.hash)
         || (n == 16 && route.cost >= routes[15].cost)
      then routes
      else
        var q := if n > 0 && route.cost >= routes[n - 1].cost then n else p;
        var grown := routes[..q] + [route] + routes[q..];
        if n == 16 then grown[..16] else grown
  {
    var q := LeftPlace(routes, route.cost);
    NotAfter(routes, route.cost, p, q);
    NotAfter(routes, route.cost, q, p);
  }

  /** The table after a series of offers. */
  function AllAdded(offers: seq<Route>): seq<Route> {
    if offers == [] then [] else Added(AllAdded(offers[..|offers| - 1]), offers[|offers| - 1])
  }

  // ----- what every table satisfies -----

  ghost predicate Ascending(routes: seq<Route>) {
    forall i, j :: 0 <= i < j < |routes| ==> routes[i].cost <= routes[j].cost
  }

  ghost predicate DistinctHashes(routes: seq<Route>) {
    forall i, j :: 0 <= i < j < |routes| ==> routes[i].hash != routes[j].hash
  }

  ghost predicate Table(routes: seq<Route>) {
    && |routes| <= 16
    && Ascending(routes)
    && DistinctHashes(routes)
    && (forall k :: 0 <= k < |routes| ==> routes[k].cost < 255 && LoopFree(routes[k].relays))
  }

  lemma PlaceSplits(routes: seq<Route>, cost: nat)
    requires Ascending(routes)
    ensures forall k :: 0 <= k < Place(routes, cost) ==> routes[k].cost <= cost
    ensures forall k :: Place(routes, cost) <= k < |routes| ==> cost <= routes[k].cost
  {
    var p := Place(routes, cost);
    assert forall k :: 0 <= k < p ==> routes[k].cost <= routes[p - 1].cost;
  }

  lemma InsertedIsAscending(routes: seq<Route>, route: Route)
    requires Ascending(routes)
    ensures Ascending(Inserted(routes, Place(routes, route.cost), route))
  {
    PlaceSplits(routes, route.cost);
    var p := Place(routes, route.cost);
    var grown := Inserted(routes, p, route);
    forall i, j | 0 <= i < j < |grown| ensures grown[i].cost <= grown[j].cost {
      if i < p {
        assert grown[i] == routes[i];
      }
      if j > p {
        assert grown[j] == routes[j - 1];
      }
    }
  }

  lemma InsertedIsDistinct(routes: seq<Route>, p: nat, route: Route)
    requires p <= |routes| && DistinctHashes(routes) && !HasHash(routes, route.hash)
    ensures DistinctHashes(Inserted(routes, p, route))
  {
    var grown := Inserted(routes, p, route);
    forall i, j | 0 <= i < j < |grown| ensures grown[i].hash != grown[j].hash {
      var a := if i < p then i else i - 1;
      var b := if j < p then j else j - 1;
      assert i != p ==> grown[i] == routes[a];
      assert j != p ==> grown[j] == routes[b];
    }
  }

  lemma CappedIsTable(routes: seq<Route>)
    requires Ascending(routes) && DistinctHashes(routes)
    requires forall k :: 0 <= k < |routes| ==> Eligible(routes[k])
    ensures Table(Capped(routes))
  {
  }

  lemma AddedKeepsTable(routes: seq<Route>, route: Route)
    requires Table(routes)
    ensures Table(Added(routes, route))
  {
    if !TurnedAway(routes, route) {
      var p := Place(routes, route.cost);
      InsertedIsAscending(routes, route);
      InsertedIsDistinct(routes, p, route);
      CappedIsTable(Inserted(routes, p, route));
    }
  }

  lemma {:induction false} AllAddedIsTable(offers: seq<Route>)
    ensures Table(AllAdded(offers))
  {
    if offers != [] {
      AllAddedIsTable(offers[..|offers| - 1]);
      AddedKeepsTable(AllAdded(offers[..|offers| - 1]), offers[|offers| - 1]);
    }
  }

  /** Every route of the table was offered. */
  lemma {:induction false} AllAddedWereOffered(offers: seq<Route>, k: nat)
    requires k < |AllAdded(offers)|
    ensures AllAdded(offers)[k] in offers
  {
    var n := |offers| - 1;
    var before, route := AllAdded(offers[..n]), offers[n];
    if TurnedAway(before, route) {
      AllAddedWereOffered(offers[..n], k);
    } else {
      var p := Place(before, route.cost);
      if k != p {
        AllAddedWereOffered(offers[..n], if k < p then k else k - 1);
      }
    }
  }

  // ----- the cheapest are kept -----

  /** No two different offers share a hash. */
  ghost predicate NoCollisions(offers: seq<Route>) {
    forall i, j :: 0 <= i < |offers| && 0 <= j < |offers| && offers[i].hash == offers[j].hash ==> offers[i] == offers[j]
  }

  /** The route is in the table, or the table is full of routes that are not dearer. */
  ghost predicate Kept(routes: seq<Route>, route: Route) {
    || route in routes
    || (|routes| == 16 && routes[15].cost <= route.cost)
  }

  /** A route that is in the table stays, or is pushed out by sixteen that are not dearer. */
  lemma InsertedKeeps(routes: seq<Route>, p: nat, route: Route, k: nat)
    requires p <= |routes| <= MAX_ROUTES && k < |routes| && Ascending(Inserted(routes, p, route))
    ensures Kept(Capped(Inserted(routes, p, route)), routes[k])
  {
    var grown := Inserted(routes, p, route);
    var at := if k < p then k else k + 1;
    assert grown[at] == routes[k];
    if at < MAX_ROUTES {
      assert Capped(grown)[at] == routes[k];
    } else {
      assert grown[MAX_ROUTES - 1].cost <= grown[at].cost;
    }
  }

  /** A table full of routes that are not dearer stays one. */
  lemma InsertedStaysCheap(routes: seq<Route>, p: nat, route: Route, cost: nat)
    requires p < |routes| == MAX_ROUTES && Ascending(Inserted(routes, p, route))
    requires routes[MAX_ROUTES - 1].cost <= cost
    ensures Capped(Inserted(routes, p, route))[MAX_ROUTES - 1].cost <= cost
  {
    var grown := Inserted(routes, p, route);
    assert grown[MAX_ROUTES - 1].cost <= grown[MAX_ROUTES].cost;
    assert grown[MAX_ROUTES] == routes[MAX_ROUTES - 1];
  }

  lemma AddedKeepsKept(routes: seq<Route>, route: Route, other: Route)
    requires Table(routes) && Kept(routes, other)
    ensures Kept(Added(routes, route), other)
  {
    if !TurnedAway(routes, route) {
      var p := Place(routes, route.cost);
      InsertedIsAscending(routes, route);
      if other in routes {
        var k :| 0 <= k < |routes| && routes[k] == other;
        InsertedKeeps(routes, p, route, k);
      } else {
        PlaceSplits(routes, route.cost);
        InsertedStaysCheap(routes, p, route, other.cost);
      }
    }
  }

  /** The test that decides: an eligible route is kept by the table it is offered to exactly if its
      hash is new there, or the table keeps it already. */
  lemma AddedKeepsExactly(routes: seq<Route>, route: Route)
    requires Table(routes) && Eligible(route)
    ensures Kept(Added(routes, route), route) <==> !HasHash(routes, route.hash) || Kept(routes, route)
  {
    if !TurnedAway(routes, route) {
      var p := Place(routes, route.cost);
      assert Inserted(routes, p, route)[p] == route;
      assert Added(routes, route)[p] == route;
    }
  }

  lemma LastOfferKeepsKept(offers: seq<Route>, route: Route)
    requires offers != [] && Kept(AllAdded(offers[..|offers| - 1]), route)
    ensures Kept(AllAdded(offers), route)
  {
    var n := |offers| - 1;
    AllAddedIsTable(offers[..n]);
    AddedKeepsKept(AllAdded(offers[..n]), offers[n], route);
  }

  /** What is kept stays kept, whatever is offered afterwards. */
  lemma {:induction false} KeptStays(offers: seq<Route>, m: nat, route: Route)
    requires m <= |offers| && Kept(AllAdded(offers[..m]), route)
    ensures Kept(AllAdded(offers), route)
    decreases |offers|
  {
    if m == |offers| {
      assert offers[..m] == offers;
    } else {
      var front := offers[..|offers| - 1];
      assert front[..m] == offers[..m];
      KeptStays(front, m, route);
      LastOfferKeepsKept(offers, route);
    }
  }

  /** The route was offered when no stored route had its hash. */
  ghost predicate NewAt(offers: seq<Route>, j: nat, route: Route) {
    j < |offers| && offers[j] == route && !HasHash(AllAdded(offers[..j]), route.hash)
  }

  /** The table right after an offer keeps it exactly if its hash was new or it was kept before. */
  lemma OfferIsKeptExactly(offers: seq<Route>, i: nat)
    requires i < |offers| && Eligible(offers[i])
    ensures Kept(AllAdded(offers[..i + 1]), offers[i]) <==>
      NewAt(offers, i, offers[i]) || Kept(AllAdded(offers[..i]), offers[i])
  {
    AllAddedIsTable(offers[..i]);
    AddedKeepsExactly(AllAdded(offers[..i]), offers[i]);
    assert offers[..i + 1][..i] == offers[..i];
  }

  lemma {:induction false} StoredWasNew(offers: seq<Route>, route: Route)
    requires route in AllAdded(offers)
    ensures exists j: nat :: NewAt(offers, j, route)
  {
    var n := |offers| - 1;
    var before := AllAdded(offers[..n]);
    assert AllAdded(offers) == Added(before, offers[n]);
    if route in before {
      StoredWasNew(offers[..n], route);
      var j: nat :| NewAt(offers[..n], j, route);
      assert offers[..n][..j] == offers[..j];
      assert NewAt(offers, j, route);
    } else {
      AddedHasOnly(before, offers[n], route);
      assert NewAt(offers, n, route);
    }
  }

  lemma AddedHasOnly(routes: seq<Route>, route: Route, other: Route)
    requires other in Added(routes, route) && other !in routes
    ensures other == route && !HasHash(routes, route.hash)
  {
    var after := Added(routes, route);
    var k :| 0 <= k < |after| && after[k] == other;
    InsertedHasOnly(routes, Place(routes, route.cost), route, k);
  }

  lemma InsertedHasOnly(routes: seq<Route>, p: nat, route: Route, k: nat)
    requires p <= |routes| && k <= |routes|
    ensures Inserted(routes, p, route)[k] == route || Inserted(routes, p, route)[k] in routes
  {
  }

  /** The table has a place for a route of this cost. */
  predicate HasRoom(routes: seq<Route>, cost: nat) {
    |routes| < 16 || cost < routes[15].cost
  }

  /** Exactly which routes a series of offers leaves in the table, collisions or not: those that were
      offered when no stored route had their hash, unless the table is full of routes that are not dearer. */
  lemma StoredExactly(offers: seq<Route>, route: Route)
    requires Eligible(route)
    ensures route in AllAdded(offers) ==> exists j: nat :: NewAt(offers, j, route)
    ensures HasRoom(AllAdded(offers), route.cost) ==>
      (route in AllAdded(offers) <==> exists j: nat :: NewAt(offers, j, route))
  {
    AllAddedIsTable(offers);
    if j: nat :| NewAt(offers, j, route) {
      OfferIsKeptExactly(offers, j);
      KeptStays(offers, j + 1, route);
    }
    if route in AllAdded(offers) {
      StoredWasNew(offers, route);
    }
  }

  /** Of two eligible routes with one hash the second is lost, however much cheaper it is. */
  lemma CollisionLosesRoute(first: Route, second: Route)
    requires Eligible(first) && Eligible(second) && first != second && first.hash == second.hash
    ensures AllAdded([first] + [second]) == [first] && !Kept(AllAdded([first] + [second]), second)
  {
    assert ([first] + [second])[..1] == [first] && [first][..0] == [];
    assert AllAdded([first]) == Added([], first) == [first];
    assert [first][0].hash == second.hash;
  }

  /** Without collisions no eligible offer is lost to a dearer one, whatever the order of the offers. */
  lemma CheapestAreKept(offers: seq<Route>, i: nat)
    requires NoCollisions(offers)
    requires i < |offers| && Eligible(offers[i])
    ensures Kept(AllAdded(offers), offers[i])
  {
    OfferIsKeptExactly(offers, i);
    if HasHash(AllAdded(offers[..i]), offers[i].hash) {
      HeldHashIsSelf(offers, i);
    }
    KeptStays(offers, i + 1, offers[i]);
  }

  lemma HeldHashIsSelf(offers: seq<Route>, n: nat)
    requires NoCollisions(offers) && n < |offers| && HasHash(AllAdded(offers[..n]), offers[n].hash)
    ensures offers[n] in AllAdded(offers[..n])
  {
    var before := AllAdded(offers[..n]);
    var k :| 0 <= k < |before| && before[k].hash == offers[n].hash;
    AllAddedWereOffered(offers[..n], k);
    var i :| 0 <= i < n && offers[i] == before[k];
  }

  lemma OfferedIsKept(offers: seq<Route>, route: Route)
    requires NoCollisions(offers) && route in offers && Eligible(route)
    ensures Kept(AllAdded(offers), route)
  {
    var i :| 0 <= i < |offers| && offers[i] == route;
    CheapestAreKept(offers, i);
  }

  lemma KeptBoundsFirst(routes: seq<Route>, route: Route)
    requires Table(routes) && Kept(routes, route)
    ensures routes != [] && routes[0].cost <= route.cost
  {
  }

  // ----- the costs do not depend on the order -----

  ghost predicate SameOffers(a: seq<Route>, b: seq<Route>) {
    forall route :: route in a <==> route in b
  }

  ghost function HashSet(routes: seq<Route>, n: nat): set<nat>
    requires n <= |routes|
  {
    set k | 0 <= k < n :: routes[k].hash
  }

  lemma {:induction false} HashSetSize(routes: seq<Route>, n: nat)
    requires n <= |routes| && DistinctHashes(routes)
    ensures |HashSet(routes, n)| == n
  {
    if n > 0 {
      HashSetSize(routes, n - 1);
      assert forall k :: 0 <= k < n - 1 ==> routes[k].hash != routes[n - 1].hash;
      assert routes[n - 1].hash !in HashSet(routes, n - 1);
      assert HashSet(routes, n) == HashSet(routes, n - 1) + {routes[n - 1].hash};
    }
  }

  /** Hashes that all occur in another table's first `m` places cannot be more than `m`. */
  lemma Pigeonhole(a: seq<Route>, n: nat, b: seq<Route>, m: nat)
    requires n <= |a| && m <= |b| && DistinctHashes(a) && DistinctHashes(b)
    requires forall k :: 0 <= k < n ==> a[k].hash in HashSet(b, m)
    ensures n <= m
  {
    HashSetSize(a, n);
    HashSetSize(b, m);
    SubsetSize(HashSet(a, n), HashSet(b, m));
  }

  lemma OfferKept(a: seq<Route>, b: seq<Route>, k: nat)
    requires NoCollisions(b) && SameOffers(a, b) && k < |AllAdded(a)|
    ensures Kept(AllAdded(b), AllAdded(a)[k])
  {
    AllAddedIsTable(a);
    AllAddedWereOffered(a, k);
    OfferedIsKept(b, AllAdded(a)[k]);
  }

  /** A route of one table that is cheaper than place `m` of the other, or any route if the other
      has only `m` routes and is not full, is among the other's first `m`. */
  lemma KeptBefore(rb: seq<Route>, m: nat, route: Route)
    requires Table(rb) && Kept(rb, route) && m <= |rb|
    requires if m < |rb| then route.cost < rb[m].cost else m < MAX_ROUTES
    ensures route.hash in HashSet(rb, m)
  {
    if m < |rb| {
      assert rb[m].cost <= rb[|rb| - 1].cost;
    }
    var at :| 0 <= at < |rb| && rb[at] == route;
    assert at < m;
  }

  lemma CostNotBelow(a: seq<Route>, b: seq<Route>, u: nat)
    requires NoCollisions(b) && SameOffers(a, b)
    requires u < |AllAdded(a)|
    ensures u < |AllAdded(b)| && AllAdded(b)[u].cost <= AllAdded(a)[u].cost
  {
    var ra, rb := AllAdded(a), AllAdded(b);
    AllAddedIsTable(a);
    AllAddedIsTable(b);
    if u >= |rb| || rb[u].cost > ra[u].cost {
      var m := if u >= |rb| then |rb| else u;
      forall k | 0 <= k < u + 1 ensures ra[k].hash in HashSet(rb, m) {
        OfferKept(a, b, k);
        KeptBefore(rb, m, ra[k]);
      }
      Pigeonhole(ra, u + 1, rb, m);
    }
  }

  /** Offering the same routes in another order gives as many routes, with the same costs. */
  lemma CostsIgnoreOrder(a: seq<Route>, b: seq<Route>)
    requires NoCollisions(a) && NoCollisions(b) && SameOffers(a, b)
    ensures |AllAdded(a)| == |AllAdded(b)|
    ensures forall u :: 0 <= u < |AllAdded(a)| ==> AllAdded(a)[u].cost == AllAdded(b)[u].cost
  {
    var ra, rb := AllAdded(a), AllAdded(b);
    if |ra| > |rb| {
      CostNotBelow(a, b, |rb|);
    }
    if |rb| > |ra| {
      CostNotBelow(b, a, |ra|);
    }
    forall u | 0 <= u < |ra| ensures ra[u].cost == rb[u].cost {
      CostNotBelow(a, b, u);
      CostNotBelow(b, a, u);
    }
  }

  // ----- in place -----

  class Manager {
    const hashOf: seq<nat> -> nat
    const slots: array<Route>
    var numRoutes: nat

    ghost predicate Valid()
      reads this, slots
    {
      && slots.Length == MAX_ROUTES
      && numRoutes <= MAX_ROUTES
    }

    ghost function Contents(): seq<Route>
      requires Valid()
      reads this, slots
    {
      slots[..numRoutes]
    }

    constructor (hashOf: seq<nat> -> nat)
      ensures Valid() && fresh(slots)
      ensures this.hashOf == hashOf
      ensures Contents() == []
    {
      this.hashOf := hashOf;
      slots := new Route[MAX_ROUTES](_ => Route(0, 0, 0, []));
      numRoutes := 0;
    }

    method HasLoop(relays: seq<nat>) returns (loop: bool)
      ensures loop <==> !LoopFree(relays)
    {
      var i := 1;
      while i < |relays|
        invariant i >= 1
        invariant forall a, b :: 0 <= a < b < i && b < |relays| ==> relays[a] != relays[b]
      {
        for j := 0 to i
          invariant forall a :: 0 <= a < j ==> relays[a] != relays[i]
        {
          if relays[i] == relays[j] {
            return true;
          }
        }
        i := i + 1;
      }
      return false;
    }

    method HoldsHash(hash: nat) returns (held: bool)
      requires Valid()
      ensures held <==> HasHash(Contents(), hash)
    {
      for i := 0 to numRoutes
        invariant !HasHash(slots[..i], hash)
      {
        if hash == slots[i].hash {
          assert Contents()[i].hash == hash;
          return true;
        }
        assert slots[..i + 1] == slots[..i] + [slots[i]];
      }
      return false;
    }

    /** Where a route cheaper than the last one belongs. */
    method FindPlace(cost: nat) returns (place: nat)
      requires Valid() && numRoutes > 0 && cost < slots[numRoutes - 1].cost
      ensures place < numRoutes && place == Place(Contents(), cost)
    {
      place := numRoutes - 1;
      while place > 0 && cost <= slots[place - 1].cost
        invariant place < numRoutes
        invariant forall k :: place <= k < numRoutes ==> slots[k].cost >= cost
      {
        place := place - 1;
      }
      PlaceIs(Contents(), cost, place);
    }

    /** Moves the routes at and after `place` one slot on, up to slot `last`, and puts the route there. */
    method ShiftIn(place: nat, last: nat, route: Route)
      requires Valid() && place <= last < MAX_ROUTES
      modifies slots
      ensures Valid()
      ensures slots[..last + 1] == old(slots[..place]) + [route] + old(slots[place..last])
    {
      var i := last;
      while i > place
        invariant place <= i <= last
        invariant forall k :: 0 <= k <= i ==> slots[k] == old(slots[k])
        invariant forall k :: i < k <= last ==> slots[k] == old(slots[k - 1])
      {
        slots[i] := slots[i - 1];
        i := i - 1;
      }
      slots[place] := route;
    }

    /** Puts an eligible route with a new hash into a table with a free slot. */
    method Insert(route: Route)
      requires Valid() && 0 < numRoutes < MAX_ROUTES
      modifies this`numRoutes, slots
      ensures Valid() && numRoutes == old(numRoutes) + 1
      ensures Contents() == Inserted(old(Contents()), Place(old(Contents()), route.cost), route)
    {
      if route.cost >= slots[numRoutes - 1].cost {
        slots[numRoutes] := route;
      } else {
        var place := FindPlace(route.cost);
        ShiftIn(place, numRoutes, route);
      }
      numRoutes := numRoutes + 1;
    }

    /** Puts an eligible route with a new hash into a full table, in place of the last one. */
    method Replace(route: Route)
      requires Valid() && numRoutes == MAX_ROUTES && route.cost < slots[numRoutes - 1].cost
      modifies slots
      ensures Valid()
      ensures Contents() == Capped(Inserted(old(Contents()), Place(old(Contents()), route.cost), route))
    {
      var place := FindPlace(route.cost);
      ShiftIn(place, numRoutes - 1, route);
    }

    method AddEligible(route: Route)
      requires Valid() && Eligible(route)
      modifies this`numRoutes, slots
      ensures Valid()
      ensures Contents() == Added(old(Contents()), route)
    {
      ghost var before := Contents();
      if numRoutes == 0 {
        slots[0] := route;
        numRoutes := 1;
        assert Place(before, route.cost) == 0;
        assert Contents() == Inserted(before, 0, route);
      } else if numRoutes < MAX_ROUTES {
        var held := HoldsHash(route.hash);
        if held {
          return;
        }
        Insert(route);
      } else {
        if route.cost >= slots[numRoutes - 1].cost {
          return;
        }
        var held := HoldsHash(route.hash);
        if held {
          return;
        }
        Replace(route);
      }
    }

    method AddRoute(cost: nat, price: nat, relays: seq<nat>)
      requires Valid()
      modifies this`numRoutes, slots
      ensures Valid()
      ensures Contents() == Added(old(Contents()), Route(cost, price, hashOf(relays), relays))
    {
      if cost >= COST_LIMIT {
        return;
      }
      var loop := HasLoop(relays);
      if loop {
        return;
      }
      AddEligible(Route(cost, price, hashOf(relays), relays));
    }
  }
}
