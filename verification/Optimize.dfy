/** Turning link costs into route entries: for each pair of relays, the cheapest routes found by
    subdividing the direct link through its best indirect relays, up to two levels deep. */
module Optimize {
  import opened Common
  import opened RelayNet
  import opened Indirects
  import opened RouteManager

  /** A net, any function that tells routes apart, and for each pair of relays some relays between. */
  datatype Plan = Plan(net: Net, hash: seq<nat> -> nat, indirect: seq<seq<seq<Indirect>>>)

  ghost predicate Exact(net: Net, a: nat, b: nat, e: Indirect)
    requires Valid(net) && a < net.n && b < net.n
  {
    && e.relay < net.n
    && e.cost == Link(net, a, e.relay) + Link(net, e.relay, b)
  }

  /** Every indirect relay is listed with the exact cost of the way through it. */
  ghost predicate Sound(plan: Plan) {
    && Valid(plan.net)
    && |plan.indirect| == plan.net.n
    && (forall a :: 0 <= a < plan.net.n ==> |plan.indirect[a]| == plan.net.n)
    && (forall a, b, u :: 0 <= a < plan.net.n && 0 <= b < plan.net.n && 0 <= u < |plan.indirect[a][b]| ==>
          Exact(plan.net, a, b, plan.indirect[a][b][u]))
  }

  // ----- the routes considered for a pair -----

  datatype Leg = Leg(cost: nat, relays: seq<nat>)

  function Direct(plan: Plan, a: nat, b: nat): seq<Leg>
    requires Sound(plan) && a < plan.net.n && b < plan.net.n
  {
    [Leg(Link(plan.net, a, b), [a, b])]
  }

  function Through(plan: Plan, a: nat, b: nat): (legs: seq<Leg>)
    requires Sound(plan) && a < plan.net.n && b < plan.net.n
    ensures |legs| == |plan.indirect[a][b]|
    ensures forall u :: 0 <= u < |legs| ==>
      legs[u] == Leg(plan.indirect[a][b][u].cost, [a, plan.indirect[a][b][u].relay, b])
  {
    seq(|plan.indirect[a][b]|, u requires 0 <= u < |plan.indirect[a][b]| =>
      Leg(plan.indirect[a][b][u].cost, [a, plan.indirect[a][b][u].relay, b]))
  }

  function Join(p: Leg, q: Leg): Leg {
    Leg(p.cost + q.cost, p.relays + if q.relays == [] then [] else q.relays[1..])
  }

  function JoinEach(p: Leg, qs: seq<Leg>): (legs: seq<Leg>)
    ensures |legs| == |qs| && forall v :: 0 <= v < |qs| ==> legs[v] == Join(p, qs[v])
  {
    seq(|qs|, v requires 0 <= v < |qs| => Join(p, qs[v]))
  }

  function JoinAll(ps: seq<Leg>, qs: seq<Leg>): seq<Leg> {
    if ps == [] then [] else JoinAll(ps[..|ps| - 1], qs) + JoinEach(ps[|ps| - 1], qs)
  }

  /** The ways from i to j through one indirect relay k, with up to one more relay on each side. */
  function DetoursVia(plan: Plan, i: nat, j: nat, e: Indirect): seq<Leg>
    requires Sound(plan) && i < plan.net.n && j < plan.net.n && e.relay < plan.net.n
  {
    var k := e.relay;
    [Leg(e.cost, [i, k, j])]
    + JoinAll(Through(plan, i, k), Direct(plan, k, j))
    + JoinAll(Direct(plan, i, k), Through(plan, k, j))
    + JoinAll(Through(plan, i, k), Through(plan, k, j))
  }

  function Concat(parts: seq<seq<Leg>>): seq<Leg> {
    if parts == [] then [] else Concat(parts[..|parts| - 1]) + parts[|parts| - 1]
  }

  /** One part for each relay listed between i and j. */
  function Parts(plan: Plan, i: nat, j: nat): (parts: seq<seq<Leg>>)
    requires Sound(plan) && i < plan.net.n && j < plan.net.n
    ensures |parts| == |plan.indirect[i][j]|
    ensures forall u :: 0 <= u < |parts| ==> parts[u] == DetoursVia(plan, i, j, plan.indirect[i][j][u])
  {
    seq(|plan.indirect[i][j]|, u requires 0 <= u < |plan.indirect[i][j]| =>
      DetoursVia(plan, i, j, plan.indirect[i][j][u]))
  }

  function RouteOf(plan: Plan, leg: Leg): Route {
    Route(leg.cost, PathPrice(plan.net, leg.relays), plan.hash(leg.relays), leg.relays)
  }

  ghost predicate SoundLeg(net: Net, a: nat, b: nat, leg: Leg)
    requires Valid(net)
  {
    && 2 <= |leg.relays|
    && Relays(net, leg.relays)
    && leg.relays[0] == a
    && leg.relays[|leg.relays| - 1] == b
    && leg.cost == PathCost(net, leg.relays)
  }

  ghost predicate SoundLegs(net: Net, a: nat, b: nat, legs: seq<Leg>, most: nat)
    requires Valid(net)
  {
    forall u :: 0 <= u < |legs| ==> SoundLeg(net, a, b, legs[u]) && |legs[u].relays| <= most
  }

  /** Of the ways considered, those cheaper than the direct link. */
  function Cheaper(plan: Plan, direct: nat, legs: seq<Leg>): seq<Route> {
    if legs == [] then []
    else
      var leg := legs[|legs| - 1];
      Cheaper(plan, direct, legs[..|legs| - 1]) + if leg.cost < direct then [RouteOf(plan, leg)] else []
  }

  // ----- every way considered is what it claims to be -----

  lemma {:induction false} JoinedPathCost(net: Net, p: seq<nat>, q: seq<nat>)
    requires Valid(net) && Relays(net, p) && Relays(net, q)
    requires p != [] && q != [] && p[|p| - 1] == q[0]
    ensures Relays(net, p + q[1..])
    ensures PathCost(net, p + q[1..]) == PathCost(net, p) + PathCost(net, q)
  {
    if |p| == 1 {
      assert p + q[1..] == q;
    } else {
      JoinedPathCost(net, p[1..], q);
      assert (p + q[1..])[1..] == p[1..] + q[1..];
    }
  }

  lemma JoinIsSound(net: Net, a: nat, b: nat, c: nat, p: Leg, q: Leg)
    requires Valid(net) && SoundLeg(net, a, b, p) && SoundLeg(net, b, c, q)
    ensures SoundLeg(net, a, c, Join(p, q))
    ensures |Join(p, q).relays| == |p.relays| + |q.relays| - 1
  {
    JoinedPathCost(net, p.relays, q.relays);
  }

  lemma {:induction false} JoinAllIsSound(net: Net, a: nat, b: nat, c: nat, ps: seq<Leg>, m: nat, qs: seq<Leg>, n: nat)
    requires m + n > 0 && Valid(net) && SoundLegs(net, a, b, ps, m) && SoundLegs(net, b, c, qs, n)
    ensures SoundLegs(net, a, c, JoinAll(ps, qs), m + n - 1)
  {
    if ps != [] {
      var p := ps[|ps| - 1];
      JoinAllIsSound(net, a, b, c, ps[..|ps| - 1], m, qs, n);
      forall v | 0 <= v < |qs|
        ensures SoundLeg(net, a, c, JoinEach(p, qs)[v]) && |JoinEach(p, qs)[v].relays| <= m + n - 1
      {
        JoinIsSound(net, a, b, c, p, qs[v]);
      }
    }
  }

  lemma DirectIsSound(plan: Plan, a: nat, b: nat)
    requires Sound(plan) && a < plan.net.n && b < plan.net.n
    ensures SoundLegs(plan.net, a, b, Direct(plan, a, b), 2)
  {
    assert [a, b][1..] == [b];
    assert PathCost(plan.net, [a, b]) == Link(plan.net, a, b);
  }

  lemma DetourIsSound(net: Net, a: nat, b: nat, e: Indirect)
    requires Valid(net) && a < net.n && b < net.n && Exact(net, a, b, e)
    ensures SoundLeg(net, a, b, Leg(e.cost, [a, e.relay, b]))
  {
    assert [a, e.relay, b][1..] == [e.relay, b];
    assert [e.relay, b][1..] == [b];
    assert PathCost(net, [e.relay, b]) == Link(net, e.relay, b);
  }

  lemma ThroughIsSound(plan: Plan, a: nat, b: nat)
    requires Sound(plan) && a < plan.net.n && b < plan.net.n
    ensures SoundLegs(plan.net, a, b, Through(plan, a, b), 3)
  {
    forall u | 0 <= u < |plan.indirect[a][b]| ensures SoundLeg(plan.net, a, b, Through(plan, a, b)[u]) {
      DetourIsSound(plan.net, a, b, plan.indirect[a][b][u]);
    }
  }

  lemma DetoursViaAreSound(plan: Plan, i: nat, j: nat, e: Indirect)
    requires Sound(plan) && i < plan.net.n && j < plan.net.n && Exact(plan.net, i, j, e)
    ensures SoundLegs(plan.net, i, j, DetoursVia(plan, i, j, e), 5)
  {
    var net, k := plan.net, e.relay;
    DetourIsSound(net, i, j, e);
    DirectIsSound(plan, i, k);
    DirectIsSound(plan, k, j);
    ThroughIsSound(plan, i, k);
    ThroughIsSound(plan, k, j);
    JoinAllIsSound(net, i, k, j, Through(plan, i, k), 3, Direct(plan, k, j), 2);
    JoinAllIsSound(net, i, k, j, Direct(plan, i, k), 2, Through(plan, k, j), 3);
    JoinAllIsSound(net, i, k, j, Through(plan, i, k), 3, Through(plan, k, j), 3);
  }

  lemma {:induction false} ConcatIsSound(net: Net, i: nat, j: nat, parts: seq<seq<Leg>>, most: nat)
    requires Valid(net)
    requires forall u :: 0 <= u < |parts| ==> SoundLegs(net, i, j, parts[u], most)
    ensures SoundLegs(net, i, j, Concat(parts), most)
  {
    if parts != [] {
      ConcatIsSound(net, i, j, parts[..|parts| - 1], most);
    }
  }

  // ----- the entry of a pair -----

  function DirectOffer(plan: Plan, i: nat, j: nat): seq<Route>
    requires Sound(plan) && i < plan.net.n && j < plan.net.n
  {
    var cost := Link(plan.net, i, j);
    if cost < COST_LIMIT then [RouteOf(plan, Leg(cost, [i, j]))] else []
  }

  /** All ways considered for a pair, in order. */
  function Detours(plan: Plan, i: nat, j: nat): (legs: seq<Leg>)
    requires Sound(plan) && i < plan.net.n && j < plan.net.n
    ensures SoundLegs(plan.net, i, j, legs, 5)
  {
    var parts := Parts(plan, i, j);
    assert forall u :: 0 <= u < |parts| ==> SoundLegs(plan.net, i, j, parts[u], 5) by {
      forall u | 0 <= u < |parts| ensures SoundLegs(plan.net, i, j, parts[u], 5) {
        DetoursViaAreSound(plan, i, j, plan.indirect[i][j][u]);
      }
    }
    ConcatIsSound(plan.net, i, j, parts, 5);
    Concat(parts)
  }

  function Offers(plan: Plan, i: nat, j: nat): seq<Route>
    requires Sound(plan) && i < plan.net.n && j < plan.net.n
  {
    DirectOffer(plan, i, j) + Cheaper(plan, Link(plan.net, i, j), Detours(plan, i, j))
  }

  /** The routes stored for a pair. */
  function Entry(plan: Plan, i: nat, j: nat): seq<Route>
    requires Sound(plan) && i < plan.net.n && j < plan.net.n
  {
    AllAdded(Offers(plan, i, j))
  }

  lemma {:induction false} CheaperAre(plan: Plan, direct: nat, legs: seq<Leg>, route: Route)
    ensures route in Cheaper(plan, direct, legs)
       <==> exists u :: 0 <= u < |legs| && legs[u].cost < direct && route == RouteOf(plan, legs[u])
  {
    if legs != [] {
      var front := legs[..|legs| - 1];
      CheaperAre(plan, direct, front, route);
      assert legs == front + [legs[|legs| - 1]];
      if u :| 0 <= u < |front| && front[u].cost < direct && route == RouteOf(plan, front[u]) {
        assert legs[u] == front[u];
      }
    }
  }

  /** The relays lead from i to j, and cost and price are those of the links and relays on the way. */
  ghost predicate Genuine(plan: Plan, i: nat, j: nat, route: Route)
    requires Sound(plan) && i < plan.net.n && j < plan.net.n
  {
    && SoundLeg(plan.net, i, j, Leg(route.cost, route.relays))
    && |route.relays| <= 5
    && route == RouteOf(plan, Leg(route.cost, route.relays))
    && (route.relays == [i, j] || route.cost < Link(plan.net, i, j))
  }

  lemma OffersAreGenuine(plan: Plan, i: nat, j: nat, route: Route)
    requires Sound(plan) && i < plan.net.n && j < plan.net.n && route in Offers(plan, i, j)
    ensures Genuine(plan, i, j, route)
  {
    if route in DirectOffer(plan, i, j) {
      DirectIsSound(plan, i, j);
      assert SoundLeg(plan.net, i, j, Direct(plan, i, j)[0]);
    } else {
      CheaperAre(plan, Link(plan.net, i, j), Detours(plan, i, j), route);
    }
  }

  /** Every stored route runs from i to j over at most three relays in between, costs exactly what its
      links cost, and beats the direct link unless it is the direct link; the routes are loop-free,
      sorted by cost, told apart by their hashes, and at most sixteen. */
  lemma EntryIsSound(plan: Plan, i: nat, j: nat, u: nat)
    requires Sound(plan) && i < plan.net.n && j < plan.net.n && u < |Entry(plan, i, j)|
    ensures Table(Entry(plan, i, j))
    ensures Genuine(plan, i, j, Entry(plan, i, j)[u])
  {
    AllAddedIsTable(Offers(plan, i, j));
    AllAddedWereOffered(Offers(plan, i, j), u);
    OffersAreGenuine(plan, i, j, Entry(plan, i, j)[u]);
  }

  /** The sum of a function over a route of two to five relays. */
  ghost predicate SumsPrices(price: seq<nat>, r: seq<nat>, total: nat) {
    && 2 <= |r| <= 5 && (forall k :: 0 <= k < |r| ==> r[k] < |price|)
    && total == price[r[0]] + price[r[1]]
                + (if |r| > 2 then price[r[2]] else 0)
                + (if |r| > 3 then price[r[3]] else 0)
                + (if |r| > 4 then price[r[4]] else 0)
  }

  ghost predicate SumsLinks(net: Net, r: seq<nat>, total: nat)
    requires Valid(net)
  {
    && 2 <= |r| <= 5 && (forall k :: 0 <= k < |r| ==> r[k] < net.n)
    && total == Link(net, r[0], r[1])
                + (if |r| > 2 then Link(net, r[1], r[2]) else 0)
                + (if |r| > 3 then Link(net, r[2], r[3]) else 0)
                + (if |r| > 4 then Link(net, r[3], r[4]) else 0)
  }

  lemma PathPriceSums(net: Net, r: seq<nat>)
    requires |net.price| == net.n && 2 <= |r| <= 5 && Relays(net, r)
    ensures SumsPrices(net.price, r, PathPrice(net, r))
  {
    assert PathPrice(net, r) == net.price[r[0]] + PathPrice(net, r[1..]);
    assert PathPrice(net, r[1..]) == net.price[r[1]] + PathPrice(net, r[2..]) by {
      assert r[1..][1..] == r[2..];
    }
    PathPriceTail(net, r, 2);
  }

  /** What the relays from place `k` on add. */
  lemma {:induction false} PathPriceTail(net: Net, r: seq<nat>, k: nat)
    requires |net.price| == net.n && k <= |r| <= 5 && Relays(net, r)
    ensures PathPrice(net, r[k..]) == if k < |r| then net.price[r[k]] + PathPrice(net, r[k + 1..]) else 0
    ensures k + 1 < |r| ==>
      PathPrice(net, r[k + 1..]) == net.price[r[k + 1]] + PathPrice(net, r[k + 2..])
    ensures k + 2 < |r| ==>
      PathPrice(net, r[k + 2..]) == net.price[r[k + 2]] + PathPrice(net, r[k + 3..])
    ensures PathPrice(net, r[|r|..]) == 0
  {
    if k < |r| {
      assert r[k..][1..] == r[k + 1..];
      if k + 1 < |r| {
        assert r[k + 1..][1..] == r[k + 2..];
        if k + 2 < |r| {
          assert r[k + 2..][1..] == r[k + 3..];
        }
      }
    }
  }

  lemma PathCostStep(net: Net, r: seq<nat>, k: nat)
    requires Valid(net) && Relays(net, r) && k < |r|
    ensures PathCost(net, r[k..]) ==
      if k + 1 < |r| then Link(net, r[k], r[k + 1]) + PathCost(net, r[k + 1..]) else 0
  {
    if k + 1 < |r| {
      assert r[k..][1..] == r[k + 1..];
    }
  }

  lemma PathCostSums(net: Net, r: seq<nat>)
    requires Valid(net) && 2 <= |r| <= 5 && Relays(net, r)
    ensures SumsLinks(net, r, PathCost(net, r))
  {
    assert r[0..] == r;
    PathCostStep(net, r, 0);
    PathCostStep(net, r, 1);
    if |r| > 2 {
      PathCostStep(net, r, 2);
    }
    if |r| > 3 {
      PathCostStep(net, r, 3);
    }
    if |r| > 4 {
      PathCostStep(net, r, 4);
    }
  }

  /** Every stored route, in the terms of the net alone: it leads from i to j, costs the sum of its links,
      which is below 255 and below the direct link unless it is that link, and its price is the sum of
      the prices of all its relays, both ends included. */
  lemma EntryAddsUp(plan: Plan, i: nat, j: nat, u: nat)
    requires Sound(plan) && i < plan.net.n && j < plan.net.n && u < |Entry(plan, i, j)|
    ensures |Entry(plan, i, j)| <= 16
    ensures var route := Entry(plan, i, j)[u];
      && 2 <= |route.relays| <= 5
      && route.relays[0] == i && route.relays[|route.relays| - 1] == j
      && SumsLinks(plan.net, route.relays, route.cost)
      && SumsPrices(plan.net.price, route.relays, route.price)
      && route.cost < 255
      && (route.relays == [i, j] || route.cost < Link(plan.net, i, j))
      && (Link(plan.net, i, j) == 255 ==> route.relays != [i, j])
      && route.hash == plan.hash(route.relays)
  {
    EntryIsSound(plan, i, j, u);
    var route := Entry(plan, i, j)[u];
    PathCostSums(plan.net, route.relays);
    PathPriceSums(plan.net, route.relays);
  }

  /** The direct route of a pair with a usable link is stored, or sixteen that are not dearer are. */
  lemma DirectIsKept(plan: Plan, i: nat, j: nat)
    requires Sound(plan) && i < plan.net.n && j < plan.net.n && i != j && Link(plan.net, i, j) < 255
    ensures var entry := Entry(plan, i, j);
      || (exists u :: 0 <= u < |entry| && entry[u].relays == [i, j])
      || (|entry| == 16 && entry[15].cost <= Link(plan.net, i, j))
  {
    var offers := Offers(plan, i, j);
    var route := RouteOf(plan, Leg(Link(plan.net, i, j), [i, j]));
    assert offers[0] == route && offers[..0] == [];
    assert Eligible(route);
    OfferIsKeptExactly(offers, 0);
    KeptStays(offers, 1, route);
    if route in Entry(plan, i, j) {
      var u :| 0 <= u < |Entry(plan, i, j)| && Entry(plan, i, j)[u] == route;
    }
  }

  // ----- what the entry does not miss -----

  lemma {:induction false} JoinAllHas(ps: seq<Leg>, qs: seq<Leg>, u: nat, v: nat)
    requires u < |ps| && v < |qs|
    ensures Join(ps[u], qs[v]) in JoinAll(ps, qs)
  {
    if u < |ps| - 1 {
      JoinAllHas(ps[..|ps| - 1], qs, u, v);
    } else {
      assert JoinEach(ps[u], qs)[v] == Join(ps[u], qs[v]);
    }
  }

  /** One side of a subdivided route: the link itself, or the way through a listed relay. */
  ghost predicate Side(plan: Plan, a: nat, b: nat, leg: Leg)
    requires Sound(plan) && a < plan.net.n && b < plan.net.n
  {
    leg in Direct(plan, a, b) || leg in Through(plan, a, b)
  }

  lemma DetoursViaHave(plan: Plan, i: nat, j: nat, e: Indirect, p: Leg, q: Leg)
    requires Sound(plan) && i < plan.net.n && j < plan.net.n && Exact(plan.net, i, j, e)
    requires Side(plan, i, e.relay, p) && Side(plan, e.relay, j, q)
    ensures Join(p, q) in DetoursVia(plan, i, j, e)
  {
    var k := e.relay;
    if p in Through(plan, i, k) {
      var u :| 0 <= u < |Through(plan, i, k)| && Through(plan, i, k)[u] == p;
      if q in Through(plan, k, j) {
        var v :| 0 <= v < |Through(plan, k, j)| && Through(plan, k, j)[v] == q;
        JoinAllHas(Through(plan, i, k), Through(plan, k, j), u, v);
      } else {
        JoinAllHas(Through(plan, i, k), Direct(plan, k, j), u, 0);
      }
    } else if q in Through(plan, k, j) {
      var v :| 0 <= v < |Through(plan, k, j)| && Through(plan, k, j)[v] == q;
      JoinAllHas(Direct(plan, i, k), Through(plan, k, j), 0, v);
    } else {
      assert Join(p, q) == Leg(e.cost, [i, k, j]);
      assert DetoursVia(plan, i, j, e)[0] == Join(p, q);
    }
  }

  lemma {:induction false} ConcatHas(parts: seq<seq<Leg>>, u: nat, leg: Leg)
    requires u < |parts| && leg in parts[u]
    ensures leg in Concat(parts)
  {
    if u < |parts| - 1 {
      ConcatHas(parts[..|parts| - 1], u, leg);
    }
  }

  /** Ways considered that beat the direct link are offered. */
  lemma DetoursAreOffered(plan: Plan, i: nat, j: nat, leg: Leg)
    requires Sound(plan) && i < plan.net.n && j < plan.net.n && leg in Detours(plan, i, j)
    requires leg.cost < Link(plan.net, i, j)
    ensures RouteOf(plan, leg) in Offers(plan, i, j)
  {
    var detours := Detours(plan, i, j);
    var at :| 0 <= at < |detours| && detours[at] == leg;
    CheaperAre(plan, Link(plan.net, i, j), detours, RouteOf(plan, leg));
  }

  lemma DetoursAreKept(plan: Plan, i: nat, j: nat, leg: Leg)
    requires Sound(plan) && i < plan.net.n && j < plan.net.n && leg in Detours(plan, i, j)
    requires leg.cost < Link(plan.net, i, j) && LoopFree(leg.relays)
    requires NoCollisions(Offers(plan, i, j))
    ensures Kept(Entry(plan, i, j), RouteOf(plan, leg))
  {
    DetoursAreOffered(plan, i, j, leg);
    OfferedIsKept(Offers(plan, i, j), RouteOf(plan, leg));
  }

  /** Take any relay listed between i and j, and on either side of it the link or the way through a
      listed relay. If the whole is loop-free and beats the direct link, it is stored, or sixteen
      routes that are not dearer are. */
  lemma EntryKeepsDetours(plan: Plan, i: nat, j: nat, u: nat, p: Leg, q: Leg)
    requires Sound(plan) && i < plan.net.n && j < plan.net.n && u < |plan.indirect[i][j]|
    requires Side(plan, i, plan.indirect[i][j][u].relay, p) && Side(plan, plan.indirect[i][j][u].relay, j, q)
    requires Join(p, q).cost < Link(plan.net, i, j) && LoopFree(Join(p, q).relays)
    requires NoCollisions(Offers(plan, i, j))
    ensures Kept(Entry(plan, i, j), RouteOf(plan, Join(p, q)))
  {
    DetoursViaHave(plan, i, j, plan.indirect[i][j][u], p, q);
    ConcatHas(Parts(plan, i, j), u, Join(p, q));
    DetoursAreKept(plan, i, j, Join(p, q));
  }

  ghost predicate TellsApart(hash: seq<nat> -> nat, routes: seq<Route>) {
    forall u, v :: 0 <= u < |routes| && 0 <= v < |routes| && hash(routes[u].relays) == hash(routes[v].relays) ==>
      routes[u].relays == routes[v].relays
  }

  /** Offers can only collide where the hash maps two different lists of relays to one value: routes
      over the same relays are the same route. */
  lemma CollisionsAreOfHash(plan: Plan, i: nat, j: nat)
    requires Sound(plan) && i < plan.net.n && j < plan.net.n
    requires TellsApart(plan.hash, Offers(plan, i, j))
    ensures NoCollisions(Offers(plan, i, j))
  {
    var offers := Offers(plan, i, j);
    forall u, v | 0 <= u < |offers| && 0 <= v < |offers| && offers[u].hash == offers[v].hash
      ensures offers[u] == offers[v]
    {
      OffersAreGenuine(plan, i, j, offers[u]);
      OffersAreGenuine(plan, i, j, offers[v]);
    }
  }

  /** Three relays, where the way from 1 to 0 through 2 costs a fifth of the link. */
  function Triangle(): Plan {
    Plan(Net(3, [100, 10, 10], [1, 1, 1], None), (relays: seq<nat>) => |relays|,
         [[[], [], []], [[Indirect(2, 20)], [], []], [[], [], []]])
  }

  lemma TriangleIsSound()
    ensures Sound(Triangle())
  {
    assert Exact(Triangle().net, 1, 0, Indirect(2, 20));
  }

  lemma TriangleDetours()
    requires Sound(Triangle())
    ensures Detours(Triangle(), 1, 0) == [Leg(20, [1, 2, 0])]
  {
    var plan, e := Triangle(), Indirect(2, 20);
    var ik := Direct(plan, 1, 2);
    assert JoinAll(ik, []) == JoinAll(ik[..0], []) + JoinEach(ik[0], []);
    var parts := Parts(plan, 1, 0);
    assert parts == [DetoursVia(plan, 1, 0, e)];
    assert Concat(parts) == Concat(parts[..0]) + parts[0];
  }

  lemma CheaperOne(plan: Plan, direct: nat, leg: Leg)
    requires leg.cost < direct
    ensures Cheaper(plan, direct, [leg]) == [RouteOf(plan, leg)]
  {
    assert [leg][..0] == [];
  }

  lemma TriangleOffers()
    requires Sound(Triangle())
    ensures Offers(Triangle(), 1, 0)
         == [RouteOf(Triangle(), Leg(100, [1, 0]))] + [RouteOf(Triangle(), Leg(20, [1, 2, 0]))]
  {
    TriangleDetours();
    CheaperOne(Triangle(), 100, Leg(20, [1, 2, 0]));
  }

  lemma SecondIsKept(a: Route, b: Route)
    requires a.hash != b.hash && Eligible(b)
    ensures NoCollisions([a] + [b]) && Kept(AllAdded([a] + [b]), b)
  {
    assert NoCollisions([a] + [b]);
    OfferedIsKept([a] + [b], b);
  }

  lemma ThreeAreLoopFree(a: nat, b: nat, c: nat)
    requires a != b && b != c && a != c
    ensures LoopFree([a, b, c])
  {
  }

  /** The conditions of the theorem can be met: here the detour is kept. */
  lemma TriangleKeepsDetour()
    ensures Sound(Triangle()) && NoCollisions(Offers(Triangle(), 1, 0))
    ensures Kept(Entry(Triangle(), 1, 0), RouteOf(Triangle(), Leg(20, [1, 2, 0])))
  {
    TriangleIsSound();
    TriangleOffers();
    var first, detour := RouteOf(Triangle(), Leg(100, [1, 0])), RouteOf(Triangle(), Leg(20, [1, 2, 0]));
    ThreeAreLoopFree(1, 2, 0);
    SecondIsKept(first, detour);
  }

  // ----- with the relays between chosen from the net -----

  function IndirectsOf(net: Net, i: nat, j: nat): seq<Indirect>
    requires Valid(net) && i < net.n && j < net.n
  {
    if i == j || !Wanted(net, i, j) then []
    else Retained(Candidates(Row(net, i), Row(net, j), i, j, net.n))
  }

  lemma IndirectsAreExact(net: Net, i: nat, j: nat, e: Indirect)
    requires Valid(net) && i < net.n && j < net.n && e in IndirectsOf(net, i, j)
    ensures Exact(net, i, j, e)
    ensures e.relay != i && e.relay != j && e.cost < Link(net, i, j)
  {
    var candidates := Candidates(Row(net, i), Row(net, j), i, j, net.n);
    RetainedAreCheapest(candidates, e, e);
    CandidatesAre(Row(net, i), Row(net, j), i, j, net.n, e);
    LinkIsSymmetric(net, e.relay, j);
  }

  ghost predicate Planned(plan: Plan) {
    && Sound(plan)
    && (forall a, b {:trigger IndirectsOf(plan.net, a, b)} :: 0 <= a < plan.net.n && 0 <= b < plan.net.n ==>
          plan.indirect[a][b] == IndirectsOf(plan.net, a, b))
  }

  /** A plan whose rows list the relays between as they are chosen from the net. */
  lemma RowsArePlanned(plan: Plan)
    requires Valid(plan.net) && |plan.indirect| == plan.net.n
    requires forall a :: 0 <= a < plan.net.n ==> plan.indirect[a] == IndirectsFrom(plan.net, a)
    ensures Planned(plan)
  {
    forall a, b | 0 <= a < plan.net.n && 0 <= b < plan.net.n
      ensures plan.indirect[a][b] == IndirectsOf(plan.net, a, b)
    {
      assert plan.indirect[a] == IndirectsFrom(plan.net, a);
    }
    forall a, b, u | 0 <= a < plan.net.n && 0 <= b < plan.net.n && 0 <= u < |plan.indirect[a][b]|
      ensures Exact(plan.net, a, b, plan.indirect[a][b][u])
    {
      assert plan.indirect[a][b] == IndirectsOf(plan.net, a, b);
      IndirectsAreExact(plan.net, a, b, plan.indirect[a][b][u]);
    }
  }

  /** The row that phase one makes for relay `a`. */
  function IndirectsFrom(net: Net, a: nat): (row: seq<seq<Indirect>>)
    requires Valid(net) && a < net.n
    ensures |row| == net.n && forall b :: 0 <= b < net.n ==> row[b] == IndirectsOf(net, a, b)
  {
    seq(net.n, b requires 0 <= b < net.n => IndirectsOf(net, a, b))
  }

  /** Some listed relay is at least as good as any relay that helps. */
  lemma BestIndirect(net: Net, i: nat, j: nat, k: nat) returns (u: nat)
    requires Valid(net) && i < net.n && j < net.n && k < net.n && i != j && Wanted(net, i, j)
    requires Link(net, i, k) + Link(net, k, j) < Link(net, i, j)
    ensures u < |IndirectsOf(net, i, j)|
    ensures IndirectsOf(net, i, j)[u].cost <= Link(net, i, k) + Link(net, k, j)
  {
    var listed := IndirectsOf(net, i, j);
    var candidates := Candidates(Row(net, i), Row(net, j), i, j, net.n);
    var c := Indirect(k, Link(net, i, k) + Link(net, j, k));
    LinkIsSymmetric(net, j, k);
    CandidatesAre(Row(net, i), Row(net, j), i, j, net.n, c);
    if c in listed {
      u :| 0 <= u < |listed| && listed[u] == c;
    } else {
      u := 0;
      RetainedCount(candidates);
      RetainedAreCheapest(candidates, listed[0], c);
    }
  }

  lemma DetoursViaStart(plan: Plan, i: nat, j: nat, e: Indirect)
    requires Sound(plan) && i < plan.net.n && j < plan.net.n && e.relay < plan.net.n
    ensures Leg(e.cost, [i, e.relay, j]) in DetoursVia(plan, i, j, e)
  {
    assert DetoursVia(plan, i, j, e)[0] == Leg(e.cost, [i, e.relay, j]);
  }

  lemma ListedIsDetour(plan: Plan, i: nat, j: nat, u: nat, e: Indirect)
    requires Sound(plan) && i < plan.net.n && j < plan.net.n && u < |plan.indirect[i][j]|
    requires e == plan.indirect[i][j][u]
    ensures Leg(e.cost, [i, e.relay, j]) in Detours(plan, i, j)
  {
    DetoursViaStart(plan, i, j, e);
    ConcatHas(Parts(plan, i, j), u, Leg(e.cost, [i, e.relay, j]));
  }

  lemma ListedIsKept(plan: Plan, i: nat, j: nat, u: nat, e: Indirect)
    requires Sound(plan) && i < plan.net.n && j < plan.net.n && i != j && u < |plan.indirect[i][j]|
    requires e.relay != i && e.relay != j && e.cost < Link(plan.net, i, j)
    requires NoCollisions(Offers(plan, i, j))
    requires e == plan.indirect[i][j][u]
    ensures Kept(Entry(plan, i, j), RouteOf(plan, Leg(e.cost, [i, e.relay, j])))
  {
    ListedIsDetour(plan, i, j, u, e);
    ThreeAreLoopFree(i, e.relay, j);
    DetoursAreKept(plan, i, j, Leg(e.cost, [i, e.relay, j]));
  }

  /** The first route stored for a pair worth subdividing costs no more than going through any one
      relay, listed or not. */
  lemma FirstRouteBeatsDetours(plan: Plan, i: nat, j: nat, k: nat)
    requires Planned(plan)
    requires i < plan.net.n && j < plan.net.n && k < plan.net.n && i != j
    requires plan.net.destination.None? || plan.net.destination.value[i] || plan.net.destination.value[j]
    requires Link(plan.net, i, k) + Link(plan.net, k, j) < Link(plan.net, i, j)
    requires NoCollisions(Offers(plan, i, j))
    ensures Entry(plan, i, j) != []
    ensures Entry(plan, i, j)[0].cost <= Link(plan.net, i, k) + Link(plan.net, k, j)
  {
    var u := BestIndirect(plan.net, i, j, k);
    var e := plan.indirect[i][j][u];
    IndirectsAreExact(plan.net, i, j, e);
    ListedIsKept(plan, i, j, u, e);
    AllAddedIsTable(Offers(plan, i, j));
    KeptBoundsFirst(Entry(plan, i, j), RouteOf(plan, Leg(e.cost, [i, e.relay, j])));
  }

  /** A pair of which neither relay is a destination keeps the direct route only. */
  lemma UnwantedIsDirect(plan: Plan, i: nat, j: nat, u: nat)
    requires Planned(plan) && i < plan.net.n && j < plan.net.n && u < |Entry(plan, i, j)|
    requires plan.net.destination.Some? && !plan.net.destination.value[i] && !plan.net.destination.value[j]
    ensures Entry(plan, i, j)[u].relays == [i, j]
  {
    assert plan.indirect[i][j] == IndirectsOf(plan.net, i, j) == [];
    assert Parts(plan, i, j) == [];
    AllAddedWereOffered(Offers(plan, i, j), u);
  }
}
