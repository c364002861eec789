/** The loops of the optimizer, in place: the rows of indirect relays, then the rows of entries. */
module OptimizeLoops {
  import opened RelayNet
  import opened Indirects
  import opened RouteManager
  import opened Optimize
  import opened OptimizeWorkers

  /** The table after a series of ways, each offered if it is cheaper than the direct link. */
  function After(plan: Plan, direct: nat, routes: seq<Route>, legs: seq<Leg>): seq<Route> {
    if legs == [] then routes
    else
      var leg, before := legs[|legs| - 1], After(plan, direct, routes, legs[..|legs| - 1]);
      if leg.cost < direct then Added(before, RouteOf(plan, leg)) else before
  }

  lemma {:induction false} AfterBoth(plan: Plan, direct: nat, routes: seq<Route>, a: seq<Leg>, b: seq<Leg>)
    ensures After(plan, direct, After(plan, direct, routes, a), b) == After(plan, direct, routes, a + b)
  {
    if b == [] {
      assert a + b == a;
    } else {
      AfterBoth(plan, direct, routes, a, b[..|b| - 1]);
      assert (a + b)[..|a + b| - 1] == a + b[..|b| - 1];
    }
  }

  lemma {:induction false} AfterOffers(plan: Plan, direct: nat, first: seq<Route>, legs: seq<Leg>)
    ensures After(plan, direct, AllAdded(first), legs) == AllAdded(first + Cheaper(plan, direct, legs))
  {
    if legs == [] {
      assert first + Cheaper(plan, direct, legs) == first;
    } else {
      var front, leg := legs[..|legs| - 1], legs[|legs| - 1];
      AfterOffers(plan, direct, first, front);
      var before, after := first + Cheaper(plan, direct, front), first + Cheaper(plan, direct, legs);
      if leg.cost < direct {
        assert after == before + [RouteOf(plan, leg)];
        assert after[..|before|] == before;
      } else {
        assert after == before;
      }
    }
  }

  method OfferLeg(plan: Plan, manager: Manager, direct: nat, leg: Leg)
    requires manager.Valid() && manager.hashOf == plan.hash
    modifies manager`numRoutes, manager.slots
    ensures manager.Valid()
    ensures manager.Contents() == After(plan, direct, old(manager.Contents()), [leg])
  {
    if leg.cost < direct {
      manager.AddRoute(leg.cost, PathPrice(plan.net, leg.relays), leg.relays);
    }
  }

  method OfferEach(plan: Plan, manager: Manager, direct: nat, p: Leg, qs: seq<Leg>)
    requires manager.Valid() && manager.hashOf == plan.hash
    modifies manager`numRoutes, manager.slots
    ensures manager.Valid()
    ensures manager.Contents() == After(plan, direct, old(manager.Contents()), JoinEach(p, qs))
  {
    ghost var before, legs := manager.Contents(), JoinEach(p, qs);
    for v := 0 to |qs|
      invariant manager.Valid()
      invariant manager.Contents() == After(plan, direct, before, legs[..v])
    {
      OfferLeg(plan, manager, direct, Join(p, qs[v]));
      AfterBoth(plan, direct, before, legs[..v], [legs[v]]);
      assert legs[..v] + [legs[v]] == legs[..v + 1];
    }
    assert legs[..|qs|] == legs;
  }

  /** Offers each way of the first list continued by each way of the second. */
  method OfferJoined(plan: Plan, manager: Manager, direct: nat, ps: seq<Leg>, qs: seq<Leg>)
    requires manager.Valid() && manager.hashOf == plan.hash
    modifies manager`numRoutes, manager.slots
    ensures manager.Valid()
    ensures manager.Contents() == After(plan, direct, old(manager.Contents()), JoinAll(ps, qs))
  {
    ghost var before := manager.Contents();
    for u := 0 to |ps|
      invariant manager.Valid()
      invariant manager.Contents() == After(plan, direct, before, JoinAll(ps[..u], qs))
    {
      OfferEach(plan, manager, direct, ps[u], qs);
      AfterBoth(plan, direct, before, JoinAll(ps[..u], qs), JoinEach(ps[u], qs));
      assert ps[..u + 1][..u] == ps[..u];
    }
    assert ps[..|ps|] == ps;
  }

  /** Offers all ways through one listed relay. */
  method OfferVia(plan: Plan, manager: Manager, i: nat, j: nat, e: Indirect)
    requires Sound(plan) && i < plan.net.n && j < plan.net.n && e.relay < plan.net.n
    requires manager.Valid() && manager.hashOf == plan.hash
    modifies manager`numRoutes, manager.slots
    ensures manager.Valid()
    ensures manager.Contents()
         == After(plan, Link(plan.net, i, j), old(manager.Contents()), DetoursVia(plan, i, j, e))
  {
    var k, direct := e.relay, Link(plan.net, i, j);
    var ik, kj := Direct(plan, i, k), Direct(plan, k, j);
    var ixk, kyj := Through(plan, i, k), Through(plan, k, j);
    ghost var before, one := manager.Contents(), [Leg(e.cost, [i, k, j])];
    OfferLeg(plan, manager, direct, Leg(e.cost, [i, k, j]));
    OfferJoined(plan, manager, direct, ixk, kj);
    AfterBoth(plan, direct, before, one, JoinAll(ixk, kj));
    OfferJoined(plan, manager, direct, ik, kyj);
    AfterBoth(plan, direct, before, one + JoinAll(ixk, kj), JoinAll(ik, kyj));
    OfferJoined(plan, manager, direct, ixk, kyj);
    AfterBoth(plan, direct, before, one + JoinAll(ixk, kj) + JoinAll(ik, kyj), JoinAll(ixk, kyj));
  }

  method OfferDirect(plan: Plan, manager: Manager, i: nat, j: nat)
    requires Sound(plan) && i < plan.net.n && j < plan.net.n
    requires manager.Valid() && manager.hashOf == plan.hash && manager.Contents() == []
    modifies manager`numRoutes, manager.slots
    ensures manager.Valid()
    ensures manager.Contents() == AllAdded(DirectOffer(plan, i, j))
  {
    var direct := Link(plan.net, i, j);
    if direct < COST_LIMIT {
      manager.AddRoute(direct, PathPrice(plan.net, [i, j]), [i, j]);
    }
  }

  method OfferDetours(plan: Plan, manager: Manager, i: nat, j: nat)
    requires Sound(plan) && i < plan.net.n && j < plan.net.n
    requires manager.Valid() && manager.hashOf == plan.hash
    modifies manager`numRoutes, manager.slots
    ensures manager.Valid()
    ensures manager.Contents() == After(plan, Link(plan.net, i, j), old(manager.Contents()), Detours(plan, i, j))
  {
    var direct := Link(plan.net, i, j);
    ghost var before, parts := manager.Contents(), Parts(plan, i, j);
    for u := 0 to |plan.indirect[i][j]|
      invariant manager.Valid()
      invariant manager.Contents() == After(plan, direct, before, Concat(parts[..u]))
    {
      OfferVia(plan, manager, i, j, plan.indirect[i][j][u]);
      AfterBoth(plan, direct, before, Concat(parts[..u]), parts[u]);
      assert parts[..u + 1][..u] == parts[..u];
    }
    assert parts[..|parts|] == parts;
  }

  method OptimizePair(plan: Plan, i: nat, j: nat) returns (routes: seq<Route>)
    requires Planned(plan) && i < plan.net.n && j < plan.net.n
    ensures routes == Entry(plan, i, j)
  {
    var manager := new Manager(plan.hash);
    OfferDirect(plan, manager, i, j);
    AfterOffers(plan, Link(plan.net, i, j), DirectOffer(plan, i, j), Detours(plan, i, j));
    if Wanted(plan.net, i, j) {
      OfferDetours(plan, manager, i, j);
    } else {
      assert IndirectsOf(plan.net, i, j) == [];
      assert Parts(plan, i, j) == [];
    }
    routes := manager.slots[..manager.numRoutes];
  }

  // ----- rows -----

  /** The relays between one pair. */
  method PairIndirects(net: Net, square: seq<nat>, i: nat, j: nat, working: array<Indirect>, best: array<Indirect>)
      returns (indirects: seq<Indirect>)
    requires Valid(net) && i < net.n && j < net.n && Unfolded(net, square)
    requires working.Length == net.n && best.Length == MAX_INDIRECTS && working != best
    modifies working, best
    ensures indirects == IndirectsOf(net, i, j)
  {
    if i == j || !Wanted(net, i, j) {
      return [];
    }
    RowIsSlice(net, square, i);
    RowIsSlice(net, square, j);
    var rowI := square[i * net.n..i * net.n + net.n];
    var rowJ := square[j * net.n..j * net.n + net.n];
    indirects := FindIndirects(rowI, rowJ, i, j, working, best);
  }

  /** A row of the indirect relays, computed with scratch buffers of any contents. */
  method IndirectRow(net: Net, square: seq<nat>, i: nat, working: array<Indirect>, best: array<Indirect>)
      returns (row: seq<seq<Indirect>>)
    requires Valid(net) && i < net.n && Unfolded(net, square)
    requires working.Length == net.n && best.Length == MAX_INDIRECTS && working != best
    modifies working, best
    ensures row == IndirectsFrom(net, i)
  {
    row := [];
    ghost var whole := IndirectsFrom(net, i);
    for j := 0 to net.n
      invariant row == whole[..j]
    {
      var indirects := PairIndirects(net, square, i, j, working, best);
      row := row + [indirects];
    }
  }

  datatype RouteEntry = RouteEntry(directCost: nat, routes: seq<Route>)

  function EntryOf(plan: Plan, i: nat, j: nat): RouteEntry
    requires Sound(plan) && i < plan.net.n && j < plan.net.n
  {
    RouteEntry(Link(plan.net, i, j), Entry(plan, i, j))
  }

  /** Row i of the entries, in order. */
  ghost function EntriesOf(plan: Plan, i: nat): (row: seq<RouteEntry>)
    requires Sound(plan) && i < plan.net.n
    ensures IsRow(plan, i, row)
  {
    seq(i, j requires 0 <= j < i => EntryOf(plan, i, j))
  }

  ghost predicate IsRow(plan: Plan, i: nat, row: seq<RouteEntry>)
    requires Sound(plan) && i < plan.net.n
  {
    |row| == i && forall j {:trigger EntryOf(plan, i, j)} :: 0 <= j < i ==> row[j] == EntryOf(plan, i, j)
  }

  method PairEntry(plan: Plan, i: nat, j: nat, ghost row: seq<RouteEntry>) returns (entry: RouteEntry)
    requires Planned(plan) && j < i < plan.net.n && IsRow(plan, i, row)
    ensures entry == row[j]
  {
    TriMatrixInRange(i, j, plan.net.n);
    var routes := OptimizePair(plan, i, j);
    entry := RouteEntry(plan.net.cost[TriMatrixIndex(i, j)], routes);
    assert entry == EntryOf(plan, i, j);
  }

  /** The loop of a row: each entry is stored as soon as it is made. */
  method FillRow(plan: Plan, i: nat, entries: array<RouteEntry>, ghost base: nat, ghost row: seq<RouteEntry>)
    requires Planned(plan) && i < plan.net.n && IsRow(plan, i, row)
    requires base == TriMatrixLength(i) && base + i <= entries.Length
    modifies entries
    ensures entries[..] == old(entries[..base]) + row + old(entries[base + i..])
  {
    for j := 0 to i
      invariant forall k :: 0 <= k < base ==> entries[k] == old(entries[k])
      invariant forall k :: 0 <= k < j ==> entries[base + k] == row[k]
      invariant forall k :: base + i <= k < entries.Length ==> entries[k] == old(entries[k])
    {
      var entry := PairEntry(plan, i, j, row);
      StoreEntry(entries, i, j, entry);
    }
  }

  method StoreEntry(entries: array<RouteEntry>, i: nat, j: nat, entry: RouteEntry)
    requires j < i && TriMatrixLength(i) + i <= entries.Length
    modifies entries
    ensures forall k :: 0 <= k < entries.Length ==>
      entries[k] == if k == TriMatrixLength(i) + j then entry else old(entries[k])
  {
    TriMatrixIndexIs(i, j);
    entries[TriMatrixIndex(i, j)] := entry;
  }

  /** Filling a row fills its own stretch of the triangle, which no other row shares, and touches
      nothing else. */
  method EntryRow(plan: Plan, i: nat, entries: array<RouteEntry>)
    requires Planned(plan) && i < plan.net.n && entries.Length == TriMatrixLength(plan.net.n)
    modifies entries
    ensures TriMatrixLength(i) + i <= entries.Length
    ensures entries[..] == WriteRow(old(entries[..]), i, EntriesOf(plan, i))
  {
    StretchFits(i, plan.net.n);
    ghost var before := entries[..];
    FillRow(plan, i, entries, TriMatrixLength(i), EntriesOf(plan, i));
  }
}
