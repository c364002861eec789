/** The order in which the ways between two relays are offered; it decides ties at the sixteenth place. */
module OptimizeOrder {
  import opened Common
  import opened RelayNet
  import opened Indirects
  import opened Optimize

  lemma JoinAllLength(ps: seq<Leg>, qs: seq<Leg>)
    ensures |JoinAll(ps, qs)| == |ps| * |qs|
  {
    if ps != [] {
      JoinAllLength(ps[..|ps| - 1], qs);
      assert |ps| * |qs| == (|ps| - 1) * |qs| + |qs|;
    }
  }

  lemma RowFits(u: nat, m: nat, n: nat, v: nat)
    requires u < m && v < n
    ensures 0 <= u * n + v < m * n
  {
    TimesMonotone(u + 1, m, n);
    assert (u + 1) * n == u * n + n;
  }

  lemma {:induction false} JoinAllAt(ps: seq<Leg>, qs: seq<Leg>, u: nat, v: nat, w: nat)
    requires u < |ps| && v < |qs| && w == u * |qs| + v
    ensures w < |JoinAll(ps, qs)| && JoinAll(ps, qs)[w] == Join(ps[u], qs[v])
    decreases |ps|
  {
    JoinAllLength(ps, qs);
    RowFits(u, |ps|, |qs|, v);
    var front := ps[..|ps| - 1];
    JoinAllLength(front, qs);
    if u < |front| {
      JoinAllAt(front, qs, u, v, w);
    } else {
      assert JoinAll(ps, qs)[w] == JoinEach(ps[u], qs)[v];
    }
  }

  /** The four lists one after the other. */
  ghost predicate InTurn(all: seq<Leg>, a: seq<Leg>, b: seq<Leg>, c: seq<Leg>, d: seq<Leg>) {
    && |all| == |a| + |b| + |c| + |d|
    && (forall u :: 0 <= u < |a| ==> all[u] == a[u])
    && (forall u :: 0 <= u < |b| ==> all[|a| + u] == b[u])
    && (forall u :: 0 <= u < |c| ==> all[|a| + |b| + u] == c[u])
    && (forall u :: 0 <= u < |d| ==> all[|a| + |b| + |c| + u] == d[u])
  }

  lemma FourParts(all: seq<Leg>, a: seq<Leg>, b: seq<Leg>, c: seq<Leg>, d: seq<Leg>)
    requires all == a + b + c + d
    ensures InTurn(all, a, b, c, d)
  {
  }

  lemma ThirdInTurn(all: seq<Leg>, a: seq<Leg>, b: seq<Leg>, c: seq<Leg>, d: seq<Leg>, u: nat, at: nat)
    requires InTurn(all, a, b, c, d) && u < |c| && at == |a| + |b| + u
    ensures at < |all| && all[at] == c[u]
  {
  }

  lemma FourthInTurn(all: seq<Leg>, a: seq<Leg>, b: seq<Leg>, c: seq<Leg>, d: seq<Leg>, u: nat, at: nat)
    requires InTurn(all, a, b, c, d) && u < |d| && at == |a| + |b| + |c| + u
    ensures at < |all| && all[at] == d[u]
  {
  }

  lemma {:induction false} JoinAllWithOne(ps: seq<Leg>, q: Leg)
    ensures |JoinAll(ps, [q])| == |ps| && forall u :: 0 <= u < |ps| ==> JoinAll(ps, [q])[u] == Join(ps[u], q)
  {
    if ps != [] {
      JoinAllWithOne(ps[..|ps| - 1], q);
      assert JoinEach(ps[|ps| - 1], [q]) == [Join(ps[|ps| - 1], q)];
    }
  }

  lemma JoinOneWithAll(p: Leg, qs: seq<Leg>)
    ensures JoinAll([p], qs) == JoinEach(p, qs)
  {
    assert [p][..0] == [];
  }

  lemma JoinedRelays(a: nat, i: nat, x: nat, k: nat, b: nat, y: nat, j: nat)
    ensures Join(Leg(a, [i, x, k]), Leg(b, [k, j])) == Leg(a + b, [i, x, k, j])
    ensures Join(Leg(a, [i, k]), Leg(b, [k, y, j])) == Leg(a + b, [i, k, y, j])
    ensures Join(Leg(a, [i, x, k]), Leg(b, [k, y, j])) == Leg(a + b, [i, x, k, y, j])
  {
  }

  /** Each relay x on the first side, with the link on the second. */
  lemma FirstSubdivided(plan: Plan, i: nat, k: nat, j: nat, u: nat)
    requires Sound(plan) && i < plan.net.n && k < plan.net.n && j < plan.net.n
    ensures var xs, legs := plan.indirect[i][k], JoinAll(Through(plan, i, k), Direct(plan, k, j));
      && |legs| == |xs|
      && (u < |xs| ==> legs[u] == Leg(xs[u].cost + Link(plan.net, k, j), [i, xs[u].relay, k, j]))
  {
    JoinAllWithOne(Through(plan, i, k), Direct(plan, k, j)[0]);
    if u < |plan.indirect[i][k]| {
      JoinedRelays(plan.indirect[i][k][u].cost, i, plan.indirect[i][k][u].relay, k, Link(plan.net, k, j), 0, j);
    }
  }

  /** The link on the first side, with each relay y on the second. */
  lemma SecondSubdivided(plan: Plan, i: nat, k: nat, j: nat, v: nat)
    requires Sound(plan) && i < plan.net.n && k < plan.net.n && j < plan.net.n
    ensures var ys, legs := plan.indirect[k][j], JoinAll(Direct(plan, i, k), Through(plan, k, j));
      && |legs| == |ys|
      && (v < |ys| ==> legs[v] == Leg(Link(plan.net, i, k) + ys[v].cost, [i, k, ys[v].relay, j]))
  {
    JoinOneWithAll(Direct(plan, i, k)[0], Through(plan, k, j));
    if v < |plan.indirect[k][j]| {
      JoinedRelays(Link(plan.net, i, k), i, 0, k, plan.indirect[k][j][v].cost, plan.indirect[k][j][v].relay, j);
    }
  }

  /** Each relay x on the first side, with each relay y on the second. */
  lemma BothSubdivided(plan: Plan, i: nat, k: nat, j: nat, u: nat, v: nat, w: nat)
    requires Sound(plan) && i < plan.net.n && k < plan.net.n && j < plan.net.n
    requires u < |plan.indirect[i][k]| && v < |plan.indirect[k][j]| && w == u * |plan.indirect[k][j]| + v
    ensures var xs, ys := plan.indirect[i][k], plan.indirect[k][j];
      var legs := JoinAll(Through(plan, i, k), Through(plan, k, j));
      w < |legs| && legs[w] == Leg(xs[u].cost + ys[v].cost, [i, xs[u].relay, k, ys[v].relay, j])
  {
    var x, y := plan.indirect[i][k][u], plan.indirect[k][j][v];
    var ps, qs := Through(plan, i, k), Through(plan, k, j);
    assert ps[u] == Leg(x.cost, [i, x.relay, k]) && qs[v] == Leg(y.cost, [k, y.relay, j]);
    JoinAllAt(ps, qs, u, v, w);
    JoinedRelays(x.cost, i, x.relay, k, y.cost, y.relay, j);
  }

  lemma FourStretches(plan: Plan, i: nat, k: nat, j: nat, e: Indirect)
    requires Sound(plan) && i < plan.net.n && j < plan.net.n && k < plan.net.n && e.relay == k
    ensures InTurn(DetoursVia(plan, i, j, e), [Leg(e.cost, [i, k, j])],
                   JoinAll(Through(plan, i, k), Direct(plan, k, j)),
                   JoinAll(Direct(plan, i, k), Through(plan, k, j)),
                   JoinAll(Through(plan, i, k), Through(plan, k, j)))
  {
    FourParts(DetoursVia(plan, i, j, e), [Leg(e.cost, [i, k, j])],
              JoinAll(Through(plan, i, k), Direct(plan, k, j)),
              JoinAll(Direct(plan, i, k), Through(plan, k, j)),
              JoinAll(Through(plan, i, k), Through(plan, k, j)));
  }

  lemma StretchSizes(plan: Plan, i: nat, k: nat, j: nat)
    requires Sound(plan) && i < plan.net.n && k < plan.net.n && j < plan.net.n
    ensures |JoinAll(Through(plan, i, k), Direct(plan, k, j))| == |plan.indirect[i][k]|
    ensures |JoinAll(Direct(plan, i, k), Through(plan, k, j))| == |plan.indirect[k][j]|
  {
    JoinAllWithOne(Through(plan, i, k), Direct(plan, k, j)[0]);
    JoinOneWithAll(Direct(plan, i, k)[0], Through(plan, k, j));
  }

  /** The first ways through a relay k: i-k-j, and then for each relay x listed between i and k, i-x-k-j. */
  lemma FirstDetours(plan: Plan, i: nat, k: nat, j: nat, e: Indirect, u: nat)
    requires Sound(plan) && i < plan.net.n && j < plan.net.n && k < plan.net.n && e.relay == k
    requires u < |plan.indirect[i][k]|
    ensures var x, legs := plan.indirect[i][k][u], DetoursVia(plan, i, j, e);
      && 1 + u < |legs|
      && legs[0] == Leg(e.cost, [i, k, j])
      && legs[1 + u] == Leg(x.cost + Link(plan.net, k, j), [i, x.relay, k, j])
  {
    FourStretches(plan, i, k, j, e);
    FirstSubdivided(plan, i, k, j, u);
  }

  /** After them, for each relay y listed between k and j, i-k-y-j. */
  lemma MiddleDetours(plan: Plan, i: nat, k: nat, j: nat, e: Indirect, v: nat)
    requires Sound(plan) && i < plan.net.n && j < plan.net.n && k < plan.net.n && e.relay == k
    requires v < |plan.indirect[k][j]|
    ensures var y, legs, at := plan.indirect[k][j][v], DetoursVia(plan, i, j, e), 1 + |plan.indirect[i][k]| + v;
      at < |legs| && legs[at] == Leg(Link(plan.net, i, k) + y.cost, [i, k, y.relay, j])
  {
    var a, b := JoinAll(Through(plan, i, k), Direct(plan, k, j)), JoinAll(Direct(plan, i, k), Through(plan, k, j));
    FourStretches(plan, i, k, j, e);
    StretchSizes(plan, i, k, j);
    ThirdInTurn(DetoursVia(plan, i, j, e), [Leg(e.cost, [i, k, j])], a, b,
                JoinAll(Through(plan, i, k), Through(plan, k, j)), v, 1 + |plan.indirect[i][k]| + v);
    SecondSubdivided(plan, i, k, j, v);
  }

  /** At the end, for each x and then each y, i-x-k-y-j. */
  lemma LastDetours(plan: Plan, i: nat, k: nat, j: nat, e: Indirect, u: nat, v: nat, w: nat)
    requires Sound(plan) && i < plan.net.n && j < plan.net.n && k < plan.net.n && e.relay == k
    requires u < |plan.indirect[i][k]| && v < |plan.indirect[k][j]| && w == u * |plan.indirect[k][j]| + v
    ensures var x, y, legs := plan.indirect[i][k][u], plan.indirect[k][j][v], DetoursVia(plan, i, j, e);
      var at := 1 + |plan.indirect[i][k]| + |plan.indirect[k][j]| + w;
      at < |legs| && legs[at] == Leg(x.cost + y.cost, [i, x.relay, k, y.relay, j])
  {
    var a, b := JoinAll(Through(plan, i, k), Direct(plan, k, j)), JoinAll(Direct(plan, i, k), Through(plan, k, j));
    FourStretches(plan, i, k, j, e);
    StretchSizes(plan, i, k, j);
    BothSubdivided(plan, i, k, j, u, v, w);
    FourthInTurn(DetoursVia(plan, i, j, e), [Leg(e.cost, [i, k, j])], a, b,
                 JoinAll(Through(plan, i, k), Through(plan, k, j)), w, 1 + |a| + |b| + w);
  }

  /** How many ways the relays listed before place `u` give. */
  function WaysBefore(parts: seq<seq<Leg>>, u: nat): nat
    requires u <= |parts|
  {
    if u == 0 then 0 else WaysBefore(parts, u - 1) + |parts[u - 1]|
  }

  lemma {:induction false} WaysBeforePrefix(parts: seq<seq<Leg>>, n: nat, u: nat)
    requires u <= n <= |parts|
    ensures WaysBefore(parts[..n], u) == WaysBefore(parts, u)
  {
    if u > 0 {
      WaysBeforePrefix(parts, n, u - 1);
    }
  }

  lemma {:induction false} ConcatLength(parts: seq<seq<Leg>>)
    ensures |Concat(parts)| == WaysBefore(parts, |parts|)
  {
    if parts != [] {
      ConcatLength(parts[..|parts| - 1]);
      WaysBeforePrefix(parts, |parts| - 1, |parts| - 1);
    }
  }

  lemma {:induction false} ConcatAt(parts: seq<seq<Leg>>, u: nat, w: nat)
    requires u < |parts| && w < |parts[u]|
    ensures WaysBefore(parts, u) + w < |Concat(parts)| && Concat(parts)[WaysBefore(parts, u) + w] == parts[u][w]
    decreases |parts|
  {
    var front := parts[..|parts| - 1];
    ConcatLength(front);
    WaysBeforePrefix(parts, |front|, |front|);
    if u < |front| {
      ConcatAt(front, u, w);
      WaysBeforePrefix(parts, |front|, u);
    }
  }

  lemma DetoursAreParts(plan: Plan, i: nat, j: nat)
    requires Sound(plan) && i < plan.net.n && j < plan.net.n
    ensures Detours(plan, i, j) == Concat(Parts(plan, i, j))
  {
  }

  /** The relays listed between i and j are gone through in the order of the list; `parts` are the ways
      through each. */
  lemma DetoursByList(plan: Plan, i: nat, j: nat, parts: seq<seq<Leg>>, u: nat, w: nat)
    requires Sound(plan) && i < plan.net.n && j < plan.net.n && parts == Parts(plan, i, j)
    requires u < |parts| && w < |parts[u]|
    ensures WaysBefore(parts, u) + w < |Detours(plan, i, j)|
    ensures Detours(plan, i, j)[WaysBefore(parts, u) + w] == parts[u][w]
  {
    DetoursAreParts(plan, i, j);
    ConcatAt(parts, u, w);
  }
}
