/** The relays through which a pair of relays is best connected. */
module Indirects {
  import opened StableSort

  const MAX_INDIRECTS: nat := 8

  datatype Indirect = Indirect(relay: nat, cost: nat)

  function CostKey(): Indirect -> int {
    (x: Indirect) => x.cost
  }

  predicate Helps(rowI: seq<nat>, rowJ: seq<nat>, i: nat, j: nat, x: nat)
    requires |rowI| == |rowJ| && j < |rowI| && x < |rowI|
  {
    x != i && x != j && rowI[x] + rowJ[x] < rowI[j]
  }

  /** The relays below `n` that make the way from `i` to `j` cheaper, in relay order. */
  function Candidates(rowI: seq<nat>, rowJ: seq<nat>, i: nat, j: nat, n: nat): seq<Indirect>
    requires |rowI| == |rowJ| && j < |rowI| && n <= |rowI|
  {
    if n == 0 then []
    else
      Candidates(rowI, rowJ, i, j, n - 1)
      + (if Helps(rowI, rowJ, i, j, n - 1) then [Indirect(n - 1, rowI[n - 1] + rowJ[n - 1])] else [])
  }

  /** All candidates in relay order if there are few; else the cheapest, as a stable sort ranks them. */
  function Retained(candidates: seq<Indirect>): seq<Indirect> {
    if |candidates| <= MAX_INDIRECTS then candidates
    else SortPermutes(candidates, CostKey()); Sort(candidates, CostKey())[..MAX_INDIRECTS]
  }

  // ----- what is retained -----

  lemma {:induction false} CandidatesAre(rowI: seq<nat>, rowJ: seq<nat>, i: nat, j: nat, n: nat, c: Indirect)
    requires |rowI| == |rowJ| && j < |rowI| && n <= |rowI|
    ensures c in Candidates(rowI, rowJ, i, j, n)
       <==> && c.relay < n && c.relay != i && c.relay != j
            && c.cost == rowI[c.relay] + rowJ[c.relay] < rowI[j]
    ensures |Candidates(rowI, rowJ, i, j, n)| <= n
  {
    if n > 0 {
      CandidatesAre(rowI, rowJ, i, j, n - 1, c);
    }
  }

  /** The candidates come in the order of the relays. */
  lemma {:induction false} CandidatesAscend(rowI: seq<nat>, rowJ: seq<nat>, i: nat, j: nat, n: nat)
    requires |rowI| == |rowJ| && j < |rowI| && n <= |rowI|
    ensures var c := Candidates(rowI, rowJ, i, j, n);
      forall a, b :: 0 <= a < b < |c| ==> c[a].relay < c[b].relay
  {
    if n > 0 {
      var front := Candidates(rowI, rowJ, i, j, n - 1);
      CandidatesAscend(rowI, rowJ, i, j, n - 1);
      var all := Candidates(rowI, rowJ, i, j, n);
      forall a, b | 0 <= a < b < |all| ensures all[a].relay < all[b].relay {
        assert all[a] == front[a] && front[a] in front;
        CandidatesAre(rowI, rowJ, i, j, n - 1, front[a]);
      }
    }
  }

  ghost predicate Always(a: Indirect, b: Indirect) {
    true
  }

  ghost predicate Ascending(s: seq<Indirect>) {
    forall i, j :: 0 <= i < j < |s| ==> s[i].cost <= s[j].cost
  }

  lemma SortAscends(s: seq<Indirect>)
    ensures Ascending(Sort(s, CostKey()))
  {
    SortLexOrdered(s, CostKey(), Always);
  }

  lemma RetainedCount(candidates: seq<Indirect>)
    ensures |Retained(candidates)| == if |candidates| < 8 then |candidates| else 8
  {
    SortPermutes(candidates, CostKey());
  }

  lemma RankedIsRetained(candidates: seq<Indirect>, rank: nat)
    requires |candidates| > MAX_INDIRECTS && rank < |Sort(candidates, CostKey())|
    ensures rank < MAX_INDIRECTS ==> Sort(candidates, CostKey())[rank] in Retained(candidates)
  {
    SortPermutes(candidates, CostKey());
    if rank < MAX_INDIRECTS {
      assert Retained(candidates)[rank] == Sort(candidates, CostKey())[rank];
    }
  }

  /** Only candidates are retained, and none that is left out is cheaper than one that is kept. */
  lemma RetainedAreCheapest(candidates: seq<Indirect>, kept: Indirect, other: Indirect)
    requires kept in Retained(candidates)
    ensures kept in candidates
    ensures other in candidates && other !in Retained(candidates) ==> kept.cost <= other.cost
  {
    if |candidates| > MAX_INDIRECTS {
      var sorted := Sort(candidates, CostKey());
      SortPermutes(candidates, CostKey());
      SortAscends(candidates);
      assert kept in multiset(sorted);
      var a :| 0 <= a < MAX_INDIRECTS && sorted[a] == kept;
      if other in candidates && other !in Retained(candidates) {
        assert other in multiset(candidates);
        assert other in sorted;
        var b :| 0 <= b < |sorted| && sorted[b] == other;
        RankedIsRetained(candidates, b);
      }
    }
  }

  /** The order of what is retained: all candidates in the order of the relays if there are at most eight,
      else eight by cost, and of equal cost in the order of the relays. */
  lemma RetainedOrder(candidates: seq<Indirect>)
    requires forall a, b :: 0 <= a < b < |candidates| ==> candidates[a].relay < candidates[b].relay
    ensures var r := Retained(candidates);
      forall a, b :: 0 <= a < b < |r| ==>
        if |candidates| <= 8 then r[a].relay < r[b].relay
        else r[a].cost < r[b].cost || (r[a].cost == r[b].cost && r[a].relay < r[b].relay)
  {
    SortLexOrdered(candidates, CostKey(), (x: Indirect, y: Indirect) => x.relay < y.relay);
    if |candidates| > 8 {
      SortPermutes(candidates, CostKey());
      var sorted, r := Sort(candidates, CostKey()), Retained(candidates);
      forall a, b | 0 <= a < b < |r|
        ensures r[a].cost < r[b].cost || (r[a].cost == r[b].cost && r[a].relay < r[b].relay)
      {
        assert r[a] == sorted[a] && r[b] == sorted[b];
      }
    }
  }

  // ----- selecting without sorting -----

  lemma {:induction false} PlaceOf(s: seq<Indirect>, cost: nat) returns (p: nat)
    requires Ascending(s)
    ensures p <= |s|
    ensures forall k :: 0 <= k < p ==> s[k].cost <= cost
    ensures forall k :: p <= k < |s| ==> s[k].cost > cost
  {
    p := 0;
    while p < |s| && s[p].cost <= cost
      invariant p <= |s|
      invariant forall k :: 0 <= k < p ==> s[k].cost <= cost
    {
      p := p + 1;
    }
  }

  lemma CutInserted(s: seq<Indirect>, x: Indirect, p: nat, n: nat)
    requires p <= |s| && 0 < n <= |s|
    ensures (s[..p] + [x] + s[p..])[..n] == if p >= n then s[..n] else s[..n - 1][..p] + [x] + s[..n - 1][p..]
  {
  }

  /** Inserting into a sorted list and cutting it is the same as cutting it and inserting. */
  lemma InsertThenCut(s: seq<Indirect>, x: Indirect, n: nat)
    requires Ascending(s) && 0 < n <= |s|
    ensures |Insert(s, x, CostKey())| == |s| + 1
    ensures Insert(s, x, CostKey())[..n]
         == if x.cost >= s[n - 1].cost then s[..n] else Insert(s[..n - 1], x, CostKey())
  {
    var p := PlaceOf(s, x.cost);
    InsertAt(s, x, CostKey(), p);
    CutInserted(s, x, p, n);
    if x.cost < s[n - 1].cost {
      InsertAt(s[..n - 1], x, CostKey(), p);
    }
  }

  /** The cheapest of a list, at most as many as are wanted. */
  function Best(s: seq<Indirect>): (best: seq<Indirect>)
    ensures |best| == if |s| < MAX_INDIRECTS then |s| else MAX_INDIRECTS
  {
    SortPermutes(s, CostKey());
    var sorted := Sort(s, CostKey());
    if |sorted| < MAX_INDIRECTS then sorted else sorted[..MAX_INDIRECTS]
  }

  lemma SortSnoc(s: seq<Indirect>, x: Indirect)
    ensures |Sort(s, CostKey())| == |s| && |Sort(s + [x], CostKey())| == |s| + 1
    ensures Sort(s + [x], CostKey()) == Insert(Sort(s, CostKey()), x, CostKey())
  {
    SortPermutes(s, CostKey());
    SortPermutes(s + [x], CostKey());
    assert (s + [x])[..|s|] == s;
  }

  lemma BestOfSorted(s: seq<Indirect>, sorted: seq<Indirect>)
    requires sorted == Sort(s, CostKey()) && |sorted| == |s|
    ensures Best(s) == if |s| < MAX_INDIRECTS then sorted else sorted[..MAX_INDIRECTS]
  {
  }

  lemma BestGrows(s: seq<Indirect>, x: Indirect)
    requires |s| < MAX_INDIRECTS
    ensures Best(s + [x]) == Insert(Best(s), x, CostKey())
  {
    var longer := Sort(s + [x], CostKey());
    SortSnoc(s, x);
    BestOfSorted(s, Sort(s, CostKey()));
    BestOfSorted(s + [x], longer);
    assert |s| + 1 == MAX_INDIRECTS ==> longer[..MAX_INDIRECTS] == longer;
  }

  lemma CutReplaces(best: seq<Indirect>, sorted: seq<Indirect>, x: Indirect, n: nat)
    requires Ascending(sorted) && 0 < n <= |sorted| && best == sorted[..n]
    ensures |Insert(sorted, x, CostKey())| == |sorted| + 1
    ensures Insert(sorted, x, CostKey())[..n]
         == if x.cost >= best[n - 1].cost then best else Insert(best[..n - 1], x, CostKey())
  {
    InsertThenCut(sorted, x, n);
    assert sorted[..n][..n - 1] == sorted[..n - 1];
  }

  lemma BestReplaces(s: seq<Indirect>, x: Indirect)
    requires |s| >= MAX_INDIRECTS
    ensures Best(s + [x]) ==
      if x.cost >= Best(s)[MAX_INDIRECTS - 1].cost then Best(s)
      else Insert(Best(s)[..MAX_INDIRECTS - 1], x, CostKey())
  {
    var sorted := Sort(s, CostKey());
    SortSnoc(s, x);
    SortAscends(s);
    BestOfSorted(s, sorted);
    BestOfSorted(s + [x], Insert(sorted, x, CostKey()));
    CutReplaces(Best(s), sorted, x, MAX_INDIRECTS);
  }

  lemma BestStep(s: seq<Indirect>, x: Indirect)
    ensures Best(s + [x]) ==
      if |s| < MAX_INDIRECTS then Insert(Best(s), x, CostKey())
      else if x.cost >= Best(s)[MAX_INDIRECTS - 1].cost then Best(s)
      else Insert(Best(s)[..MAX_INDIRECTS - 1], x, CostKey())
  {
    if |s| < MAX_INDIRECTS {
      BestGrows(s, x);
    } else {
      BestReplaces(s, x);
    }
  }

  lemma DroppedIn(s: seq<Indirect>, x: Indirect, pos: nat, r: seq<Indirect>)
    requires pos <= |s| && |r| == |s| + 1 && r[pos] == x
    requires pos > 0 ==> s[pos - 1].cost <= x.cost
    requires forall k :: pos <= k < |s| ==> s[k].cost > x.cost
    requires forall k :: 0 <= k < pos ==> r[k] == s[k]
    requires forall k :: pos < k < |r| ==> r[k] == s[k - 1]
    ensures r == Insert(s, x, CostKey())
  {
    InsertAt(s, x, CostKey(), pos);
    assert r == s[..pos] + [x] + s[pos..];
  }

  /** Shifts dearer entries right and drops the candidate in. */
  method DropIn(best: array<Indirect>, count: nat, candidate: Indirect)
    requires count < best.Length
    modifies best
    ensures best[..count + 1] == Insert(old(best[..count]), candidate, CostKey())
  {
    ghost var s := best[..count];
    var pos := count;
    while pos > 0 && best[pos - 1].cost > candidate.cost
      invariant pos <= count
      invariant forall k :: 0 <= k < pos ==> best[k] == s[k]
      invariant forall k :: pos < k <= count ==> best[k] == s[k - 1]
      invariant forall k :: pos <= k < count ==> s[k].cost > candidate.cost
    {
      best[pos] := best[pos - 1];
      pos := pos - 1;
    }
    best[pos] := candidate;
    DroppedIn(s, candidate, pos, best[..count + 1]);
  }

  /** One turn of the selection. */
  method Consider(best: array<Indirect>, count: nat, candidate: Indirect, ghost s: seq<Indirect>) returns (after: nat)
    requires best.Length == MAX_INDIRECTS && count == (if |s| < MAX_INDIRECTS then |s| else MAX_INDIRECTS)
    requires best[..count] == Best(s)
    modifies best
    ensures after == if |s| + 1 < MAX_INDIRECTS then |s| + 1 else MAX_INDIRECTS
    ensures best[..after] == Best(s + [candidate])
  {
    BestStep(s, candidate);
    after := count;
    if after == MAX_INDIRECTS {
      if candidate.cost >= best[after - 1].cost {
        return;
      }
      after := after - 1;
      assert best[..after] == Best(s)[..after];
    }
    DropIn(best, after, candidate);
    after := after + 1;
  }

  /** The first `numRoutes` entries of the buffer, ranked as a stable sort would rank them and cut. */
  method SelectBest(working: array<Indirect>, numRoutes: nat, best: array<Indirect>)
    requires numRoutes <= working.Length && best.Length == MAX_INDIRECTS < numRoutes && best != working
    modifies best
    ensures best[..] == Best(working[..numRoutes])
  {
    var count := 0;
    ghost var seen: seq<Indirect> := [];
    for c := 0 to numRoutes
      invariant seen == working[..c]
      invariant count == if c < MAX_INDIRECTS then c else MAX_INDIRECTS
      invariant best[..count] == Best(seen)
    {
      count := Consider(best, count, working[c], seen);
      seen := seen + [working[c]];
    }
    assert best[..] == best[..MAX_INDIRECTS];
  }

  /** The candidates, written over whatever the buffer held before. */
  method Collect(rowI: seq<nat>, rowJ: seq<nat>, i: nat, j: nat, working: array<Indirect>) returns (numRoutes: nat)
    requires |rowI| == |rowJ| && j < |rowI| && working.Length == |rowI|
    modifies working
    ensures numRoutes <= working.Length
    ensures working[..numRoutes] == Candidates(rowI, rowJ, i, j, |rowI|)
  {
    numRoutes := 0;
    var costDirect := rowI[j];
    for x := 0 to |rowI|
      invariant numRoutes <= x
      invariant working[..numRoutes] == Candidates(rowI, rowJ, i, j, x)
    {
      if x == i || x == j {
        continue;
      }
      var indirectCost := rowI[x] + rowJ[x];
      if indirectCost >= costDirect {
        continue;
      }
      working[numRoutes] := Indirect(x, indirectCost);
      numRoutes := numRoutes + 1;
    }
  }

  /** One pair. Nothing of what the two scratch buffers held before reaches the result. */
  method FindIndirects(rowI: seq<nat>, rowJ: seq<nat>, i: nat, j: nat, working: array<Indirect>, best: array<Indirect>)
      returns (indirects: seq<Indirect>)
    requires |rowI| == |rowJ| && j < |rowI| && working.Length == |rowI|
    requires best.Length == MAX_INDIRECTS && best != working
    modifies working, best
    ensures indirects == Retained(Candidates(rowI, rowJ, i, j, |rowI|))
  {
    var numRoutes := Collect(rowI, rowJ, i, j, working);
    if numRoutes > MAX_INDIRECTS {
      SelectBest(working, numRoutes, best);
      indirects := best[..];
    } else if numRoutes > 0 {
      indirects := working[..numRoutes];
    } else {
      indirects := [];
    }
  }
}
