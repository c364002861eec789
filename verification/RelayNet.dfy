/** Relays, the costs of the links between them, and paths. */
module RelayNet {
  import opened Common

  /** Link costs are kept once per unordered pair, row after row of the triangle below the diagonal. */
  datatype Net = Net(n: nat, cost: seq<nat>, price: seq<nat>, destination: Option<seq<bool>>)

  function TriMatrixLength(size: nat): nat {
    size * (size - 1) / 2
  }

  function TriMatrixIndex(i: nat, j: nat): int {
    if i > j then i * (i + 1) / 2 - i + j else j * (j + 1) / 2 - j + i
  }

  ghost predicate Valid(net: Net) {
    && |net.cost| == TriMatrixLength(net.n)
    && (forall k :: 0 <= k < |net.cost| ==> net.cost[k] <= 255)
    && |net.price| == net.n
    && (net.destination.Some? ==> |net.destination.value| == net.n)
  }

  // ----- the triangle -----

  lemma TriMatrixStep(size: nat)
    ensures TriMatrixLength(size + 1) == TriMatrixLength(size) + size
  {
    assert (size + 1) * size == size * (size - 1) + 2 * size;
  }

  lemma {:induction false} TriMatrixMonotone(a: nat, b: nat)
    requires a <= b
    ensures TriMatrixLength(a) <= TriMatrixLength(b)
  {
    if a < b {
      TriMatrixMonotone(a, b - 1);
      TriMatrixStep(b - 1);
    }
  }

  /** The index of a pair lies in the stretch of its larger member. */
  lemma TriMatrixIndexIs(i: nat, j: nat)
    requires j < i
    ensures TriMatrixIndex(i, j) == TriMatrixLength(i) + j == TriMatrixIndex(j, i)
    ensures TriMatrixIndex(i, j) < TriMatrixLength(i + 1)
  {
    assert i * (i + 1) == i * (i - 1) + 2 * i;
    TriMatrixStep(i);
  }

  lemma TriMatrixInRange(i: nat, j: nat, n: nat)
    requires i != j && i < n && j < n
    ensures 0 <= TriMatrixIndex(i, j) < TriMatrixLength(n)
  {
    var larger, smaller := if i > j then i else j, if i > j then j else i;
    TriMatrixIndexIs(larger, smaller);
    TriMatrixMonotone(larger + 1, n);
  }

  /** Different pairs have different indices. */
  lemma TriMatrixInjective(i: nat, j: nat, k: nat, l: nat)
    requires j < i && l < k
    requires TriMatrixIndex(i, j) == TriMatrixIndex(k, l)
    ensures i == k && j == l
  {
    TriMatrixIndexIs(i, j);
    TriMatrixIndexIs(k, l);
    if i < k {
      TriMatrixMonotone(i + 1, k);
    }
    if k < i {
      TriMatrixMonotone(k + 1, i);
    }
  }

  /** Every index belongs to a pair. */
  lemma {:induction false} TriMatrixOnto(n: nat, index: nat) returns (i: nat, j: nat)
    requires index < TriMatrixLength(n)
    ensures j < i < n && TriMatrixIndex(i, j) == index
  {
    if n > 0 {
      TriMatrixStep(n - 1);
      if index < TriMatrixLength(n - 1) {
        i, j := TriMatrixOnto(n - 1, index);
      } else {
        i, j := n - 1, index - TriMatrixLength(n - 1);
        TriMatrixIndexIs(i, j);
      }
    }
  }

  // ----- links and paths -----

  function Link(net: Net, a: nat, b: nat): (cost: nat)
    requires Valid(net) && a < net.n && b < net.n
    ensures cost <= 255
    ensures a != b ==> 0 <= TriMatrixIndex(a, b) < |net.cost| && cost == net.cost[TriMatrixIndex(a, b)]
  {
    if a == b then 0 else TriMatrixInRange(a, b, net.n); net.cost[TriMatrixIndex(a, b)]
  }

  lemma LinkIsSymmetric(net: Net, a: nat, b: nat)
    requires Valid(net) && a < net.n && b < net.n
    ensures Link(net, a, b) == Link(net, b, a)
  {
  }

  function Row(net: Net, i: nat): (row: seq<nat>)
    requires Valid(net) && i < net.n
    ensures |row| == net.n && forall x :: 0 <= x < net.n ==> row[x] == Link(net, i, x)
  {
    seq(net.n, x requires 0 <= x < net.n => Link(net, i, x))
  }

  predicate Relays(net: Net, relays: seq<nat>) {
    forall k :: 0 <= k < |relays| ==> relays[k] < net.n
  }

  function PathCost(net: Net, relays: seq<nat>): nat
    requires Valid(net) && Relays(net, relays)
  {
    if |relays| < 2 then 0 else Link(net, relays[0], relays[1]) + PathCost(net, relays[1..])
  }

  /** Relays that are not in the net have no price. */
  function PathPrice(net: Net, relays: seq<nat>): nat {
    if relays == [] then 0
    else (if relays[0] < |net.price| then net.price[relays[0]] else 0) + PathPrice(net, relays[1..])
  }

  /** Only pairs with a destination relay are worth subdividing, unless no destinations are given. */
  predicate Wanted(net: Net, i: nat, j: nat)
    requires Valid(net) && i < net.n && j < net.n
  {
    net.destination.None? || net.destination.value[i] || net.destination.value[j]
  }

  // ----- the square -----

  /** Where the square keeps a pair: row after row. */
  function At(n: nat, a: nat, b: nat): nat {
    a * n + b
  }

  lemma AtInRange(n: nat, a: nat, b: nat)
    requires a < n && b < n
    ensures At(n, a, b) < n * n
  {
    assert a * n <= (n - 1) * n;
  }

  lemma AtInjective(n: nat, a: nat, b: nat, c: nat, d: nat)
    requires b < n && d < n && At(n, a, b) == At(n, c, d)
    ensures a == c && b == d
  {
    RowsApart(n, a, c);
    RowsApart(n, c, a);
  }

  lemma {:induction false} RowsApart(n: nat, a: nat, c: nat)
    ensures a < c ==> a * n + n <= c * n
    decreases c
  {
    if a < c {
      assert c * n == (c - 1) * n + n;
      RowsApart(n, a, c - 1);
    }
  }

  function Cell(square: seq<nat>, n: nat, a: nat, b: nat): nat
    requires |square| == n * n && a < n && b < n
  {
    AtInRange(n, a, b);
    square[At(n, a, b)]
  }

  lemma CellUpdate(square: seq<nat>, n: nat, i: nat, j: nat, c: nat, a: nat, b: nat)
    requires |square| == n * n && a < n && b < n && i < n && j < n
    ensures At(n, i, j) < n * n
    ensures Cell(square[At(n, i, j) := c], n, a, b) == if a == i && b == j then c else Cell(square, n, a, b)
  {
    AtInRange(n, i, j);
    AtInRange(n, a, b);
    if At(n, a, b) == At(n, i, j) {
      AtInjective(n, a, b, i, j);
    }
  }

  ghost predicate Unfolded(net: Net, square: seq<nat>)
    requires Valid(net)
  {
    && |square| == net.n * net.n
    && forall a, b :: 0 <= a < net.n && 0 <= b < net.n ==> Cell(square, net.n, a, b) == Link(net, a, b)
  }

  /** The links among the first `i` relays are in place, and of relay `i` those to the first `j`. */
  ghost predicate Filled(net: Net, square: seq<nat>, i: nat, j: nat)
    requires Valid(net)
  {
    && |square| == net.n * net.n && j <= i <= net.n
    && forall a, b :: 0 <= a < net.n && 0 <= b < net.n ==>
         Cell(square, net.n, a, b) == if Reached(a, b, i, j) then Link(net, a, b) else 0
  }

  predicate Reached(a: nat, b: nat, i: nat, j: nat) {
    (a < i && b < i) || (a == i && b < j) || (b == i && a < j)
  }

  lemma FillBoth(net: Net, square: seq<nat>, i: nat, j: nat)
    requires Valid(net) && Filled(net, square, i, j) && j < i < net.n
    ensures At(net.n, i, j) < |square| && At(net.n, j, i) < |square|
    ensures Filled(net, square[At(net.n, i, j) := Link(net, i, j)][At(net.n, j, i) := Link(net, i, j)], i, j + 1)
  {
    var n, c := net.n, Link(net, i, j);
    AtInRange(n, i, j);
    AtInRange(n, j, i);
    LinkIsSymmetric(net, i, j);
    var one := square[At(n, i, j) := c];
    var two := one[At(n, j, i) := c];
    forall a, b | 0 <= a < n && 0 <= b < n
      ensures Cell(two, n, a, b) == if (a == i && b == j) || (a == j && b == i) then c else Cell(square, n, a, b)
    {
      CellUpdate(square, n, i, j, c, a, b);
      CellUpdate(one, n, j, i, c, a, b);
    }
  }

  lemma RowDone(net: Net, square: seq<nat>, i: nat)
    requires Valid(net) && i < net.n && Filled(net, square, i, i)
    ensures Filled(net, square, i + 1, 0)
  {
    assert Link(net, i, i) == 0;
  }

  /** One link into its two places. */
  method PutBoth(net: Net, square: array<nat>, i: nat, j: nat, base: nat)
    requires Valid(net) && Filled(net, square[..], i, j) && j < i < net.n && base == TriMatrixIndex(i, 0)
    modifies square
    ensures Filled(net, square[..], i, j + 1)
  {
    TriMatrixInRange(i, j, net.n);
    TriMatrixIndexIs(i, j);
    TriMatrixIndexIs(i, 0);
    FillBoth(net, square[..], i, j);
    var c := net.cost[base + j];
    square[At(net.n, i, j)] := c;
    square[At(net.n, j, i)] := c;
  }

  lemma NothingFilled(net: Net, square: seq<nat>)
    requires Valid(net) && |square| == net.n * net.n && forall k :: 0 <= k < |square| ==> square[k] == 0
    ensures Filled(net, square, 0, 0)
  {
    forall a, b | 0 <= a < net.n && 0 <= b < net.n ensures Cell(square, net.n, a, b) == 0 && !Reached(a, b, 0, 0) {
      AtInRange(net.n, a, b);
    }
  }

  /** The triangle unfolded into a square, row after row in one slice. */
  method Square(net: Net) returns (square: array<nat>)
    requires Valid(net)
    ensures fresh(square) && Unfolded(net, square[..])
  {
    square := new nat[net.n * net.n](_ => 0);
    NothingFilled(net, square[..]);
    for i := 0 to net.n
      invariant Filled(net, square[..], i, 0)
    {
      if i > 0 {
        TriMatrixIndexIs(i, 0);
      }
      var base := TriMatrixIndex(i, 0);
      for j := 0 to i
        invariant Filled(net, square[..], i, j)
      {
        PutBoth(net, square, i, j, base);
      }
      RowDone(net, square[..], i);
    }
  }

  /** A row of the square is a slice of it. */
  lemma RowIsSlice(net: Net, square: seq<nat>, i: nat)
    requires Valid(net) && Unfolded(net, square) && i < net.n
    ensures 0 <= i * net.n <= i * net.n + net.n <= |square|
    ensures square[i * net.n..i * net.n + net.n] == Row(net, i)
  {
    var n := net.n;
    RowsApart(n, i, n);
    forall x | 0 <= x < n ensures square[i * n + x] == Link(net, i, x) {
      assert Cell(square, n, i, x) == Link(net, i, x);
    }
  }
}
