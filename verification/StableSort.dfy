/** Stable sorting by an integer key: the in-place algorithm, the function it computes, and how
    successive stable sorts compose. */
module StableSort {

  /** `x` goes after every element whose key is not larger. */
  function Insert<T>(s: seq<T>, x: T, key: T -> int): seq<T> {
    if s == [] then [x]
    else if key(s[|s| - 1]) <= key(x) then s + [x]
    else Insert(s[..|s| - 1], x, key) + [s[|s| - 1]]
  }

  function Sort<T>(s: seq<T>, key: T -> int): seq<T> {
    if s == [] then [] else Insert(Sort(s[..|s| - 1], key), s[|s| - 1], key)
  }

  /** Ordered by key, and elements with equal keys ordered by `before`. */
  ghost predicate LexOrdered<T>(s: seq<T>, key: T -> int, before: (T, T) -> bool) {
    forall i, j :: 0 <= i < j < |s| ==> key(s[i]) < key(s[j]) || (key(s[i]) == key(s[j]) && before(s[i], s[j]))
  }

  ghost predicate Ordered<T>(s: seq<T>, before: (T, T) -> bool) {
    forall i, j :: 0 <= i < j < |s| ==> before(s[i], s[j])
  }

  lemma {:induction false} InsertPermutes<T>(s: seq<T>, x: T, key: T -> int)
    ensures multiset(Insert(s, x, key)) == multiset(s) + multiset{x}
    ensures |Insert(s, x, key)| == |s| + 1
  {
    if s != [] {
      assert s == s[..|s| - 1] + [s[|s| - 1]];
      InsertPermutes(s[..|s| - 1], x, key);
    }
  }

  lemma {:induction false} SortPermutes<T>(s: seq<T>, key: T -> int)
    ensures multiset(Sort(s, key)) == multiset(s)
    ensures |Sort(s, key)| == |s|
  {
    if s != [] {
      assert s == s[..|s| - 1] + [s[|s| - 1]];
      SortPermutes(s[..|s| - 1], key);
      InsertPermutes(Sort(s[..|s| - 1], key), s[|s| - 1], key);
    }
  }

  lemma {:induction false} InsertLexOrdered<T>(s: seq<T>, x: T, key: T -> int, before: (T, T) -> bool)
    requires LexOrdered(s, key, before)
    requires forall i :: 0 <= i < |s| ==> before(s[i], x)
    ensures LexOrdered(Insert(s, x, key), key, before)
    ensures forall y :: y in Insert(s, x, key) ==> y in s || y == x
  {
    if s != [] && key(s[|s| - 1]) > key(x) {
      var front, last := s[..|s| - 1], s[|s| - 1];
      InsertLexOrdered(front, x, key, before);
      var r := Insert(front, x, key);
      forall i | 0 <= i < |r| ensures key(r[i]) < key(last) || (key(r[i]) == key(last) && before(r[i], last)) {
        assert r[i] in r;
        if r[i] in front {
          var j :| 0 <= j < |front| && front[j] == r[i];
          assert s[j] == r[i];
        }
      }
    }
  }

  /** Sorting a sequence that is already ordered some way orders it by key first and that way
      second: successive stable sorts compose into one lexicographic order. */
  lemma {:induction false} SortLexOrdered<T>(s: seq<T>, key: T -> int, before: (T, T) -> bool)
    requires Ordered(s, before)
    ensures LexOrdered(Sort(s, key), key, before)
  {
    if s != [] {
      var front, last := s[..|s| - 1], s[|s| - 1];
      SortLexOrdered(front, key, before);
      SortPermutes(front, key);
      var sorted := Sort(front, key);
      forall i | 0 <= i < |sorted| ensures before(sorted[i], last) {
        assert sorted[i] in multiset(sorted);
        assert sorted[i] in front;
        var j :| 0 <= j < |front| && front[j] == sorted[i];
        assert before(s[j], s[|s| - 1]);
      }
      InsertLexOrdered(sorted, last, key, before);
    }
  }

  lemma {:induction false} InsertAt<T>(s: seq<T>, x: T, key: T -> int, j: nat)
    requires j <= |s|
    requires j == 0 || key(s[j - 1]) <= key(x)
    requires forall k :: j <= k < |s| ==> key(s[k]) > key(x)
    ensures Insert(s, x, key) == s[..j] + [x] + s[j..]
  {
    if j < |s| {
      InsertAt(s[..|s| - 1], x, key, j);
      assert s[..|s| - 1][..j] == s[..j];
      assert s[j..] == s[..|s| - 1][j..] + [s[|s| - 1]];
    }
  }

  ghost predicate DistinctBy<T>(s: seq<T>, id: T -> int) {
    forall i, j :: 0 <= i < j < |s| ==> id(s[i]) != id(s[j])
  }

  lemma {:induction false} InsertIs<T>(s: seq<T>, x: T, key: T -> int) returns (j: nat)
    ensures j <= |s| && Insert(s, x, key) == s[..j] + [x] + s[j..]
  {
    if s == [] || key(s[|s| - 1]) <= key(x) {
      j := |s|;
    } else {
      j := InsertIs(s[..|s| - 1], x, key);
      assert s[..|s| - 1][..j] == s[..j];
      assert s[j..] == s[..|s| - 1][j..] + [s[|s| - 1]];
    }
  }

  /** Sorting by one key keeps elements apart that another key tells apart. */
  lemma {:induction false} SortKeepsDistinct<T>(s: seq<T>, key: T -> int, id: T -> int)
    requires DistinctBy(s, id)
    ensures DistinctBy(Sort(s, key), id)
  {
    if s != [] {
      var front, last := s[..|s| - 1], s[|s| - 1];
      SortKeepsDistinct(front, key, id);
      SortPermutes(front, key);
      var sorted := Sort(front, key);
      forall i | 0 <= i < |sorted| ensures id(sorted[i]) != id(last) {
        assert sorted[i] in multiset(sorted);
        var j :| 0 <= j < |front| && front[j] == sorted[i];
        assert s[j] == front[j];
      }
      InsertKeepsDistinct(sorted, last, key, id);
    }
  }

  lemma InsertKeepsDistinct<T>(s: seq<T>, x: T, key: T -> int, id: T -> int)
    requires DistinctBy(s, id)
    requires forall i :: 0 <= i < |s| ==> id(s[i]) != id(x)
    ensures DistinctBy(Insert(s, x, key), id)
  {
    var p := InsertIs(s, x, key);
    DistinctWith(s, x, p, id);
  }

  lemma DistinctWith<T>(s: seq<T>, x: T, p: nat, id: T -> int)
    requires p <= |s| && DistinctBy(s, id)
    requires forall i :: 0 <= i < |s| ==> id(s[i]) != id(x)
    ensures DistinctBy(s[..p] + [x] + s[p..], id)
  {
    var t := s[..p] + [x] + s[p..];
    forall i, j | 0 <= i < j < |t| ensures id(t[i]) != id(t[j]) {
      if j < p {
        assert t[i] == s[i] && t[j] == s[j];
      } else if i > p {
        assert t[i] == s[i - 1] && t[j] == s[j - 1];
      } else if i < p < j {
        assert t[i] == s[i] && t[j] == s[j - 1];
      } else {
        assert i == p ==> t[j] == s[j - 1];
        assert j == p ==> t[i] == s[i];
      }
    }
  }

  // ----- in place -----

  /** Moves `a[i]` left into the sorted part before it. */
  method InsertInPlace<T>(a: array<T>, i: nat, key: T -> int)
    requires i < a.Length
    modifies a
    ensures a[..i + 1] == Insert(old(a[..i]), old(a[i]), key)
    ensures a[i + 1..] == old(a[i + 1..])
  {
    var j := i;
    ghost var s, x := a[..i], a[i];
    while j > 0 && key(a[j]) < key(a[j - 1])
      invariant 0 <= j <= i
      invariant a[j] == x
      invariant forall k :: 0 <= k < j ==> a[k] == s[k]
      invariant forall k :: j < k <= i ==> a[k] == s[k - 1]
      invariant forall k :: j <= k < i ==> key(s[k]) > key(x)
      invariant forall k :: i < k < a.Length ==> a[k] == old(a[k])
    {
      a[j], a[j - 1] := a[j - 1], a[j];
      j := j - 1;
    }
    InsertAt(s, x, key, j);
    assert a[..i + 1] == s[..j] + [x] + s[j..];
  }

  method SortInPlace<T>(a: array<T>, key: T -> int)
    modifies a
    ensures a[..] == Sort(old(a[..]), key)
  {
    ghost var s := a[..];
    for i := 0 to a.Length
      invariant a[..i] == Sort(s[..i], key)
      invariant a[i..] == s[i..]
    {
      assert s[..i + 1][..i] == s[..i];
      assert a[i] == a[i..][0] == s[i];
      ghost var rest := a[i..];
      InsertInPlace(a, i, key);
      assert rest[1..] == s[i + 1..];
    }
    assert a[..] == a[..a.Length] && s[..a.Length] == s;
  }
}
