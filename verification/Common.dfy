/** What several modules share. */
module Common {

  datatype Option<+T> = None | Some(value: T)

  lemma SubsetSize<T>(a: set<T>, b: set<T>)
    requires a <= b
    ensures |a| <= |b|
  {
    assert b == a + (b - a);
  }

  lemma QuotientIs(x: nat, q: nat, divisor: nat)
    requires divisor > 0 && q * divisor <= x < q * divisor + divisor
    ensures x / divisor == q
  {
    var r := x / divisor;
    assert r * divisor <= x < r * divisor + divisor;
    TimesMonotone(r + 1, q, divisor);
    TimesMonotone(q + 1, r, divisor);
  }

  lemma TimesMonotone(a: nat, b: nat, divisor: nat)
    ensures a <= b ==> a * divisor <= b * divisor
  {
    if a <= b {
      assert b * divisor == a * divisor + (b - a) * divisor;
    }
  }
}
