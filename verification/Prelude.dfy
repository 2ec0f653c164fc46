/** Option, and finite sums over maps: the bookkeeping identities used by the ledgers. */
module Prelude {

  datatype Option<+T> = None | Some(value: T)

  /** The value stored under k, or 0: what reading an absent storage slot gives. */
  function At<K>(m: map<K, int>, k: K): int {
    if k in m then m[k] else 0
  }

  /** The sum of all values of a map. */
  ghost function Sum<K>(m: map<K, int>): int {
    if m == map[] then 0 else
      var k :| k in m;
      m[k] + Sum(m - {k})
  }

  lemma {:induction false} SumRemove<K>(m: map<K, int>, k: K)
    requires k in m
    ensures Sum(m) == m[k] + Sum(m - {k})
    decreases |m|
  {
    var j :| j in m && Sum(m) == m[j] + Sum(m - {j});
    if j != k {
      SumRemove(m - {j}, k);
      SumRemove(m - {k}, j);
      assert m - {j} - {k} == m - {k} - {j};
    }
  }

  lemma SumUpdate<K>(m: map<K, int>, k: K, v: int)
    ensures Sum(m[k := v]) == Sum(m) - At(m, k) + v
  {
    SumRemove(m[k := v], k);
    if k in m {
      SumRemove(m, k);
      assert m[k := v] - {k} == m - {k};
    } else {
      assert m[k := v] - {k} == m;
    }
  }

  predicate NonNegative<K>(m: map<K, int>) {
    forall k | k in m :: 0 <= m[k]
  }

  lemma {:induction false} SumBounds<K>(m: map<K, int>)
    requires NonNegative(m)
    ensures 0 <= Sum(m)
    ensures forall k | k in m :: m[k] <= Sum(m)
    decreases |m|
  {
    forall k | k in m ensures m[k] <= Sum(m) && 0 <= Sum(m) {
      SumRemove(m, k);
      SumBounds(m - {k});
    }
  }

  lemma SumEmpty<K>(m: map<K, int>)
    ensures |m| == 0 ==> Sum(m) == 0
  {
  }

  lemma {:induction false} SumAllZero<K>(m: map<K, int>)
    requires forall k | k in m :: m[k] == 0
    ensures Sum(m) == 0
    decreases |m|
  {
    if k :| k in m {
      SumRemove(m, k);
      SumAllZero(m - {k});
    }
  }

  lemma MulMono(a: int, b: int, c: int)
    requires a <= b && 0 <= c
    ensures a * c <= b * c && c * a <= c * b
  {
  }

  lemma MulSum(a: int, b: int, c: int)
    ensures (a + b) * c == a * c + b * c && c * (a + b) == c * a + c * b
  {
  }

  lemma QuotientBelow(x: int, d: int, k: int)
    requires d > 0
    ensures x / d < k <==> x < k * d
  {
    if x / d < k {
      MulMono(x / d + 1, k, d);
    } else {
      MulMono(k, x / d, d);
    }
  }
}
