/** Stake weighting: ten Newton steps towards the square root, over the reals, and the
    selection of the heaviest validators. */
module Selection {
  import opened Validators

  const NEWTON_STEPS := 10

  function NewtonStep(x: real, z: real): real
    requires z > 0.0
  {
    (z + x / z) / 2.0
  }

  /** k Newton steps for the root of x, from z = x. */
  function Newton(x: real, k: nat): (z: real)
    requires x > 0.0
    ensures z > 0.0
  {
    if k == 0 then x else
      assert x / Newton(x, k - 1) > 0.0 by { PositiveQuotient(x, Newton(x, k - 1)); }
      NewtonStep(x, Newton(x, k - 1))
  }

  lemma ScaleUp(a: real, b: real, c: real)
    requires a <= b && c >= 0.0
    ensures a * c <= b * c
  {
  }

  lemma PositiveQuotient(x: real, z: real)
    requires x > 0.0 && z > 0.0
    ensures x / z > 0.0
  {
  }

  function Weight(x: real): real {
    if x <= 0.0 then 0.0 else Newton(x, NEWTON_STEPS)
  }

  method SqrtWeighted(x: real) returns (z: real)
    ensures z == Weight(x)
  {
    if x <= 0.0 {
      return 0.0;
    }
    z := x;
    for i := 0 to NEWTON_STEPS
      invariant z == Newton(x, i)
    {
      z := (z + x / z) / 2.0;
    }
  }

  /** A Newton step never falls below the root, and only lands on it from it. */
  lemma StepAboveRoot(x: real, z: real)
    requires x > 0.0 && z > 0.0
    ensures NewtonStep(x, z) * NewtonStep(x, z) >= x
    ensures z * z > x ==> NewtonStep(x, z) * NewtonStep(x, z) > x
  {
    var q := x / z;
    var d := (z - q) / 2.0;
    assert q * z == x;
    assert ((z + q) / 2.0) * ((z + q) / 2.0) == d * d + q * z;
    assert d * d >= 0.0;
    if z * z > x {
      if q >= z {
        ScaleUp(z, q, z);
      }
      StrictlyPositive(d, d);
    }
  }

  /** From at or above the smaller root, a larger start and a larger radicand give a larger step. */
  lemma StepIsMonotone(x: real, y: real, z: real, w: real)
    requires 0.0 < x < y && 0.0 < z < w && z * z >= x
    ensures NewtonStep(x, z) < NewtonStep(y, w)
  {
  }

  lemma StrictlyPositive(a: real, b: real)
    requires a > 0.0 && b > 0.0
    ensures a * b > 0.0
  {
  }

  /** At or above the root of x: exactly on it only for a radicand of one. */
  predicate AboveRoot(x: real, z: real) {
    && z > 0.0 && z * z >= x
    && (x > 1.0 ==> z * z > x)
    && (x == 1.0 ==> z == 1.0)
  }

  lemma StartsAboveRoot(x: real)
    requires x >= 1.0
    ensures AboveRoot(x, x)
  {
    ScaleUp(1.0, x, x);
    if x > 1.0 {
      StrictlyPositive(x - 1.0, x);
    }
  }

  lemma StaysAboveRoot(x: real, z: real)
    requires x >= 1.0 && AboveRoot(x, z)
    ensures NewtonStep(x, z) > 0.0 && AboveRoot(x, NewtonStep(x, z))
  {
    PositiveQuotient(x, z);
    StepAboveRoot(x, z);
  }

  lemma {:induction false} IteratesAreAboveRoot(x: real, k: nat)
    requires x >= 1.0
    ensures AboveRoot(x, Newton(x, k))
  {
    hide AboveRoot, NewtonStep;
    if k == 0 {
      StartsAboveRoot(x);
    } else {
      IteratesAreAboveRoot(x, k - 1);
      StaysAboveRoot(x, Newton(x, k - 1));
    }
  }

  /** The iterates stay at or above the root: exactly on it only for a radicand of one. */
  lemma NewtonAboveRoot(x: real, k: nat)
    requires x >= 1.0
    ensures Newton(x, k) * Newton(x, k) >= x
    ensures x > 1.0 ==> Newton(x, k) * Newton(x, k) > x
    ensures x == 1.0 ==> Newton(x, k) == 1.0
  {
    hide Newton;
    IteratesAreAboveRoot(x, k);
  }

  lemma {:induction false} NewtonIsMonotone(x: real, y: real, k: nat)
    requires 1.0 <= x < y
    ensures Newton(x, k) < Newton(y, k)
  {
    hide NewtonStep;
    if k > 0 {
      NewtonIsMonotone(x, y, k - 1);
      NewtonAboveRoot(x, k - 1);
      StepIsMonotone(x, y, Newton(x, k - 1), Newton(y, k - 1));
    }
  }

  /** Weights rank stakes strictly by size. */
  lemma WeightRanksStakes(a: nat, b: nat)
    ensures a < b <==> Weight(a as real) < Weight(b as real)
  {
    if 0 < a < b {
      NewtonIsMonotone(a as real, b as real, NEWTON_STEPS);
    } else if 0 < b < a {
      NewtonIsMonotone(b as real, a as real, NEWTON_STEPS);
    }
  }

  function Pow2(k: nat): (p: nat)
    ensures p > 0
  {
    if k == 0 then 1 else 2 * Pow2(k - 1)
  }

  lemma {:induction false} NewtonHalvesAtMost(x: real, k: nat)
    requires x > 0.0
    ensures Newton(x, k) * (Pow2(k) as real) >= x
  {
    if k > 0 {
      NewtonHalvesAtMost(x, k - 1);
      var z := Newton(x, k - 1);
      var p := Pow2(k - 1) as real;
      PositiveQuotient(x, z);
      ScaleUp(z / 2.0, NewtonStep(x, z), 2.0 * p);
      assert (z / 2.0) * (2.0 * p) == z * p;
    }
  }

  /** The weight is the square root only for a stake of 0 or 1. */
  lemma WeightAboveRoot(stake: nat)
    ensures RootOrAbove(stake, Weight(stake as real))
  {
    if stake > 0 {
      NewtonRootOrAbove(stake, NEWTON_STEPS);
    }
  }

  predicate RootOrAbove(stake: nat, w: real) {
    w * w >= stake as real && (w * w == stake as real <==> stake <= 1)
  }

  lemma NewtonRootOrAbove(stake: nat, k: nat)
    requires stake > 0
    ensures RootOrAbove(stake, Newton(stake as real, k))
  {
    NewtonAboveRoot(stake as real, k);
  }

  /** Ten halvings are too few for a large stake: its weight exceeds stake / 1024, so beyond
      about a million it grows in proportion to the stake and not to its root. */
  lemma WeightAboveLinear(stake: nat)
    ensures Weight(stake as real) * 1024.0 >= stake as real
  {
    if stake > 0 {
      NewtonHalvesAtMost(stake as real, NEWTON_STEPS);
      TenDoublings();
    }
  }

  lemma TenDoublings()
    ensures Pow2(NEWTON_STEPS) == 1024
  {
  }

  lemma SquareOrder(a: real, b: real)
    requires a > b > 0.0
    ensures a * a > b * b
  {
    StrictlyPositive(a - b, a + b);
    assert (a - b) * (a + b) == a * a - b * b;
  }

  predicate Covers(x: real, z: real) {
    z > 0.0 && z * z >= x
  }

  /** Dividing x by anything at or above its root falls to the root or below it. */
  lemma QuotientBelowRoot(x: real, z: real, y: real)
    requires x > 0.0 && Covers(x, z) && Covers(x, y)
    ensures z > 0.0 && x / z <= y
  {
    var q := x / z;
    PositiveQuotient(x, z);
    assert q * z == x;
    if q > z {
      StrictlyPositive(q - z, z);
    }
    ScaleUp(q, z, q);
    if q > y {
      SquareOrder(q, y);
    }
  }

  /** No further above y than x divided by p. */
  predicate Close(x: real, y: real, z: real, p: real) {
    (z - y) * p <= x
  }

  lemma HalfTheDistance(next: real, z: real, y: real, p: real, x: real)
    requires next <= z / 2.0 + y / 2.0 && Close(x, y, z, p) && p >= 0.0
    ensures Close(x, y, next, 2.0 * p)
  {
    ScaleUp(next - y, (z - y) / 2.0, 2.0 * p);
    assert (z - y) / 2.0 * (2.0 * p) == (z - y) * p;
  }

  lemma OneStepCloser(x: real, y: real, z: real, p: real)
    requires x > 0.0 && Covers(x, y) && Covers(x, z) && p >= 0.0 && Close(x, y, z, p)
    ensures z > 0.0 && Close(x, y, NewtonStep(x, z), 2.0 * p)
  {
    hide Covers, Close;
    QuotientBelowRoot(x, z, y);
    HalfTheDistance(NewtonStep(x, z), z, y, p, x);
  }

  /** k steps come as close to the root from above as the radicand halved k times. */
  lemma {:induction false} NewtonIsClose(x: real, y: real, k: nat)
    requires x >= 1.0 && Covers(x, y)
    ensures Close(x, y, Newton(x, k), Pow2(k) as real)
  {
    if k == 0 {
      StartsClose(x, y);
    } else {
      hide Close, Covers, NewtonStep;
      NewtonIsClose(x, y, k - 1);
      IteratesCover(x, k - 1);
      OneStepCloser(x, y, Newton(x, k - 1), Pow2(k - 1) as real);
    }
  }

  lemma StartsClose(x: real, y: real)
    requires Covers(x, y)
    ensures Close(x, y, x, 1.0)
  {
  }

  lemma IteratesCover(x: real, k: nat)
    requires x >= 1.0
    ensures Covers(x, Newton(x, k))
  {
    NewtonAboveRoot(x, k);
  }

  /** For all that, the weight exceeds the root by at most stake / 1024: it is no more than that above any y
      at or above the root. */
  lemma WeightIsNearRoot(stake: nat, y: real)
    requires y >= 0.0 && y * y >= stake as real
    ensures Weight(stake as real) <= y + stake as real / 1024.0
  {
    if stake > 0 {
      assert y > 0.0;
      NewtonIsClose(stake as real, y, NEWTON_STEPS);
      TenDoublings();
    }
  }

  // ----- the heaviest validators

  datatype Weighted = Weighted(id: ValidatorID, weight: real)

  predicate Descending(s: seq<Weighted>) {
    forall i, j | 0 <= i < j < |s| :: s[i].weight >= s[j].weight
  }

  function Place(s: seq<Weighted>, w: Weighted): seq<Weighted> {
    if s == [] || w.weight > s[0].weight then [w] + s else [s[0]] + Place(s[1..], w)
  }

  lemma {:induction false} PlacePermutes(s: seq<Weighted>, w: Weighted)
    ensures multiset(Place(s, w)) == multiset(s) + multiset{w}
  {
    if s != [] && w.weight <= s[0].weight {
      PlacePermutes(s[1..], w);
      assert s == [s[0]] + s[1..];
      assert Place(s, w) == [s[0]] + Place(s[1..], w);
    }
  }

  lemma {:induction false} PlaceOrders(s: seq<Weighted>, w: Weighted)
    requires Descending(s)
    ensures Descending(Place(s, w))
  {
    if s != [] && w.weight <= s[0].weight {
      PlaceOrders(s[1..], w);
      PlacePermutes(s[1..], w);
      var r := Place(s[1..], w);
      forall j | 0 <= j < |r| ensures s[0].weight >= r[j].weight {
        assert r[j] in multiset(r);
        assert r[j] == w || r[j] in s[1..];
      }
    }
  }

  /** The library's sort: some descending permutation; ties may come out in any order, so the
      contract does not say which. */
  method SortByWeight(s: seq<Weighted>) returns (r: seq<Weighted>)
    ensures multiset(r) == multiset(s) && Descending(r)
    decreases |s|
  {
    if s == [] {
      return [];
    }
    r := SortByWeight(s[1..]);
    PlacePermutes(r, s[0]);
    PlaceOrders(r, s[0]);
    assert s == [s[0]] + s[1..];
    r := Place(r, s[0]);
  }

  function StakeOf(stakes: map<ValidatorID, nat>, v: ValidatorID): nat {
    if v in stakes then stakes[v] else 0
  }

  function Weigh(stakes: map<ValidatorID, nat>, v: ValidatorID): Weighted {
    Weighted(v, Weight(StakeOf(stakes, v) as real))
  }

  function Ids(s: seq<Weighted>): (ids: seq<ValidatorID>)
    ensures |ids| == |s| && forall i | 0 <= i < |s| :: ids[i] == s[i].id
  {
    if s == [] then [] else Ids(s[..|s| - 1]) + [s[|s| - 1].id]
  }

  ghost predicate Weighs(stakes: map<ValidatorID, nat>, s: seq<Weighted>) {
    forall i | 0 <= i < |s| :: s[i] == Weigh(stakes, s[i].id)
  }

  lemma {:induction false} CountIds(stakes: map<ValidatorID, nat>, s: seq<Weighted>, v: ValidatorID)
    requires Weighs(stakes, s)
    ensures multiset(Ids(s))[v] == multiset(s)[Weigh(stakes, v)]
  {
    hide Weight, StakeOf, Ids;
    if s == [] {
      NoIds();
    } else {
      var rest, last := s[..|s| - 1], s[|s| - 1];
      CountIds(stakes, rest, v);
      LastId(s);
      assert s == rest + [last];
      assert last == Weigh(stakes, last.id);
    }
  }

  lemma NoIds()
    ensures Ids([]) == []
  {
  }

  lemma LastId(s: seq<Weighted>)
    requires s != []
    ensures multiset(Ids(s)) == multiset(Ids(s[..|s| - 1])) + multiset{s[|s| - 1].id}
  {
  }

  /** v occurs among ids more often than among active. */
  ghost predicate LeftOut(ids: seq<ValidatorID>, active: seq<ValidatorID>, v: ValidatorID) {
    multiset(ids)[v] > multiset(active)[v]
  }

  predicate ByStake(stakes: map<ValidatorID, nat>, ids: seq<ValidatorID>) {
    forall i, j | 0 <= i < j < |ids| :: StakeOf(stakes, ids[i]) >= StakeOf(stakes, ids[j])
  }

  function Seats(registered: nat): nat {
    if registered < MAX_VALIDATORS then registered else MAX_VALIDATORS
  }

  /** The selection a stake-weighted epoch promises: as many of the ids as fit, in descending
      order of stake, none of them smaller than one left out. */
  ghost predicate IsTopByStake(active: seq<ValidatorID>, ids: seq<ValidatorID>, stakes: map<ValidatorID, nat>) {
    && multiset(active) <= multiset(ids)
    && |active| == Seats(|ids|)
    && ByStake(stakes, active)
    && (forall a, v | a in active && LeftOut(ids, active, v) :: StakeOf(stakes, v) <= StakeOf(stakes, a))
  }

  lemma SamePermutedIds(stakes: map<ValidatorID, nat>, s: seq<Weighted>, t: seq<Weighted>)
    requires Weighs(stakes, s) && multiset(s) == multiset(t)
    ensures Weighs(stakes, t) && multiset(Ids(s)) == multiset(Ids(t))
  {
    hide Weight, StakeOf;
    forall i | 0 <= i < |t| ensures t[i] == Weigh(stakes, t[i].id) {
      assert t[i] in multiset(s);
    }
    forall v ensures multiset(Ids(s))[v] == multiset(Ids(t))[v] {
      CountIds(stakes, s, v);
      CountIds(stakes, t, v);
    }
  }

  lemma DescendingByStake(stakes: map<ValidatorID, nat>, s: seq<Weighted>)
    requires Weighs(stakes, s) && Descending(s)
    ensures ByStake(stakes, Ids(s))
  {
    var ids := Ids(s);
    forall i, j | 0 <= i < j < |ids| ensures StakeOf(stakes, ids[i]) >= StakeOf(stakes, ids[j]) {
      WeightRanksStakes(StakeOf(stakes, s[i].id), StakeOf(stakes, s[j].id));
    }
  }

  /** Weighs every id and sorts: the ids in descending order of stake. */
  method Rank(registered: seq<ValidatorID>, stakes: map<ValidatorID, nat>) returns (ranked: seq<ValidatorID>)
    ensures multiset(ranked) == multiset(registered) && |ranked| == |registered|
    ensures ByStake(stakes, ranked)
  {
    var weighted: seq<Weighted> := [];
    for k := 0 to |registered|
      invariant |weighted| == k && Ids(weighted) == registered[..k]
      invariant Weighs(stakes, weighted)
    {
      var weight := SqrtWeighted(StakeOf(stakes, registered[k]) as real);
      weighted := weighted + [Weighted(registered[k], weight)];
    }
    assert registered[..|registered|] == registered;
    var sorted := SortByWeight(weighted);
    SamePermutedIds(stakes, weighted, sorted);
    DescendingByStake(stakes, sorted);
    ranked := Ids(sorted);
    assert |multiset(ranked)| == |ranked| && |multiset(registered)| == |registered|;
  }

  lemma LeftOutComesLater(ids: seq<ValidatorID>, ranked: seq<ValidatorID>, n: nat, v: ValidatorID)
    requires n <= |ranked| && multiset(ranked) == multiset(ids) && LeftOut(ids, ranked[..n], v)
    ensures exists j :: n <= j < |ranked| && ranked[j] == v
  {
    assert ranked == ranked[..n] + ranked[n..];
    assert v in ranked[n..];
    var j :| 0 <= j < |ranked[n..]| && ranked[n..][j] == v;
    assert ranked[n + j] == v;
  }

  lemma PrefixDominates(stakes: map<ValidatorID, nat>, ids: seq<ValidatorID>, ranked: seq<ValidatorID>, n: nat,
                        a: ValidatorID, v: ValidatorID)
    requires n <= |ranked| && multiset(ranked) == multiset(ids) && ByStake(stakes, ranked)
    requires a in ranked[..n] && LeftOut(ids, ranked[..n], v)
    ensures StakeOf(stakes, v) <= StakeOf(stakes, a)
  {
    LeftOutComesLater(ids, ranked, n, v);
    var i :| 0 <= i < n && ranked[i] == a;
    var j :| n <= j < |ranked| && ranked[j] == v;
  }

  lemma PrefixIsTop(stakes: map<ValidatorID, nat>, ids: seq<ValidatorID>, ranked: seq<ValidatorID>)
    requires multiset(ranked) == multiset(ids) && |ranked| == |ids| && ByStake(stakes, ranked)
    ensures IsTopByStake(ranked[..Seats(|ids|)], ids, stakes)
  {
    hide StakeOf, LeftOut;
    var n := Seats(|ids|);
    assert ranked == ranked[..n] + ranked[n..];
    forall a, v | a in ranked[..n] && LeftOut(ids, ranked[..n], v) ensures StakeOf(stakes, v) <= StakeOf(stakes, a) {
      PrefixDominates(stakes, ids, ranked, n, a, v);
    }
  }

  /** A registry that the four operations can reach fits whole: everyone registered is active. */
  lemma ReachableFits(ops: seq<Op>, active: seq<ValidatorID>)
    requires IsTopByStake(active, Run(ops).ids, Run(ops).stakes)
    ensures multiset(active) == multiset(Run(ops).ids) && |active| == |Run(ops).ids|
  {
    var ids := Run(ops).ids;
    RunIsWellFormed(ops);
    var left := multiset(ids) - multiset(active);
    assert |left| == |ids| - |active|;
    assert multiset(ids) == multiset(active) + left;
  }

  /** In the stakes themselves: at most 200 are selected, in descending order, and nobody registered and not
      selected has more than anyone who is. */
  lemma TopIsLargest(active: seq<ValidatorID>, ids: seq<ValidatorID>, stakes: map<ValidatorID, nat>)
    requires IsTopByStake(active, ids, stakes) && forall v | v in ids :: v in stakes
    ensures |active| == if |ids| < 200 then |ids| else 200
    ensures forall a | a in active :: a in ids
    ensures forall i, j | 0 <= i < j < |active| :: active[i] in stakes && active[j] in stakes
                                                   && stakes[active[i]] >= stakes[active[j]]
    ensures forall a, v | a in active && v in ids && v !in active :: a in stakes && stakes[v] <= stakes[a]
  {
    forall a | a in active ensures a in ids && a in stakes {
      assert a in multiset(active);
      assert a in multiset(ids);
    }
    forall a, v | a in active && v in ids && v !in active ensures stakes[v] <= stakes[a] {
      assert v in multiset(ids) && multiset(active)[v] == 0;
      assert LeftOut(ids, active, v);
    }
  }
}
