/** The oracle aggregator: the median of the reports that are badged and correctly signed. */
module Oracle {
  import opened Bytes
  import opened Prelude
  import opened Sorting

  // ----- the median

  /** The upper median, and 0 of nothing. */
  function Median(vals: seq<nat>): nat {
    if vals == [] then 0
    else
      SortedOrders(vals);
      Sorted(vals)[|vals| / 2]
  }

  /** What the library's sort does to a slice. */
  method SortSlice(a: array<nat>)
    modifies a
    ensures a[..] == Sorted(old(a[..]))
  {
    var s := Sorted(a[..]);
    SortedOrders(a[..]);
    forall i | 0 <= i < a.Length {
      a[i] := s[i];
    }
  }

  /** Only the copy is sorted: the method has no leave to modify its input. */
  method MedianBig(vals: array<nat>) returns (m: nat)
    ensures m == Median(vals[..])
  {
    if vals.Length == 0 {
      return 0;
    }
    var sorted := new nat[vals.Length];
    forall i | 0 <= i < vals.Length {
      sorted[i] := vals[i];
    }
    assert sorted[..] == vals[..];
    SortSlice(sorted);
    SortedOrders(vals[..]);
    assert sorted[..] == Sorted(vals[..]);
    return sorted[..][vals.Length / 2];
  }

  lemma MedianIgnoresOrder(s: seq<nat>, t: seq<nat>)
    requires multiset(s) == multiset(t)
    ensures Median(s) == Median(t)
  {
    SortedIgnoresOrder(s, t);
    SortedOrders(s);
    SortedOrders(t);
  }

  // ----- how many values lie on either side

  datatype Side = AtMost(bound: nat) | AtLeast(bound: nat)

  predicate Lies(side: Side, x: nat) {
    match side
    case AtMost(bound) => x <= bound
    case AtLeast(bound) => x >= bound
  }

  function Count(s: seq<nat>, side: Side): nat {
    if s == [] then 0 else (if Lies(side, s[0]) then 1 else 0) + Count(s[1..], side)
  }

  lemma {:induction false} CountInsert(s: seq<nat>, x: nat, side: Side)
    ensures Count(Insert(s, x), side) == Count(s, side) + if Lies(side, x) then 1 else 0
  {
    if s == [] || x <= s[0] {
      assert ([x] + s)[1..] == s;
    } else {
      CountInsert(s[1..], x, side);
      assert ([s[0]] + Insert(s[1..], x))[1..] == Insert(s[1..], x);
    }
  }

  lemma {:induction false} CountSorted(s: seq<nat>, side: Side)
    ensures Count(Sorted(s), side) == Count(s, side)
  {
    if s != [] {
      CountSorted(s[1..], side);
      CountInsert(Sorted(s[1..]), s[0], side);
    }
  }

  lemma {:induction false} CountSplit(s: seq<nat>, p: nat, side: Side)
    requires p <= |s|
    ensures Count(s, side) == Count(s[..p], side) + Count(s[p..], side)
  {
    if p > 0 {
      CountSplit(s[1..], p - 1, side);
      assert s[..p][1..] == s[1..][..p - 1] && s[p..] == s[1..][p - 1..];
    }
  }

  lemma {:induction false} CountAll(s: seq<nat>, side: Side)
    ensures (forall i | 0 <= i < |s| :: Lies(side, s[i])) ==> Count(s, side) == |s|
    ensures (forall i | 0 <= i < |s| :: !Lies(side, s[i])) ==> Count(s, side) == 0
    ensures Count(s, side) <= |s|
  {
    if s != [] {
      CountAll(s[1..], side);
    }
  }

  /** In an ascending sequence, at least p + 1 values are at most the one at position p, and at most p
      are at most any smaller bound. */
  lemma CountUpTo(t: seq<nat>, p: nat, m: nat)
    requires Ascending(t) && p < |t|
    ensures if m >= t[p] then Count(t, AtMost(m)) >= p + 1 else Count(t, AtMost(m)) <= p
  {
    hide Count;
    var q := if m >= t[p] then p + 1 else p;
    CountSplit(t, q, AtMost(m));
    CountAll(t[..q], AtMost(m));
    CountAll(t[q..], AtMost(m));
  }

  lemma CountDownTo(t: seq<nat>, p: nat, m: nat)
    requires Ascending(t) && p < |t|
    ensures if m <= t[p] then Count(t, AtLeast(m)) >= |t| - p else Count(t, AtLeast(m)) <= |t| - p - 1
  {
    hide Count;
    var q := if m <= t[p] then p else p + 1;
    CountSplit(t, q, AtLeast(m));
    CountAll(t[..q], AtLeast(m));
    CountAll(t[q..], AtLeast(m));
  }

  /** The median without sorting: the one number with more than half of the values, rounded down, at
      most it, and at least half, rounded up, at least it. */
  lemma MedianExactly(s: seq<nat>, m: nat)
    requires s != []
    ensures m == Median(s) <==> Count(s, AtMost(m)) > |s| / 2 && Count(s, AtLeast(m)) >= |s| - |s| / 2
  {
    hide Sorted, Count;
    SortedOrders(s);
    CountSorted(s, AtMost(m));
    CountSorted(s, AtLeast(m));
    CountUpTo(Sorted(s), |s| / 2, m);
    CountDownTo(Sorted(s), |s| / 2, m);
  }

  // ----- faulty values

  /** If every value on one side of m stands at a position in faulty, there are no more of them than
      faulty positions. */
  lemma {:induction false} CountWithin(s: seq<nat>, side: Side, faulty: set<nat>, offset: nat)
    requires forall i | 0 <= i < |s| && Lies(side, s[i]) :: offset + i in faulty
    ensures Count(s, side) <= |faulty|
    decreases |s|
  {
    if s != [] {
      if Lies(side, s[0]) {
        assert offset + 0 in faulty;
        forall i | 0 <= i < |s[1..]| && Lies(side, s[1..][i]) ensures offset + 1 + i in faulty - {offset} {
          assert s[1..][i] == s[i + 1];
          assert offset + (i + 1) in faulty;
        }
        CountWithin(s[1..], side, faulty - {offset}, offset + 1);
      } else {
        forall i | 0 <= i < |s[1..]| && Lies(side, s[1..][i]) ensures offset + 1 + i in faulty {
          assert s[1..][i] == s[i + 1];
          assert offset + (i + 1) in faulty;
        }
        CountWithin(s[1..], side, faulty, offset + 1);
      }
    }
  }

  lemma HonestOnSide(s: seq<nat>, side: Side, faulty: set<nat>) returns (i: nat)
    requires Count(s, side) > |faulty|
    ensures i < |s| && i !in faulty && Lies(side, s[i])
  {
    if forall i | 0 <= i < |s| && Lies(side, s[i]) :: i in faulty {
      forall i | 0 <= i < |s| && Lies(side, s[i]) ensures 0 + i in faulty {
        assert i in faulty;
      }
      CountWithin(s, side, faulty, 0);
      assert false;
    }
    i :| 0 <= i < |s| && Lies(side, s[i]) && i !in faulty;
  }

  predicate Bracketed(s: seq<nat>, faulty: set<nat>, m: nat) {
    && (exists i | 0 <= i < |s| :: i !in faulty && s[i] <= m)
    && (exists i | 0 <= i < |s| :: i !in faulty && s[i] >= m)
  }

  /** With fewer than half of the values faulty, wherever they stand and whatever they are, the median
      lies between two honest values. */
  lemma MedianIsBracketed(s: seq<nat>, faulty: set<nat>)
    requires 2 * |faulty| < |s|
    ensures Bracketed(s, faulty, Median(s))
  {
    hide Median, Count;
    MedianExactly(s, Median(s));
    var i := HonestOnSide(s, AtMost(Median(s)), faulty);
    var j := HonestOnSide(s, AtLeast(Median(s)), faulty);
  }

  function Firsts(n: nat): (s: set<nat>)
    ensures |s| == n && forall i: nat :: i in s <==> i < n
  {
    if n == 0 then {} else Firsts(n - 1) + {n - 1}
  }

  function Ones(n: nat): seq<nat> {
    seq(n, _ => 1)
  }

  function Zeros(n: nat): seq<nat> {
    seq(n, _ => 0)
  }

  /** Half is the exact limit: the bracket is safe against any f faulty values out of k exactly when
      2f < k. From there on, f faulty ones before k - f honest zeros push the median to 1. */
  lemma BracketNeedsMajority(k: nat, f: nat)
    requires f <= k
    ensures (forall s: seq<nat>, faulty: set<nat> | |s| == k && |faulty| == f :: Bracketed(s, faulty, Median(s)))
        <==> 2 * f < k
  {
    if 2 * f < k {
      forall s: seq<nat>, faulty: set<nat> | |s| == k && |faulty| == f ensures Bracketed(s, faulty, Median(s)) {
        MedianIsBracketed(s, faulty);
      }
    } else {
      var s := Ones(f) + Zeros(k - f);
      var faulty := Firsts(f);
      if k > 0 {
        MajorityMedian(k, f);
        assert forall i | 0 <= i < |s| && i !in faulty :: s[i] == 0;
      }
      assert !Bracketed(s, faulty, Median(s));
      assert |s| == k && |faulty| == f;
    }
  }

  lemma MajorityMedian(k: nat, f: nat)
    requires 0 < k <= 2 * f && f <= k
    ensures Median(Ones(f) + Zeros(k - f)) == 1
  {
    var s := Ones(f) + Zeros(k - f);
    CountSplit(s, f, AtLeast(1));
    CountAll(s, AtMost(1));
    assert s[..f] == Ones(f);
    CountAll(Ones(f), AtLeast(1));
    MedianExactly(s, 1);
  }

  // ----- the aggregator

  const RECORD := 160
  const MAX_ORACLES := 10
  const BADGE_LEVEL := 2

  /** Badge levels by address (an unknown account has none), and Ed25519 verification. */
  datatype Environment = Environment(
    level: Bytestring -> nat,
    verifies: (Bytestring, Bytestring, Bytestring) -> bool)

  datatype Report = Report(key: Bytestring, value: Bytestring, dataHash: Bytestring, signature: Bytestring)

  datatype Result<T> = Success(value: T) | EmptyInput | NoOracle | InputTooShort

  function OracleCount(input: Bytestring): nat
    requires input != []
  {
    if input[0] > MAX_ORACLES then MAX_ORACLES else input[0]
  }

  function ReportAt(input: Bytestring, off: nat): Report
    requires off + RECORD <= |input|
  {
    Report(input[off..off + 32], input[off + 32..off + 64], input[off + 64..off + 96], input[off + 96..off + 160])
  }

  lemma RecordFits(input: Bytestring, i: nat, count: nat)
    requires i < count && 1 + count * RECORD <= |input|
    ensures 1 + i * RECORD + RECORD <= |input|
  {
  }

  function Reports(input: Bytestring, n: nat): (r: seq<Report>)
    requires 1 + n * RECORD <= |input|
    ensures |r| == n && forall i | 0 <= i < n :: r[i] == ReportAt(input, 1 + i * RECORD)
  {
    seq(n, i requires 0 <= i < n => ReportAt(input, 1 + i * RECORD))
  }

  /** The account is named by the first 20 bytes of the key; the signature is over the data hash. */
  predicate Accepts(env: Environment, r: Report) {
    |r.key| >= 20 && env.level(r.key[..20]) >= BADGE_LEVEL && env.verifies(r.key, r.dataHash, r.signature)
  }

  /** The positions of the accepted reports, in order. */
  function Accepted(env: Environment, reports: seq<Report>): (r: seq<nat>)
    ensures forall k | 0 <= k < |r| :: r[k] < |reports| && Accepts(env, reports[r[k]])
    ensures StrictlyAscending(r) && |r| <= |reports|
  {
    if reports == [] then []
    else
      var n := |reports| - 1;
      var rest := Accepted(env, reports[..n]);
      if Accepts(env, reports[n]) then rest + [n] else rest
  }

  /** No report that counts is left out. */
  lemma {:induction false} AcceptedIsAll(env: Environment, reports: seq<Report>, i: nat)
    requires i < |reports| && Accepts(env, reports[i])
    ensures i in Accepted(env, reports)
  {
    hide Accepts;
    if i < |reports| - 1 {
      AcceptedIsAll(env, reports[..|reports| - 1], i);
    } else {
      assert Accepted(env, reports)[|Accepted(env, reports)| - 1] == i;
    }
  }

  function Values(env: Environment, reports: seq<Report>): (vals: seq<nat>)
    ensures |vals| == |Accepted(env, reports)|
  {
    var at := Accepted(env, reports);
    seq(|at|, k requires 0 <= k < |at| => Number(reports[at[k]].value))
  }

  lemma ValuesStep(env: Environment, reports: seq<Report>, n: nat)
    requires n < |reports|
    ensures Values(env, reports[..n + 1]) ==
            Values(env, reports[..n]) + if Accepts(env, reports[n]) then [Number(reports[n].value)] else []
  {
    assert reports[..n + 1][..n] == reports[..n];
  }

  lemma NoValues(env: Environment)
    ensures Values(env, []) == []
  {
  }

  /** Accepted reports in percent. */
  function Confidence(verified: nat, count: nat): (percent: Byte)
    requires verified <= count && 0 < count
    ensures percent <= 100
  {
    QuotientBound(verified * 100, count, 100);
    verified * 100 / count
  }

  lemma QuotientBound(x: nat, d: nat, bound: nat)
    requires d > 0 && x <= bound * d
    ensures 0 <= x / d <= bound
  {
  }

  /** Confidence in one byte, then the median in 32. */
  method Answer(values: seq<nat>, count: nat) returns (output: Bytestring)
    requires |values| <= count && 0 < count <= MAX_ORACLES
    requires forall k | 0 <= k < |values| :: values[k] < Pow256(32)
    ensures |output| == 33
    ensures output[0] == Confidence(|values|, count)
    ensures Number(output[1..]) == Median(values)
  {
    hide Number, Median, Pow256, Confidence, BigEndian;
    var confidence := Confidence(|values|, count);
    var slots := new nat[|values|];
    forall k | 0 <= k < |values| {
      slots[k] := values[k];
    }
    assert slots[..] == values;
    var m := MedianBig(slots);
    MedianIsOneOf(values);
    PositivePower(32);
    NumberOfBigEndian(m, 32);
    output := [confidence] + BigEndian(m, 32);
    assert output[1..] == BigEndian(m, 32);
  }

  lemma PositivePower(k: nat)
    ensures Pow256(k) > 0
  {
  }

  method VerifyReport(env: Environment, report: Report) returns (ok: bool)
    requires |report.key| >= 20
    ensures ok == Accepts(env, report)
  {
    if env.level(report.key[..20]) < BADGE_LEVEL {
      return false;
    }
    ok := env.verifies(report.key, report.dataHash, report.signature);
  }

  /** The values of the reports that pass, in the order of the input. */
  method Collect(env: Environment, input: Bytestring, count: nat) returns (values: seq<nat>)
    requires 1 + count * RECORD <= |input|
    ensures values == Values(env, Reports(input, count)) && |values| <= count
    ensures forall k | 0 <= k < |values| :: values[k] < Pow256(32)
  {
    hide Values, Accepted, Accepts, Number, Pow256;
    ghost var reports := Reports(input, count);
    NoValues(env);
    values := [];
    var off := 1;
    for i := 0 to count
      invariant off == 1 + i * RECORD
      invariant values == Values(env, reports[..i]) && |values| <= i
      invariant forall k | 0 <= k < |values| :: values[k] < Pow256(32)
    {
      RecordFits(input, i, count);
      var report := ReportAt(input, off);
      assert report == reports[i];
      off := off + RECORD;
      ValuesStep(env, reports, i);
      var ok := VerifyReport(env, report);
      if !ok {
        continue;
      }
      NumberFits(report.value);
      values := values + [Number(report.value)];
    }
    assert reports[..count] == reports;
  }

  method OracleAggregator(env: Environment, input: Bytestring) returns (r: Result<Bytestring>)
    ensures r.EmptyInput? <==> input == []
    ensures r.NoOracle? <==> input != [] && input[0] == 0
    ensures r.InputTooShort? <==> input != [] && input[0] > 0 && |input| < 1 + OracleCount(input) * RECORD
    ensures r.Success? ==>
              var count := OracleCount(input);
              var vals := Values(env, Reports(input, count));
              && |r.value| == 33
              && r.value[0] == Confidence(|vals|, count)
              && Number(r.value[1..]) == Median(vals)
  {
    if |input| < 1 {
      return EmptyInput;
    }
    var count: nat := input[0];
    if count < 1 {
      return NoOracle;
    }
    if count > 10 {
      count := 10;
    }
    if |input| < 1 + count * RECORD {
      return InputTooShort;
    }
    hide Values, Median, Number, Pow256, Confidence;
    var values := Collect(env, input, count);
    var output := Answer(values, count);
    r := Success(output);
  }

  lemma MedianIsOneOf(vals: seq<nat>)
    ensures if vals == [] then Median(vals) == 0 else Median(vals) in vals
  {
    if vals != [] {
      SortedOrders(vals);
      assert Sorted(vals)[|vals| / 2] in multiset(Sorted(vals));
    }
  }

  function Positions(at: seq<nat>, faulty: set<nat>): (p: set<nat>)
    ensures forall k: nat :: k in p <==> k < |at| && at[k] in faulty
  {
    if at == [] then {}
    else
      var n := |at| - 1;
      Positions(at[..n], faulty) + if at[n] in faulty then {n} else {}
  }

  lemma {:induction false} FewPositions(at: seq<nat>, faulty: set<nat>)
    requires StrictlyAscending(at)
    ensures |Positions(at, faulty)| <= |faulty|
  {
    if at != [] {
      var n := |at| - 1;
      var rest := at[..n];
      FewPositions(rest, faulty - {at[n]});
      assert forall k | 0 <= k < n :: rest[k] != at[n];
      assert Positions(rest, faulty) == Positions(rest, faulty - {at[n]});
      assert n !in Positions(rest, faulty);
    }
  }

  lemma HonestReport(env: Environment, reports: seq<Report>, side: Side, faulty: set<nat>) returns (i: nat)
    requires Count(Values(env, reports), side) > |faulty|
    ensures i < |reports| && i !in faulty && Accepts(env, reports[i]) && Lies(side, Number(reports[i].value))
  {
    hide Count, Number, Accepts;
    var at := Accepted(env, reports);
    FewPositions(at, faulty);
    var k := HonestOnSide(Values(env, reports), side, Positions(at, faulty));
    i := at[k];
  }

  /** Among the accepted reports, if fewer than half come from faulty oracles, the aggregate lies
      between the values of two accepted reports of honest ones. */
  lemma AggregateIsBracketed(env: Environment, reports: seq<Report>, faulty: set<nat>) returns (i: nat, j: nat)
    requires 2 * |faulty| < |Accepted(env, reports)|
    ensures i < |reports| && i !in faulty && Accepts(env, reports[i])
    ensures j < |reports| && j !in faulty && Accepts(env, reports[j])
    ensures Number(reports[i].value) <= Median(Values(env, reports)) <= Number(reports[j].value)
  {
    hide Median, Number, Count, Accepts;
    var vals := Values(env, reports);
    MedianExactly(vals, Median(vals));
    i := HonestReport(env, reports, AtMost(Median(vals)), faulty);
    j := HonestReport(env, reports, AtLeast(Median(vals)), faulty);
  }

  // ----- faulty keys

  /** No key has two accepted reports. The aggregator does not see to this. */
  predicate OnePerKey(env: Environment, reports: seq<Report>) {
    forall i, j | 0 <= i < j < |reports| && Accepts(env, reports[i]) && Accepts(env, reports[j]) ::
      reports[i].key != reports[j].key
  }

  /** Where the accepted reports of some keys stand. */
  function FromKeys(env: Environment, reports: seq<Report>, keys: set<Bytestring>): (p: set<nat>)
    ensures forall i: nat :: i in p <==> i < |reports| && Accepts(env, reports[i]) && reports[i].key in keys
  {
    if reports == [] then {}
    else
      var n := |reports| - 1;
      FromKeys(env, reports[..n], keys) + if Accepts(env, reports[n]) && reports[n].key in keys then {n} else {}
  }

  lemma {:induction false} FewFromKeys(env: Environment, reports: seq<Report>, keys: set<Bytestring>)
    requires OnePerKey(env, reports)
    ensures |FromKeys(env, reports, keys)| <= |keys|
  {
    hide Accepts, FromKeys, OnePerKey;
    if reports == [] {
      NoneFromKeys(env, keys);
    } else {
      var n := |reports| - 1;
      var rest, r := reports[..n], reports[n];
      var fewer := if Accepts(env, r) then keys - {r.key} else keys;
      LastFromKeys(env, reports, keys);
      FewFromKeys(env, rest, fewer);
    }
  }

  lemma NoneFromKeys(env: Environment, keys: set<Bytestring>)
    ensures FromKeys(env, [], keys) == {}
  {
  }

  lemma LastFromKeys(env: Environment, reports: seq<Report>, keys: set<Bytestring>)
    requires reports != [] && OnePerKey(env, reports)
    ensures var n := |reports| - 1;
            var rest, r := reports[..n], reports[n];
            OnePerKey(env, rest)
            && FromKeys(env, reports, keys)
               == FromKeys(env, rest, if Accepts(env, r) then keys - {r.key} else keys)
                  + if Accepts(env, r) && r.key in keys then {n} else {}
  {
    hide Accepts;
    var n := |reports| - 1;
    var rest, r := reports[..n], reports[n];
    var fewer := if Accepts(env, r) then keys - {r.key} else keys;
    assert forall i | 0 <= i < n :: rest[i] == reports[i];
    forall i | 0 <= i < n ensures i in FromKeys(env, rest, keys) <==> i in FromKeys(env, rest, fewer) {
    }
    assert FromKeys(env, rest, keys) == FromKeys(env, rest, fewer);
  }

  /** While every key reports once, the bound may count faulty keys: with fewer of them than half of the
      accepted reports, the aggregate lies between two accepted reports of other keys. */
  lemma KeysBracketAggregate(env: Environment, reports: seq<Report>, faulty: set<Bytestring>)
    requires OnePerKey(env, reports) && 2 * |faulty| < |Accepted(env, reports)|
    ensures KeysBracketed(env, reports, faulty)
  {
    hide Median, Number, Accepts, Accepted, Values, OnePerKey;
    FewFromKeys(env, reports, faulty);
    var i, j := AggregateIsBracketed(env, reports, FromKeys(env, reports, faulty));
    assert HonestKey(env, reports, faulty, i) && HonestKey(env, reports, faulty, j);
  }

  predicate HonestKey(env: Environment, reports: seq<Report>, faulty: set<Bytestring>, i: nat) {
    i < |reports| && Accepts(env, reports[i]) && reports[i].key !in faulty
  }

  ghost predicate KeysBracketed(env: Environment, reports: seq<Report>, faulty: set<Bytestring>) {
    exists i: nat, j: nat :: HonestKey(env, reports, faulty, i) && HonestKey(env, reports, faulty, j)
      && Number(reports[i].value) <= Median(Values(env, reports)) <= Number(reports[j].value)
  }

  // ----- and why each key must report once

  const WORD := 32

  /** The same reports, with whatever values. */
  predicate Revalued(reports: seq<Report>, other: seq<Report>) {
    && |other| == |reports|
    && forall i | 0 <= i < |reports| :: |other[i].value| == WORD && other[i] == reports[i].(value := other[i].value)
  }

  /** Whatever the values are, and whichever keys are faulty, fewer of them than half of the accepted
      reports leave the aggregate between two reports of other keys. */
  ghost predicate SafeByKeys(env: Environment, reports: seq<Report>) {
    forall other: seq<Report>, faulty: set<Bytestring> |
        Revalued(reports, other) && 2 * |faulty| < |Accepted(env, reports)| ::
      KeysBracketed(env, other, faulty)
  }

  /** Adding up to m keys to some adds at least m of their reports, or all there are. */
  lemma {:induction false} MoreKeys(env: Environment, reports: seq<Report>, keys: set<Bytestring>, m: nat)
    returns (more: set<Bytestring>)
    ensures |more| <= |keys| + m
    ensures |FromKeys(env, reports, more)| >= |FromKeys(env, reports, keys)| + m || Exhausts(env, reports, more)
    decreases m
  {
    hide Accepts, FromKeys;
    if m == 0 || Exhausts(env, reports, keys) {
      more := keys;
    } else {
      var i :| 0 <= i < |reports| && Accepts(env, reports[i]) && reports[i].key !in keys;
      var larger := keys + {reports[i].key};
      AddingGrows(FromKeys(env, reports, keys), FromKeys(env, reports, larger), i);
      more := MoreKeys(env, reports, larger, m - 1);
    }
  }

  predicate Exhausts(env: Environment, reports: seq<Report>, keys: set<Bytestring>) {
    forall i | 0 <= i < |reports| && Accepts(env, reports[i]) :: reports[i].key in keys
  }

  lemma AddingGrows(s: set<nat>, t: set<nat>, i: nat)
    requires s <= t && i in t && i !in s
    ensures |t| > |s|
  {
    SubsetIsSmaller(s + {i}, t);
  }

  lemma {:induction false} SubsetIsSmaller(s: set<nat>, t: set<nat>)
    requires s <= t
    ensures |s| <= |t|
  {
    if x :| x in s {
      SubsetIsSmaller(s - {x}, t - {x});
    }
  }

  /** One for the accepted reports of some keys, zero for all others. */
  function Flag(env: Environment, r: Report, keys: set<Bytestring>): nat {
    if Accepts(env, r) && r.key in keys then 1 else 0
  }

  function Flagged(env: Environment, reports: seq<Report>, keys: set<Bytestring>): (other: seq<Report>)
    ensures Revalued(reports, other)
    ensures forall i | 0 <= i < |reports| :: Number(other[i].value) == Flag(env, reports[i], keys)
  {
    if reports == [] then []
    else
      var r := reports[|reports| - 1];
      FlagFits(env, r, keys);
      Flagged(env, reports[..|reports| - 1], keys) + [r.(value := BigEndian(Flag(env, r, keys), WORD))]
  }

  lemma FlagFits(env: Environment, r: Report, keys: set<Bytestring>)
    ensures Number(BigEndian(Flag(env, r, keys), WORD)) == Flag(env, r, keys)
  {
    NumberOfBigEndian(Flag(env, r, keys), WORD);
    FitsWord();
  }

  lemma FitsWord()
    ensures Pow256(WORD) > 1
  {
    assert Pow256(WORD) == 256 * Pow256(WORD - 1);
  }

  lemma CountLast(s: seq<nat>, x: nat, side: Side)
    ensures Count(s + [x], side) == Count(s, side) + if Lies(side, x) then 1 else 0
  {
    CountSplit(s + [x], |s|, side);
    assert (s + [x])[..|s|] == s && (s + [x])[|s|..] == [x];
    assert Count([x], side) == if Lies(side, x) then 1 else 0;
  }

  lemma FlaggedStep(env: Environment, reports: seq<Report>, keys: set<Bytestring>)
    requires reports != []
    ensures var rest, r := reports[..|reports| - 1], reports[|reports| - 1];
            var vals := Values(env, Flagged(env, rest, keys));
            Values(env, Flagged(env, reports, keys)) == if Accepts(env, r) then vals + [Flag(env, r, keys)] else vals
  {
    hide Number, BigEndian, Flag, Values;
    var n := |reports| - 1;
    var other := Flagged(env, reports, keys);
    ValuesStep(env, other, n);
    assert other[..n] == Flagged(env, reports[..n], keys) && other[..n + 1] == other;
    assert other[n] == reports[n].(value := other[n].value);
  }

  lemma AcceptedStep(env: Environment, reports: seq<Report>, keys: set<Bytestring>)
    requires reports != []
    ensures var rest, r := reports[..|reports| - 1], reports[|reports| - 1];
            && |Accepted(env, reports)| == |Accepted(env, rest)| + (if Accepts(env, r) then 1 else 0)
            && |FromKeys(env, reports, keys)| == |FromKeys(env, rest, keys)| + Flag(env, r, keys)
  {
    hide Accepts;
    assert |reports| - 1 !in FromKeys(env, reports[..|reports| - 1], keys);
  }

  /** So the values of the flagged reports are as many ones as there are reports of those keys. */
  lemma {:induction false} OnesAreFlagged(env: Environment, reports: seq<Report>, keys: set<Bytestring>)
    ensures Count(Values(env, Flagged(env, reports, keys)), AtLeast(1)) == |FromKeys(env, reports, keys)|
    ensures Count(Values(env, Flagged(env, reports, keys)), AtMost(1)) == |Accepted(env, reports)|
    ensures |Values(env, Flagged(env, reports, keys))| == |Accepted(env, reports)|
  {
    hide Accepts, Number, Values, Flagged, Accepted, FromKeys, Count;
    if reports == [] {
      NothingFlagged(env, keys);
    } else {
      var rest, r := reports[..|reports| - 1], reports[|reports| - 1];
      OnesAreFlagged(env, rest, keys);
      FlaggedStep(env, reports, keys);
      AcceptedStep(env, reports, keys);
      CountLast(Values(env, Flagged(env, rest, keys)), Flag(env, r, keys), AtLeast(1));
      CountLast(Values(env, Flagged(env, rest, keys)), Flag(env, r, keys), AtMost(1));
    }
  }

  lemma NothingFlagged(env: Environment, keys: set<Bytestring>)
    ensures Values(env, Flagged(env, [], keys)) == [] && Count([], AtLeast(1)) == 0 && Count([], AtMost(1)) == 0
    ensures Accepted(env, []) == [] && FromKeys(env, [], keys) == {}
  {
  }

  /** Keys with at least half of the accepted reports can put the aggregate above all others. */
  lemma FlaggedIsUnbracketed(env: Environment, reports: seq<Report>, keys: set<Bytestring>)
    requires 0 < |Accepted(env, reports)| <= 2 * |FromKeys(env, reports, keys)|
    ensures !KeysBracketed(env, Flagged(env, reports, keys), keys)
  {
    hide Number, Values, FromKeys, Accepted, Count, Median;
    var other := Flagged(env, reports, keys);
    OnesAreFlagged(env, reports, keys);
    MedianExactly(Values(env, other), 1);
    forall j: nat | HonestKey(env, other, keys, j) ensures Number(other[j].value) == 0 {
      assert other[j] == reports[j].(value := other[j].value);
    }
  }

  lemma ExhaustedIsUnbracketed(env: Environment, reports: seq<Report>, keys: set<Bytestring>)
    requires Exhausts(env, reports, keys)
    ensures !KeysBracketed(env, Flagged(env, reports, keys), keys)
  {
    hide Number, Values, Median;
    var other := Flagged(env, reports, keys);
    forall j: nat | j < |reports| ensures !HonestKey(env, other, keys, j) {
      assert other[j] == reports[j].(value := other[j].value);
    }
  }

  /** A bound on faulty keys is safe exactly while each key reports once, or there are no more than two
      accepted reports to speak of. */
  lemma SafeByKeysExactly(env: Environment, reports: seq<Report>)
    ensures SafeByKeys(env, reports) <==> OnePerKey(env, reports) || |Accepted(env, reports)| <= 2
  {
    hide Accepts, Accepted, FromKeys, Flagged, KeysBracketed, Revalued, Exhausts;
    if OnePerKey(env, reports) || |Accepted(env, reports)| <= 2 {
      forall other: seq<Report>, faulty: set<Bytestring> |
          Revalued(reports, other) && 2 * |faulty| < |Accepted(env, reports)|
        ensures KeysBracketed(env, other, faulty)
      {
        RevaluedAlike(env, reports, other);
        if OnePerKey(env, reports) {
          KeysBracketAggregate(env, other, faulty);
        } else {
          FewAreBracketed(env, other, faulty);
        }
      }
    } else {
      RepeatedKeyBreaks(env, reports);
    }
  }

  lemma RevaluedAlike(env: Environment, reports: seq<Report>, other: seq<Report>)
    requires Revalued(reports, other)
    ensures Accepted(env, other) == Accepted(env, reports)
    ensures OnePerKey(env, other) <==> OnePerKey(env, reports)
  {
    ValuesAreNotSigned(env, reports, other);
    assert forall i | 0 <= i < |reports| :: other[i] == reports[i].(value := other[i].value);
    assert forall i | 0 <= i < |reports| ::
        Accepts(env, other[i]) == Accepts(env, reports[i]) && other[i].key == reports[i].key;
  }

  lemma FewAreBracketed(env: Environment, reports: seq<Report>, faulty: set<Bytestring>)
    requires 2 * |faulty| < |Accepted(env, reports)| <= 2
    ensures KeysBracketed(env, reports, faulty)
  {
    hide Accepts, Accepted, Median, Number, Values;
    assert faulty == {};
    var i, j := AggregateIsBracketed(env, reports, {});
    assert HonestKey(env, reports, faulty, i) && HonestKey(env, reports, faulty, j);
  }

  lemma RepeatedKeyBreaks(env: Environment, reports: seq<Report>)
    requires !OnePerKey(env, reports) && |Accepted(env, reports)| > 2
    ensures !SafeByKeys(env, reports)
  {
    hide Accepts, Accepted, FromKeys, Flagged, KeysBracketed, Revalued, Exhausts;
    var n := |Accepted(env, reports)|;
    var i, j :| 0 <= i < j < |reports| && Accepts(env, reports[i]) && Accepts(env, reports[j])
                && reports[i].key == reports[j].key;
    SubsetIsSmaller({i, j}, FromKeys(env, reports, {reports[i].key}));
    var faulty := MoreKeys(env, reports, {reports[i].key}, (n - 1) / 2 - 1);
    assert Revalued(reports, Flagged(env, reports, faulty));
    if Exhausts(env, reports, faulty) {
      ExhaustedIsUnbracketed(env, reports, faulty);
    } else {
      FlaggedIsUnbracketed(env, reports, faulty);
    }
  }

  /** Without that, one key decides: an accepted report that is repeated more often than there are
      other reports is the aggregate, whatever the others say. */
  lemma RepeatedKeyDecides(env: Environment, r: Report, k: nat, others: seq<Report>)
    requires Accepts(env, r) && k > |others|
    ensures Median(Values(env, seq(k, _ => r) + others)) == Number(r.value)
  {
    hide Median, Number, Accepts, Accepted, Count, Values;
    var same := seq(k, _ => r);
    var m := Number(r.value);
    ValuesConcat(env, same, others);
    RepeatedValues(env, r, k);
    FewValues(env, others);
    var vals, rest := Values(env, same + others), Values(env, others);
    assert vals[..k] == seq(k, _ => m);
    CountSplit(vals, k, AtMost(m));
    CountSplit(vals, k, AtLeast(m));
    CountAll(vals[..k], AtMost(m));
    CountAll(vals[..k], AtLeast(m));
    MedianExactly(vals, m);
  }

  lemma FewValues(env: Environment, reports: seq<Report>)
    ensures |Values(env, reports)| <= |reports|
  {
  }

  lemma {:induction false} RepeatedValues(env: Environment, r: Report, k: nat)
    requires Accepts(env, r)
    ensures Values(env, seq(k, _ => r)) == seq(k, _ => Number(r.value))
  {
    hide Number, Accepts, Accepted, Values;
    var same := seq(k, _ => r);
    if k == 0 {
      assert same == [];
      NoValues(env);
    } else {
      RepeatedValues(env, r, k - 1);
      ValuesStep(env, same, k - 1);
      assert same[..k - 1] == seq(k - 1, _ => r) && same[..k - 1 + 1] == same;
    }
  }

  // ----- the order of the reports

  lemma {:induction false} ValuesConcat(env: Environment, a: seq<Report>, b: seq<Report>)
    ensures Values(env, a + b) == Values(env, a) + Values(env, b)
  {
    hide Values, Accepted, Accepts;
    var all := a + b;
    if b == [] {
      assert a + b == a;
      NoValues(env);
    } else {
      var n := |b| - 1;
      ValuesConcat(env, a, b[..n]);
      ValuesStep(env, all, |all| - 1);
      ValuesStep(env, b, n);
      assert all[..|all| - 1] == a + b[..n] && all[..|all|] == all && b[..n + 1] == b;
    }
  }

  function WithoutAt(s: seq<Report>, j: nat): seq<Report>
    requires j < |s|
  {
    s[..j] + s[j + 1..]
  }

  /** What one report adds, wherever it stands. */
  lemma ValuesAt(env: Environment, s: seq<Report>, j: nat)
    requires j < |s|
    ensures multiset(WithoutAt(s, j)) == multiset(s) - multiset{s[j]}
    ensures multiset(Values(env, s)) == multiset(Values(env, WithoutAt(s, j))) + multiset(Values(env, [s[j]]))
  {
    hide Accepted, Values, Accepts;
    assert s == s[..j] + ([s[j]] + s[j + 1..]);
    ValuesConcat(env, s[..j], [s[j]] + s[j + 1..]);
    ValuesConcat(env, [s[j]], s[j + 1..]);
    ValuesConcat(env, s[..j], s[j + 1..]);
  }

  lemma {:induction false} ValuesFollow(env: Environment, a: seq<Report>, b: seq<Report>)
    requires multiset(a) == multiset(b)
    ensures multiset(Values(env, a)) == multiset(Values(env, b))
    decreases |a|
  {
    hide Accepted, Values, Accepts, WithoutAt;
    if a == [] {
      assert |multiset(b)| == 0;
    } else {
      assert a[0] in multiset(b);
      var j :| 0 <= j < |b| && b[j] == a[0];
      ValuesAt(env, a, 0);
      ValuesAt(env, b, j);
      ShorterWithout(a, 0);
      ValuesFollow(env, WithoutAt(a, 0), WithoutAt(b, j));
    }
  }

  lemma ShorterWithout(s: seq<Report>, j: nat)
    requires j < |s|
    ensures |WithoutAt(s, j)| == |s| - 1
  {
  }

  /** The aggregate does not depend on the order in which the reports are listed. */
  lemma AggregateIgnoresOrder(env: Environment, a: seq<Report>, b: seq<Report>)
    requires multiset(a) == multiset(b)
    ensures Median(Values(env, a)) == Median(Values(env, b)) && |Values(env, a)| == |Values(env, b)|
  {
    ValuesFollow(env, a, b);
    MedianIgnoresOrder(Values(env, a), Values(env, b));
    assert |multiset(Values(env, a))| == |multiset(Values(env, b))|;
  }

  /** Which reports are accepted does not depend on their values: the signature is over the data hash
      alone, so equal keys, hashes and signatures are accepted alike whatever value they come with. */
  lemma {:induction false} ValuesAreNotSigned(env: Environment, a: seq<Report>, b: seq<Report>)
    requires |a| == |b|
    requires forall i | 0 <= i < |a| :: b[i] == a[i].(value := b[i].value)
    ensures Accepted(env, a) == Accepted(env, b)
  {
    if a != [] {
      ValuesAreNotSigned(env, a[..|a| - 1], b[..|b| - 1]);
    }
  }

  // ----- the input's layout

  /** A report as its 160 bytes: the key, the value, the hash of its data and the signature over the hash. */
  function Printed(r: Report): Bytestring {
    r.key + r.value + r.dataHash + r.signature
  }

  function PrintedAll(reports: seq<Report>): Bytestring {
    if reports == [] then [] else PrintedAll(reports[..|reports| - 1]) + Printed(reports[|reports| - 1])
  }

  predicate Sized(r: Report) {
    |r.key| == 32 && |r.value| == 32 && |r.dataHash| == 32 && |r.signature| == 64
  }

  lemma {:induction false} PrintedSize(reports: seq<Report>)
    requires forall r | r in reports :: Sized(r)
    ensures |PrintedAll(reports)| == 160 * |reports|
  {
    if reports != [] {
      PrintedSize(reports[..|reports| - 1]);
      assert Sized(reports[|reports| - 1]);
    }
  }

  /** The aggregator reads back exactly the reports that were printed, whatever the count byte and whatever
      follows them. */
  lemma {:induction false} ReadsWhatIsPrinted(count: Byte, reports: seq<Report>, rest: Bytestring)
    requires forall r | r in reports :: Sized(r)
    ensures |PrintedAll(reports)| == 160 * |reports|
    ensures Reports([count] + PrintedAll(reports) + rest, |reports|) == reports
  {
    PrintedSize(reports);
    if reports != [] {
      hide Reports;
      var n := |reports| - 1;
      var front, last := reports[..n], reports[n];
      var input := [count] + PrintedAll(reports) + rest;
      ReadsWhatIsPrinted(count, front, Printed(last) + rest);
      PrintedSize(front);
      assert Sized(last);
      assert input == [count] + PrintedAll(front) + (Printed(last) + rest);
      ReportIsPrinted(input, 1 + 160 * n, last, rest);
      ReportsGrow(input, n);
      assert reports == front + [last];
    } else {
      NoReports([count] + PrintedAll(reports) + rest);
    }
  }

  lemma NoReports(input: Bytestring)
    requires |input| >= 1
    ensures Reports(input, 0) == []
  {
  }

  lemma ReportsGrow(input: Bytestring, n: nat)
    requires 1 + (n + 1) * RECORD <= |input|
    ensures 1 + n * RECORD + RECORD <= |input|
    ensures Reports(input, n + 1) == Reports(input, n) + [ReportAt(input, 1 + n * RECORD)]
  {
  }

  lemma ReportIsPrinted(input: Bytestring, off: nat, r: Report, rest: Bytestring)
    requires Sized(r) && off + 160 <= |input| && input[off..] == Printed(r) + rest
    ensures ReportAt(input, off) == r
  {
    var s := Printed(r) + rest;
    assert input[off..off + 32] == input[off..][..32] == s[..32] == r.key;
    assert input[off + 32..off + 64] == input[off..][32..64] == s[32..64] == r.value;
    assert input[off + 64..off + 96] == input[off..][64..96] == s[64..96] == r.dataHash;
    assert input[off + 96..off + 160] == input[off..][96..160] == s[96..160] == r.signature;
  }

  /** Whether a report counts depends on its key, data hash and signature and not on its value; it needs an
      account of level two or more, named by the first 20 bytes of the key. */
  lemma CountsExactly(env: Environment, r: Report)
    requires Sized(r)
    ensures Accepts(env, r) <==> env.level(r.key[0..20]) >= 2 && env.verifies(r.key, r.dataHash, r.signature)
  {
  }

  /** No more than ten reports are read. */
  lemma CountIsCapped(input: Bytestring)
    requires input != []
    ensures OracleCount(input) <= 10 && (OracleCount(input) == input[0] <==> input[0] <= 10)
    ensures input[0] > 10 ==> OracleCount(input) == 10
  {
  }

  /** The confidence is the accepted share in percent, rounded down; it is 100 exactly if all count. */
  lemma ConfidenceIsShare(verified: nat, count: nat)
    requires verified <= count && 0 < count
    ensures var percent := Confidence(verified, count);
            percent * count <= 100 * verified < (percent + 1) * count && (percent == 100 <==> verified == count)
  {
    hide Confidence;
    ConfidenceBelow(verified, count, Confidence(verified, count));
    ConfidenceBelow(verified, count, Confidence(verified, count) + 1);
    ConfidenceBelow(verified, count, 100);
  }

  lemma ConfidenceBelow(verified: nat, count: nat, percent: nat)
    requires verified <= count && 0 < count
    ensures Confidence(verified, count) < percent <==> 100 * verified < percent * count
  {
    QuotientBelow(verified * 100, count, percent);
  }
}
