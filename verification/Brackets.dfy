/** Marginal reward brackets, in exact hundredths of a token. */
module Brackets {
  import V = Validators

  /** rate is the percentage paid on the tokens of the bracket; maxStake 0 means unlimited. */
  datatype Bracket = Bracket(minStake: nat, maxStake: nat, rate: nat)

  const BRACKETS: seq<Bracket> := [
    Bracket(1, 1_001, 15),
    Bracket(1_001, 10_001, 8),
    Bracket(10_001, 100_001, 4),
    Bracket(100_001, 1_000_001, 2),
    Bracket(1_000_001, 0, 1)
  ]

  const MIN_STAKE := V.MIN_STAKE

  function Min(a: int, b: int): int {
    if a < b then a else b
  }

  function Max(a: int, b: int): int {
    if a < b then b else a
  }

  /** The part of stake between two cuts. */
  function Between(stake: nat, low: nat, high: nat): int {
    Max(0, Min(stake, high) - low)
  }

  /** The schedule as a formula: the first bracket holds 1,001 tokens. */
  function Hundredths(stake: nat): int {
    15 * Between(stake, 0, 1_001)
    + 8 * Between(stake, 1_001, 10_001)
    + 4 * Between(stake, 10_001, 100_001)
    + 2 * Between(stake, 100_001, 1_000_001)
    + Max(0, stake - 1_000_001)
  }

  function Cutoff(stake: nat, reward: int): int {
    if stake < MIN_STAKE then 0 else reward
  }

  /** The annual reward before it is floored to whole tokens. */
  function AnnualHundredths(stake: nat): int {
    Cutoff(stake, Hundredths(stake))
  }

  function Reward(stake: nat): nat {
    AnnualHundredths(stake) / 100
  }

  /** Where bracket i starts, and what the first i brackets pay. */
  function Cut(i: nat): nat {
    if i == 0 then 0 else if i == 1 then 1_001 else if i == 2 then 10_001 else if i == 3 then 100_001 else 1_000_001
  }

  function FirstBrackets(stake: nat, i: nat): int
    requires i <= 5
  {
    if i == 0 then 0
    else if i == 5 then FirstBrackets(stake, 4) + Max(0, stake - Cut(4))
    else FirstBrackets(stake, i - 1) + BRACKETS[i - 1].rate * Between(stake, Cut(i - 1), Cut(i))
  }

  lemma BracketsAddUp(stake: nat, i: nat)
    requires i <= 5
    ensures FirstBrackets(stake, 5) == Hundredths(stake)
    ensures stake <= Cut(i) ==> FirstBrackets(stake, i) == Hundredths(stake)
  {
    assert FirstBrackets(stake, 1) == 15 * Between(stake, 0, 1_001);
    assert FirstBrackets(stake, 2) == FirstBrackets(stake, 1) + 8 * Between(stake, 1_001, 10_001);
    assert FirstBrackets(stake, 3) == FirstBrackets(stake, 2) + 4 * Between(stake, 10_001, 100_001);
    assert FirstBrackets(stake, 4) == FirstBrackets(stake, 3) + 2 * Between(stake, 100_001, 1_000_001);
  }

  /** The bracket loop; an unlimited bracket is one that takes all that remains. */
  method CalculateReward(stake: nat) returns (reward: nat)
    ensures reward == Reward(stake)
  {
    if stake < MIN_STAKE {
      return 0;
    }
    hide FirstBrackets, Reward;
    NoBrackets(stake);
    var annualReward, remaining, lowerBound := 0, stake as int, 0;
    var i := 0;
    while i < |BRACKETS|
      invariant 0 <= i <= 5
      invariant i < 5 ==> lowerBound == Cut(i)
      invariant remaining == if i == 5 then 0 else Max(0, stake - Cut(i))
      invariant annualReward == FirstBrackets(stake, i)
    {
      if remaining <= 0 {
        break;
      }
      var bracket := BRACKETS[i];
      var upperBound := if bracket.maxStake == 0 then lowerBound + remaining else bracket.maxStake;
      if i == 0 {
        lowerBound := bracket.minStake - 1;
      }
      var bracketSize := upperBound - lowerBound;
      var tokensInBracket := Min(remaining, bracketSize);
      if tokensInBracket <= 0 {
        break;
      }
      NextBracket(stake, i);
      annualReward := annualReward + tokensInBracket * bracket.rate;
      remaining := remaining - tokensInBracket;
      lowerBound := upperBound;
      i := i + 1;
    }
    BracketsAddUp(stake, i);
    RewardIs(stake);
    return annualReward / 100;
  }

  lemma NoBrackets(stake: nat)
    ensures FirstBrackets(stake, 0) == 0
  {
  }

  /** Bracket i pays its rate on what remains, up to its size; the last one has none. */
  lemma NextBracket(stake: nat, i: nat)
    requires i < 5 && stake > Cut(i)
    ensures var remaining := stake - Cut(i);
            FirstBrackets(stake, i + 1) == FirstBrackets(stake, i)
              + BRACKETS[i].rate * if i == 4 then remaining else Min(remaining, Cut(i + 1) - Cut(i))
  {
  }

  lemma RewardIs(stake: nat)
    requires stake >= MIN_STAKE
    ensures Reward(stake) == Hundredths(stake) / 100
  {
  }

  // ----- the shape of the schedule

  /** Line i is bracket i's rate, extended to every stake. */
  function Rate(i: nat): nat
    requires i < 5
  {
    BRACKETS[i].rate
  }

  function Offset(i: nat): nat
    requires i < 5
  {
    if i == 0 then 0 else if i == 1 then 7_007 else if i == 2 then 47_011 else if i == 3 then 247_013 else 1_247_014
  }

  function LineOf(stake: nat): (i: nat)
    ensures i < 5
  {
    if stake <= 1_001 then 0 else if stake <= 10_001 then 1 else if stake <= 100_001 then 2
    else if stake <= 1_000_001 then 3 else 4
  }

  /** The schedule is the lower envelope of its five lines: concave, and zero at zero. */
  lemma LowerEnvelope(stake: nat, i: nat)
    requires i < 5
    ensures Hundredths(stake) <= Rate(i) * stake + Offset(i)
    ensures Hundredths(stake) == Rate(LineOf(stake)) * stake + Offset(LineOf(stake))
  {
    if i == 0 {
      assert Rate(i) == 15;
    } else if i == 1 {
      assert Rate(i) == 8;
    } else if i == 2 {
      assert Rate(i) == 4;
    } else if i == 3 {
      assert Rate(i) == 2;
    } else {
      assert Rate(i) == 1;
    }
  }

  lemma HundredthsRise(a: nat, b: nat)
    ensures a < b <==> Hundredths(a) < Hundredths(b)
  {
  }

  /** More stake never earns less. */
  lemma RewardIsMonotone(a: nat, b: nat)
    requires a <= b
    ensures AnnualHundredths(a) <= AnnualHundredths(b) && Reward(a) <= Reward(b)
  {
  }

  lemma CutoffSplits(a: nat, b: nat, ra: int, rb: int, rab: int)
    requires rab <= ra + rb && 0 <= ra && 0 <= rb && (0 < a + b ==> 0 < rab)
    requires if b == 0 then ra == rab else ra < rab
    requires if a == 0 then rb == rab else rb < rab
    ensures Cutoff(a + b, rab) <= Cutoff(a, ra) + Cutoff(b, rb)
        <==> a == 0 || b == 0 || a + b < MIN_STAKE || (a >= MIN_STAKE && b >= MIN_STAKE)
  {
  }

  /** Splitting a stake in two never earns less, exactly when neither part falls below the minimum
      that the whole meets. */
  lemma SplittingNeverLoses(a: nat, b: nat)
    ensures AnnualHundredths(a + b) <= AnnualHundredths(a) + AnnualHundredths(b)
        <==> a == 0 || b == 0 || a + b < MIN_STAKE || (a >= MIN_STAKE && b >= MIN_STAKE)
  {
    var ra, rb, rab := SplitRewards(a, b);
    CutoffSplits(a, b, ra, rb, rab);
  }

  lemma SplitRewards(a: nat, b: nat) returns (ra: int, rb: int, rab: int)
    ensures ra == Hundredths(a) && rb == Hundredths(b) && rab == Hundredths(a + b)
    ensures rab <= ra + rb && 0 <= ra && 0 <= rb && (0 < a + b ==> 0 < rab)
    ensures (if b == 0 then ra == rab else ra < rab) && (if a == 0 then rb == rab else rb < rab)
  {
    hide Hundredths;
    ConcaveSplits(a, b);
    HundredthsRise(a, a + b);
    HundredthsRise(b, a + b);
    HundredthsRise(0, a + b);
    ra, rb, rab := Hundredths(a), Hundredths(b), Hundredths(a + b);
  }

  lemma ConcaveSplits(a: nat, b: nat)
    ensures Hundredths(a + b) <= Hundredths(a) + Hundredths(b)
  {
    var i, j := LineOf(a), LineOf(b);
    LowerEnvelope(a, i);
    LowerEnvelope(b, j);
    LowerEnvelope(a + b, i);
    LowerEnvelope(a + b, j);
    LinesSplit(Rate(i), Offset(i), Rate(j), Offset(j), a, b, Hundredths(a + b));
  }

  lemma LinesSplit(r: nat, o: nat, r': nat, o': nat, a: nat, b: nat, whole: int)
    requires whole <= r * (a + b) + o && whole <= r' * (a + b) + o'
    ensures whole <= (r * a + o) + (r' * b + o')
  {
  }

  /** The reward per token never rises with the stake, exactly when the smaller stake meets the
      minimum or neither does. */
  lemma EffectiveRateFalls(a: nat, b: nat)
    requires 0 < a <= b
    ensures AnnualHundredths(a) * b >= AnnualHundredths(b) * a <==> a >= MIN_STAKE || b < MIN_STAKE
  {
    var i := LineOf(a);
    LowerEnvelope(a, i);
    LowerEnvelope(b, i);
    SlopeFalls(Rate(i), Offset(i), a, b, Hundredths(b));
    HundredthsRise(0, b);
    PositiveProduct(Hundredths(b), a);
  }

  lemma PositiveProduct(x: int, y: int)
    requires x > 0 && y > 0
    ensures x * y > 0
  {
  }

  lemma SlopeFalls(rate: nat, offset: nat, a: nat, b: nat, hb: int)
    requires a <= b && hb <= rate * b + offset
    ensures (rate * a + offset) * b >= hb * a
  {
  }

  /** The schedule as its comments describe it, with cuts at round thousands. */
  function Documented(stake: nat): int {
    15 * Between(stake, 0, 1_000)
    + 8 * Between(stake, 1_000, 10_000)
    + 4 * Between(stake, 10_000, 100_000)
    + 2 * Between(stake, 100_000, 1_000_000)
    + Max(0, stake - 1_000_000)
  }

  /** The code pays more than its comments say, by at most 0.14 tokens a year, exactly from the
      1,001st token on. */
  lemma BoundaryGap(stake: nat)
    ensures Documented(stake) <= Hundredths(stake) <= Documented(stake) + 14
    ensures Documented(stake) == Hundredths(stake) <==> stake <= 1_000
  {
  }
}
