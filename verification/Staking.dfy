/** The reward engine: fractional accrual, the epoch cap and the floored proportional split. */
module Staking {
  import opened Prelude
  import opened Brackets
  import opened Validators

  const WAY_TOTAL_SUPPLY := 100_000_000
  const SECONDS_PER_YEAR := 31_536_000.0
  const QUEST_TREASURY_SHARE_PCT := 15

  datatype ValidatorReward = ValidatorReward(staked: nat, accumulated: nat, lastUpdateBlock: nat)

  /** The emission policy: yearly tokens, blocks a year and blocks an epoch. */
  datatype Policy = Policy(annualEmission: nat, blocksPerYear: real, epochLength: nat) {
    ghost predicate Valid() {
      blocksPerYear > 0.0
    }

    function PerBlockEmission(): (r: real)
      requires Valid()
      ensures r >= 0.0
    {
      annualEmission as real / blocksPerYear
    }

    /** Zero stands for no cap. */
    function EpochCap(): (cap: nat)
      requires Valid()
    {
      if epochLength == 0 then annualEmission
      else (annualEmission as real / (blocksPerYear / epochLength as real)).Floor
    }
  }

  datatype Engine = Engine(
    rewards: map<ValidatorID, ValidatorReward>, totalStaked: int, currentBlock: nat,
    accrued: real, epochMinted: nat)

  function NewEngine(): Engine {
    Engine(map[], 0, 0, 0.0, 0)
  }

  // ----- one operation at a time

  function AfterRegister(e: Engine, id: ValidatorID, amount: nat): Engine {
    if id in e.rewards
    then e.(rewards := e.rewards[id := e.rewards[id].(staked := amount)],
            totalStaked := e.totalStaked - e.rewards[id].staked + amount)
    else e.(rewards := e.rewards[id := ValidatorReward(amount, 0, e.currentBlock)],
            totalStaked := e.totalStaked + amount)
  }

  function AfterUnregister(e: Engine, id: ValidatorID): Engine {
    if id in e.rewards
    then e.(rewards := e.rewards - {id}, totalStaked := e.totalStaked - e.rewards[id].staked)
    else e
  }

  function AfterClaim(e: Engine, id: ValidatorID): Engine {
    if id in e.rewards then e.(rewards := e.rewards[id := e.rewards[id].(accumulated := 0)]) else e
  }

  function Unclaimed(e: Engine, id: ValidatorID): nat {
    if id in e.rewards then e.rewards[id].accumulated else 0
  }

  function Annuals(rewards: map<ValidatorID, ValidatorReward>): map<ValidatorID, int> {
    map id | id in rewards :: Reward(rewards[id].staked)
  }

  /** The whole tokens that one block may pay out: the accrual, held to what the epoch has left. */
  function Available(p: Policy, e: Engine): (available: int)
    requires p.Valid()
    requires e.accrued >= 0.0
    ensures 0 <= available && available as real <= e.accrued + p.PerBlockEmission()
    ensures p.EpochCap() > 0 && e.epochMinted <= p.EpochCap() ==> available <= p.EpochCap() - e.epochMinted
  {
    var cap := p.EpochCap();
    var whole := (e.accrued + p.PerBlockEmission()).Floor;
    if cap > 0 && e.epochMinted >= cap then 0
    else if cap > 0 && e.epochMinted + whole > cap then cap - e.epochMinted
    else whole
  }

  /** Neither the accrual nor what a positive cap has left stands against paying a whole tokens. */
  ghost predicate MayPay(p: Policy, e: Engine, a: nat)
    requires p.Valid()
  {
    a as real <= e.accrued + p.PerBlockEmission() && (p.EpochCap() > 0 ==> e.epochMinted + a <= p.EpochCap())
  }

  /** A block pays as many whole tokens as it may. */
  lemma AvailableIsLargest(p: Policy, e: Engine, a: nat)
    requires p.Valid() && e.accrued >= 0.0 && (p.EpochCap() > 0 ==> e.epochMinted <= p.EpochCap())
    ensures a == Available(p, e) <==> MayPay(p, e, a) && !MayPay(p, e, a + 1)
  {
    hide Policy.EpochCap, Policy.PerBlockEmission;
    WholeTokens(e.accrued + p.PerBlockEmission(), a);
    WholeTokens(e.accrued + p.PerBlockEmission(), a + 1);
  }

  lemma WholeTokens(x: real, a: nat)
    ensures a as real <= x <==> a <= x.Floor
  {
  }

  function Share(available: int, annual: int, total: int): int
    requires total > 0
  {
    available * annual / total
  }

  /** Each validator's floored share of `available` out of total. */
  function Shares(annuals: map<ValidatorID, int>, available: int, total: int): map<ValidatorID, int>
    requires total > 0
  {
    map id | id in annuals :: Share(available, annuals[id], total)
  }

  lemma SharesNonNegative(annuals: map<ValidatorID, int>, available: nat, total: nat)
    requires total > 0 && NonNegative(annuals)
    ensures NonNegative(Shares(annuals, available, total)) && Sum(Shares(annuals, available, total)) >= 0
  {
    forall id | id in annuals ensures Share(available, annuals[id], total) >= 0 {
      assert available * annuals[id] >= 0;
    }
    SumBounds(Shares(annuals, available, total));
  }

  /** What a block pays every validator; nothing when the set earns nothing. */
  ghost function Payout(p: Policy, e: Engine): (pay: map<ValidatorID, int>)
    requires p.Valid() && e.accrued >= 0.0
    ensures NonNegative(pay) && Sum(pay) >= 0
  {
    var annuals := Annuals(e.rewards);
    if Sum(annuals) <= 0 then map[] else
      SharesNonNegative(annuals, Available(p, e), Sum(annuals));
      Shares(annuals, Available(p, e), Sum(annuals))
  }

  function Credit(rewards: map<ValidatorID, ValidatorReward>, pay: map<ValidatorID, int>)
    : (r: map<ValidatorID, ValidatorReward>)
    requires NonNegative(pay)
    ensures r.Keys == rewards.Keys
  {
    map id | id in rewards :: rewards[id].(accumulated := rewards[id].accumulated + At(pay, id))
  }

  // ----- the floored split

  /** Floors lose less than one token each: in units of 1/total, the split pays at most what is
      available and at most (total - 1) short per validator. */
  lemma {:induction false} SplitRemainder(annuals: map<ValidatorID, int>, available: nat, total: nat)
    requires total > 0
    ensures Sum(Shares(annuals, available, total)) * total <= available * Sum(annuals)
    ensures available * Sum(annuals) <= Sum(Shares(annuals, available, total)) * total + (total - 1) * |annuals|
    decreases |annuals|
  {
    if id :| id in annuals {
      var rest := annuals - {id};
      SplitRemainder(rest, available, total);
      SumRemove(annuals, id);
      SumRemove(Shares(annuals, available, total), id);
      assert Shares(annuals, available, total) - {id} == Shares(rest, available, total);
      assert annuals.Keys == rest.Keys + {id};
      assert |annuals.Keys| == |rest.Keys| + 1;
      AddShare(Sum(Shares(rest, available, total)), annuals[id], Sum(rest), |rest|, available, total);
    } else {
      assert Shares(annuals, available, total) == map[];
    }
  }

  lemma AddShare(paid: int, annual: int, sum: int, n: nat, available: nat, total: nat)
    requires total > 0
    requires paid * total <= available * sum <= paid * total + (total - 1) * n
    ensures var share := Share(available, annual, total);
            (share + paid) * total <= available * (annual + sum) <= (share + paid) * total + (total - 1) * (n + 1)
  {
  }

  /** Each split pays at most what is available, and falls short by fewer than one token a
      validator. */
  lemma SplitFallsShort(p: Policy, e: Engine)
    requires p.Valid() && e.accrued >= 0.0 && Sum(Annuals(e.rewards)) > 0
    ensures Sum(Payout(p, e)) <= Available(p, e) < Sum(Payout(p, e)) + |e.rewards|
  {
    var annuals := Annuals(e.rewards);
    var total, available, paid := Sum(annuals), Available(p, e), Sum(Payout(p, e));
    SplitRemainder(annuals, available, total);
    assert annuals.Keys == e.rewards.Keys;
    assert |annuals| == |annuals.Keys| == |e.rewards.Keys| == |e.rewards|;
    SumEmpty(annuals);
    FromUnits(paid, available, total, |e.rewards|);
  }

  lemma FromUnits(paid: int, available: nat, total: nat, k: nat)
    requires total > 0 && k > 0
    requires paid * total <= available * total <= paid * total + (total - 1) * k
    ensures paid <= available < paid + k
  {
  }

  ghost function AfterDistribute(p: Policy, e: Engine, height: nat): (e': Engine)
    requires p.Valid() && e.accrued >= 0.0
    ensures e'.accrued >= 0.0
  {
    var pay := Payout(p, e);
    if Sum(Annuals(e.rewards)) == 0 then e.(currentBlock := height)
    else
      SumBounds(Annuals(e.rewards));
      SplitFallsShort(p, e);
      e.(rewards := Credit(e.rewards, pay), currentBlock := height,
         accrued := e.accrued + p.PerBlockEmission() - Sum(pay) as real,
         epochMinted := e.epochMinted + Sum(pay))
  }

  /** After a distribution the carry is below one token a validator, unless a positive cap has fewer
      tokens than that left. */
  lemma NothingIsHeldBack(p: Policy, e: Engine, height: nat)
    requires p.Valid() && e.accrued >= 0.0 && (p.EpochCap() > 0 ==> e.epochMinted <= p.EpochCap())
    requires Sum(Annuals(e.rewards)) > 0
    ensures var e', k := AfterDistribute(p, e, height), |e.rewards|;
            e'.accrued < k as real || (p.EpochCap() > 0 && p.EpochCap() - e'.epochMinted < k)
  {
    hide Policy.EpochCap, Policy.PerBlockEmission, Payout, Credit, Available;
    AvailableIsLargest(p, e, Available(p, e));
    SplitFallsShort(p, e);
  }

  /** A block pays each validator what is available in proportion to its own yearly reward, rounded down. */
  lemma EachIsPaidItsShare(p: Policy, e: Engine, height: nat, id: ValidatorID)
    requires p.Valid() && e.accrued >= 0.0 && Sum(Annuals(e.rewards)) > 0 && id in e.rewards
    ensures var after, total := AfterDistribute(p, e, height).rewards, Sum(Annuals(e.rewards));
            var share := after[id].accumulated - e.rewards[id].accumulated;
            && after.Keys == e.rewards.Keys && after[id].staked == e.rewards[id].staked
            && share * total <= Available(p, e) * Reward(e.rewards[id].staked) < (share + 1) * total
  {
    hide Reward, Available, Policy.PerBlockEmission;
    var total := Sum(Annuals(e.rewards));
    FloorOfQuotient(Available(p, e) * Reward(e.rewards[id].staked), total);
  }

  lemma FloorOfQuotient(x: int, d: int)
    requires d > 0
    ensures x / d * d <= x < (x / d + 1) * d
  {
    MulSum(x / d, 1, d);
  }

  // ----- the engine itself

  class ProgressiveStaking {
    const Policy: Policy
    var ValidatorRewards: map<ValidatorID, ValidatorReward>
    var TotalStaked: int
    var CurrentBlock: nat
    var accrued: real
    var epochMinted: nat

    ghost function Model(): Engine
      reads this
    {
      Engine(ValidatorRewards, TotalStaked, CurrentBlock, accrued, epochMinted)
    }

    constructor (annualInflationPct: real, blockTimeSec: real, epochLength: nat)
      ensures Policy == PolicyFor(annualInflationPct, blockTimeSec, epochLength) && Policy.Valid()
      ensures Model() == NewEngine()
    {
      Policy := PolicyFor(annualInflationPct, blockTimeSec, epochLength);
      ValidatorRewards, TotalStaked, CurrentBlock, accrued, epochMinted := map[], 0, 0, 0.0, 0;
    }

    method RegisterStake(id: ValidatorID, amount: nat)
      modifies this
      ensures Model() == AfterRegister(old(Model()), id, amount)
    {
      if id in ValidatorRewards {
        var existing := ValidatorRewards[id];
        TotalStaked := TotalStaked - existing.staked;
        ValidatorRewards := ValidatorRewards[id := existing.(staked := amount)];
      } else {
        ValidatorRewards := ValidatorRewards[id := ValidatorReward(amount, 0, CurrentBlock)];
      }
      TotalStaked := TotalStaked + amount;
    }

    method RemoveStake(id: ValidatorID)
      modifies this
      ensures Model() == AfterUnregister(old(Model()), id)
    {
      if id in ValidatorRewards {
        TotalStaked := TotalStaked - ValidatorRewards[id].staked;
        ValidatorRewards := ValidatorRewards - {id};
      }
    }

    /** The marginal reward of every validator and their total, in the map's arbitrary order. */
    method AnnualRewards() returns (annualRewards: map<ValidatorID, int>, totalAnnual: nat)
      ensures annualRewards == Annuals(ValidatorRewards) && totalAnnual == Sum(annualRewards)
    {
      hide Reward;
      annualRewards, totalAnnual := map[], 0;
      var rest := ValidatorRewards.Keys;
      while rest != {}
        invariant rest <= ValidatorRewards.Keys
        invariant annualRewards == Annuals(ValidatorRewards) - rest
        invariant totalAnnual == Sum(annualRewards)
        decreases rest
      {
        var id :| id in rest;
        var r := CalculateReward(ValidatorRewards[id].staked);
        SumUpdate(annualRewards, id, r);
        annualRewards := annualRewards[id := r];
        totalAnnual := totalAnnual + r;
        rest := rest - {id};
      }
    }

    /** Pays each validator its floored share, in the map's arbitrary order; a zero share is skipped. */
    method PayShares(annualRewards: map<ValidatorID, int>, totalAnnual: nat, available: nat,
                     ghost pay: map<ValidatorID, int>)
      returns (distribution: map<ValidatorID, nat>, paid: nat)
      requires annualRewards.Keys == ValidatorRewards.Keys && totalAnnual > 0
      requires NonNegative(pay) && pay == Shares(annualRewards, available, totalAnnual)
      modifies this`ValidatorRewards
      ensures ValidatorRewards == Credit(old(ValidatorRewards), pay)
      ensures forall id: ValidatorID :: At(distribution, id) == At(pay, id)
      ensures paid == Sum(pay)
    {
      hide Share, Credit;
      distribution, paid := map[], 0;
      var rest := annualRewards.Keys;
      ghost var rewards := ValidatorRewards;
      assert rest == pay.Keys;
      PayNobody(rewards, pay);
      while rest != {}
        invariant rest <= pay.Keys && ValidatorRewards == Credit(rewards, pay - rest)
        invariant forall id: ValidatorID :: At(distribution, id) == At(pay - rest, id)
        invariant paid == Sum(pay - rest)
        decreases rest
      {
        var id :| id in rest;
        var blockReward := Share(available, annualRewards[id], totalAnnual);
        PayOne(pay, rest, id);
        ghost var done := (pay - rest)[id := pay[id]];
        assert forall v: ValidatorID | v != id :: At(done, v) == At(pay - rest, v);
        CreditOne(rewards, pay - rest, id, pay[id]);
        if blockReward != 0 {
          distribution := distribution[id := blockReward];
          var vr := ValidatorRewards[id];
          ValidatorRewards := ValidatorRewards[id := vr.(accumulated := vr.accumulated + blockReward)];
          paid := paid + blockReward;
        }
        rest := rest - {id};
      }
      assert pay - rest == pay;
    }

    /** Adds this block's emission and says how many whole tokens may be paid out of it. */
    method Accrue() returns (available: nat)
      requires Policy.Valid() && accrued >= 0.0
      modifies this`accrued
      ensures accrued == old(accrued) + Policy.PerBlockEmission()
      ensures available == Available(Policy, old(Model()))
    {
      accrued := accrued + Policy.PerBlockEmission();
      var cap := Policy.EpochCap();
      if cap > 0 && epochMinted >= cap {
        return 0;
      }
      available := accrued.Floor;
      if cap > 0 && epochMinted + available > cap {
        available := cap - epochMinted;
      }
    }

    method DistributeBlockReward(height: nat) returns (distribution: map<ValidatorID, nat>)
      requires Policy.Valid() && accrued >= 0.0
      modifies this
      ensures Model() == AfterDistribute(Policy, old(Model()), height)
      ensures forall id: ValidatorID :: At(distribution, id) == At(Payout(Policy, old(Model())), id)
    {
      hide Reward, Shares, Credit, Policy.PerBlockEmission, Policy.EpochCap;
      ghost var before := Model();
      CurrentBlock := height;
      distribution := map[];
      var annualRewards, totalAnnual := AnnualRewards();
      if totalAnnual == 0 {
        return;
      }
      var available := Accrue();
      if available == 0 {
        NothingPaid(Policy, before);
        return;
      }
      ghost var pay := Payout(Policy, before);
      var paid;
      distribution, paid := PayShares(annualRewards, totalAnnual, available, pay);
      if paid == 0 {
        return;
      }
      accrued := accrued - paid as real;
      epochMinted := epochMinted + paid;
    }

    method RolloverEpoch()
      modifies this
      ensures Model() == old(Model()).(epochMinted := 0)
    {
      epochMinted := 0;
    }

    method ClaimReward(id: ValidatorID) returns (amount: nat)
      modifies this
      ensures amount == Unclaimed(old(Model()), id)
      ensures Model() == AfterClaim(old(Model()), id)
    {
      if id !in ValidatorRewards {
        return 0;
      }
      amount := ValidatorRewards[id].accumulated;
      ValidatorRewards := ValidatorRewards[id := ValidatorRewards[id].(accumulated := 0)];
    }
  }

  const DEFAULT_INFLATION := 7.0
  const DEFAULT_BLOCK_TIME := 3.0

  /** Non-positive settings fall back to the defaults, and the rate is held to 3 to 9 percent. */
  function PolicyFor(annualInflationPct: real, blockTimeSec: real, epochLength: nat): (p: Policy)
    ensures p.Valid()
    ensures 3_000_000 <= p.annualEmission <= 9_000_000
  {
    var pct := if annualInflationPct <= 0.0 then DEFAULT_INFLATION else annualInflationPct;
    var rate := if pct < 3.0 then 3.0 else if pct > 9.0 then 9.0 else pct;
    var time := if blockTimeSec <= 0.0 then DEFAULT_BLOCK_TIME else blockTimeSec;
    var emission := WAY_TOTAL_SUPPLY as real * rate / 100.0;
    assert SECONDS_PER_YEAR / time > 0.0;
    Policy(emission.Floor, SECONDS_PER_YEAR / time, epochLength)
  }

  /** Between three and nine percent of the supply are emitted a year, as set; settings that are not positive
      count as seven percent and three seconds. */
  lemma SettingsAre(pct: real, time: real, epochLength: nat)
    ensures var p := PolicyFor(pct, time, epochLength);
            && p.epochLength == epochLength
            && (pct <= 0.0 ==> p.annualEmission == 7_000_000)
            && (0.0 < pct < 3.0 ==> p.annualEmission == 3_000_000)
            && (3.0 <= pct <= 9.0 ==> p.annualEmission as real <= 1_000_000.0 * pct < (p.annualEmission + 1) as real)
            && (pct > 9.0 ==> p.annualEmission == 9_000_000)
            && p.blocksPerYear == 31_536_000.0 / (if time <= 0.0 then 3.0 else time)
  {
  }

  /** A year's blocks emit the annual emission; epochs without a length are capped by it. */
  lemma YearEmits(p: Policy)
    requires p.Valid()
    ensures p.PerBlockEmission() * p.blocksPerYear == p.annualEmission as real
    ensures p.epochLength == 0 ==> p.EpochCap() == p.annualEmission
  {
  }

  lemma PayNobody(rewards: map<ValidatorID, ValidatorReward>, pay: map<ValidatorID, int>)
    ensures Sum(pay - pay.Keys) == 0 && Credit(rewards, pay - pay.Keys) == rewards
    ensures forall id: ValidatorID :: At(pay - pay.Keys, id) == 0
  {
  }

  lemma PayOne(pay: map<ValidatorID, int>, rest: set<ValidatorID>, id: ValidatorID)
    requires rest <= pay.Keys && id in rest
    ensures pay - (rest - {id}) == (pay - rest)[id := pay[id]]
    ensures Sum(pay - (rest - {id})) == Sum(pay - rest) + pay[id]
  {
    assert pay - (rest - {id}) == (pay - rest)[id := pay[id]];
    SumUpdate(pay - rest, id, pay[id]);
  }

  lemma CreditOne(rewards: map<ValidatorID, ValidatorReward>, paid: map<ValidatorID, int>, id: ValidatorID, share: nat)
    requires NonNegative(paid) && id !in paid && id in rewards
    ensures var r := Credit(rewards, paid);
            Credit(rewards, paid[id := share]) == r[id := r[id].(accumulated := r[id].accumulated + share)]
    ensures share == 0 ==> Credit(rewards, paid[id := share]) == Credit(rewards, paid)
  {
  }

  /** With nothing available every share is zero. */
  lemma NothingPaid(p: Policy, e: Engine)
    requires p.Valid() && e.accrued >= 0.0 && Sum(Annuals(e.rewards)) > 0 && Available(p, e) == 0
    ensures Sum(Payout(p, e)) == 0 && forall id: ValidatorID :: At(Payout(p, e), id) == 0
    ensures Credit(e.rewards, Payout(p, e)) == e.rewards
  {
    NothingShared(e.rewards, Annuals(e.rewards), Sum(Annuals(e.rewards)));
  }

  lemma NothingShared(rewards: map<ValidatorID, ValidatorReward>, annuals: map<ValidatorID, int>, total: nat)
    requires total > 0
    ensures var pay := Shares(annuals, 0, total);
            NonNegative(pay) && Sum(pay) == 0 && Credit(rewards, pay) == rewards
            && forall id: ValidatorID :: At(pay, id) == 0
  {
    ZeroShares(annuals, total);
  }

  lemma ZeroShares(annuals: map<ValidatorID, int>, total: nat)
    requires total > 0
    ensures forall id | id in annuals :: Shares(annuals, 0, total)[id] == 0
    ensures Sum(Shares(annuals, 0, total)) == 0
  {
    forall id | id in annuals ensures Shares(annuals, 0, total)[id] == 0 {
      assert 0 * annuals[id] == 0;
    }
    SumAllZero(Shares(annuals, 0, total));
  }
}
