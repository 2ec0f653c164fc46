/** Conservation and the emission cap, over every run of the reward engine and of the chain
    that drives it. */
module StakingRuns {
  import opened Prelude
  import opened Validators
  import opened Staking

  datatype Action = Register(id: ValidatorID, amount: nat) | Unregister(id: ValidatorID)
      | Distribute(height: nat) | Rollover | Claim(id: ValidatorID)

  ghost function Act(p: Policy, e: Engine, a: Action): (e': Engine)
    requires p.Valid() && e.accrued >= 0.0
    ensures e'.accrued >= 0.0
  {
    match a
    case Register(id, amount) => AfterRegister(e, id, amount)
    case Unregister(id) => AfterUnregister(e, id)
    case Distribute(height) => AfterDistribute(p, e, height)
    case Rollover => e.(epochMinted := 0)
    case Claim(id) => AfterClaim(e, id)
  }

  ghost function After(p: Policy, run: seq<Action>): (e: Engine)
    requires p.Valid()
    ensures e.accrued >= 0.0
  {
    if run == [] then NewEngine() else Act(p, After(p, run[..|run| - 1]), run[|run| - 1])
  }

  /** What one action pays, claims or forfeits. */
  ghost function Paid(p: Policy, e: Engine, a: Action): int
    requires p.Valid() && e.accrued >= 0.0
  {
    if a.Distribute? then Sum(Payout(p, e)) else 0
  }

  ghost predicate Emits(e: Engine, a: Action) {
    a.Distribute? && Sum(Annuals(e.rewards)) != 0
  }

  function Claimed(e: Engine, a: Action): int {
    if a.Claim? then Unclaimed(e, a.id) else 0
  }

  function Forfeited(e: Engine, a: Action): int {
    if a.Unregister? then Unclaimed(e, a.id) else 0
  }

  ghost function TotalPaid(p: Policy, run: seq<Action>): int
    requires p.Valid()
  {
    if run == [] then 0 else
      TotalPaid(p, run[..|run| - 1]) + Paid(p, After(p, run[..|run| - 1]), run[|run| - 1])
  }

  ghost function EmittingBlocks(p: Policy, run: seq<Action>): nat
    requires p.Valid()
  {
    if run == [] then 0 else
      EmittingBlocks(p, run[..|run| - 1]) + if Emits(After(p, run[..|run| - 1]), run[|run| - 1]) then 1 else 0
  }

  ghost function TotalClaimed(p: Policy, run: seq<Action>): int
    requires p.Valid()
  {
    if run == [] then 0 else
      TotalClaimed(p, run[..|run| - 1]) + Claimed(After(p, run[..|run| - 1]), run[|run| - 1])
  }

  ghost function TotalForfeited(p: Policy, run: seq<Action>): int
    requires p.Valid()
  {
    if run == [] then 0 else
      TotalForfeited(p, run[..|run| - 1]) + Forfeited(After(p, run[..|run| - 1]), run[|run| - 1])
  }

  function Stakes(rewards: map<ValidatorID, ValidatorReward>): map<ValidatorID, int> {
    map id | id in rewards :: rewards[id].staked
  }

  function Balances(rewards: map<ValidatorID, ValidatorReward>): map<ValidatorID, int> {
    map id | id in rewards :: rewards[id].accumulated
  }

  // ----- one action

  lemma StakesStep(p: Policy, e: Engine, a: Action)
    requires p.Valid() && e.accrued >= 0.0 && e.totalStaked == Sum(Stakes(e.rewards))
    ensures var e' := Act(p, e, a); e'.totalStaked == Sum(Stakes(e'.rewards))
  {
    hide Sum, Payout, Policy.PerBlockEmission;
    var e' := Act(p, e, a);
    match a
    case Register(id, amount) =>
      SumUpdate(Stakes(e.rewards), id, amount);
      assert Stakes(e'.rewards) == Stakes(e.rewards)[id := amount];
    case Unregister(id) =>
      if id in e.rewards {
        SumRemove(Stakes(e.rewards), id);
        assert Stakes(e'.rewards) == Stakes(e.rewards) - {id};
      }
    case Distribute(height) => assert Stakes(e'.rewards) == Stakes(e.rewards);
    case Rollover =>
    case Claim(id) => assert Stakes(e'.rewards) == Stakes(e.rewards);
  }

  lemma {:induction false} SumOfCredit(rewards: map<ValidatorID, ValidatorReward>, pay: map<ValidatorID, int>)
    requires NonNegative(pay) && pay.Keys <= rewards.Keys
    ensures Sum(Balances(Credit(rewards, pay))) == Sum(Balances(rewards)) + Sum(pay)
    decreases |pay|
  {
    hide Sum;
    if id :| id in pay {
      var rest := pay - {id};
      SumOfCredit(rewards, rest);
      SumRemove(pay, id);
      CreditAlso(rewards, rest, id, pay[id]);
      assert pay == rest[id := pay[id]];
    } else {
      SumEmpty(pay);
      assert Balances(Credit(rewards, pay)) == Balances(rewards);
    }
  }

  lemma CreditAlso(rewards: map<ValidatorID, ValidatorReward>, pay: map<ValidatorID, int>, id: ValidatorID, share: nat)
    requires NonNegative(pay) && id !in pay && id in rewards
    ensures Sum(Balances(Credit(rewards, pay[id := share]))) == Sum(Balances(Credit(rewards, pay))) + share
  {
    hide Sum;
    var before: map<ValidatorID, int> := Balances(Credit(rewards, pay));
    var after: map<ValidatorID, int> := Balances(Credit(rewards, pay[id := share]));
    var held := before[id];
    SumUpdate(before, id, held + share);
    assert after == before[id := held + share];
  }

  lemma BalancesStep(p: Policy, e: Engine, a: Action)
    requires p.Valid() && e.accrued >= 0.0
    ensures Sum(Balances(Act(p, e, a).rewards))
         == Sum(Balances(e.rewards)) + Paid(p, e, a) - Claimed(e, a) - Forfeited(e, a)
  {
    var e' := Act(p, e, a);
    match a
    case Register(id, amount) =>
      SumUpdate(Balances(e.rewards), id, Unclaimed(e, id));
      assert Balances(e'.rewards) == Balances(e.rewards)[id := Unclaimed(e, id)];
    case Unregister(id) =>
      if id in e.rewards {
        SumRemove(Balances(e.rewards), id);
        assert Balances(e'.rewards) == Balances(e.rewards) - {id};
      }
    case Distribute(height) => DistributeBalances(p, e, height);
    case Rollover =>
    case Claim(id) =>
      if id in e.rewards {
        SumUpdate(Balances(e.rewards), id, 0);
        assert Balances(e'.rewards) == Balances(e.rewards)[id := 0];
      }
  }

  lemma DistributeBalances(p: Policy, e: Engine, height: nat)
    requires p.Valid() && e.accrued >= 0.0
    ensures Sum(Balances(AfterDistribute(p, e, height).rewards)) == Sum(Balances(e.rewards)) + Sum(Payout(p, e))
  {
    var pay := Payout(p, e);
    assert pay.Keys <= e.rewards.Keys;
    if Sum(Annuals(e.rewards)) != 0 {
      SumOfCredit(e.rewards, pay);
    }
  }

  /** Within one epoch the counter never passes a positive cap. */
  lemma CapStep(p: Policy, e: Engine, a: Action)
    requires p.Valid() && e.accrued >= 0.0
    requires p.EpochCap() > 0 && e.epochMinted <= p.EpochCap()
    ensures Act(p, e, a).epochMinted <= p.EpochCap()
    ensures Act(p, e, a).epochMinted == if a == Rollover then 0 else e.epochMinted + Paid(p, e, a)
  {
    if Emits(e, a) {
      SumBounds(Annuals(e.rewards));
      SplitFallsShort(p, e);
    }
  }

  // ----- every run

  /** Nothing is lost: what validators have been paid, plus the carry, is the emission of every
      block that had something to emit. */
  lemma {:induction false} EmissionIsConserved(p: Policy, run: seq<Action>)
    requires p.Valid()
    ensures After(p, run).accrued + TotalPaid(p, run) as real == Emission(p, EmittingBlocks(p, run))
  {
    if run != [] {
      var before := run[..|run| - 1];
      EmissionIsConserved(p, before);
      AccrualStep(p, After(p, before), run[|run| - 1]);
      EmissionAdds(p, EmittingBlocks(p, before));
    }
  }

  /** What validators were paid is still held for them, was claimed, or was forfeited on removal. */
  lemma {:induction false} PaymentsAreConserved(p: Policy, run: seq<Action>)
    requires p.Valid()
    ensures Sum(Balances(After(p, run).rewards)) + TotalClaimed(p, run) + TotalForfeited(p, run) == TotalPaid(p, run)
  {
    if run == [] {
      SumEmpty(Balances(NewEngine().rewards));
    } else {
      var before := run[..|run| - 1];
      PaymentsAreConserved(p, before);
      BalancesStep(p, After(p, before), run[|run| - 1]);
    }
  }

  /** TotalStaked is always the sum of the registered stakes. */
  lemma {:induction false} StakesAreTracked(p: Policy, run: seq<Action>)
    requires p.Valid()
    ensures After(p, run).totalStaked == Sum(Stakes(After(p, run).rewards))
  {
    if run == [] {
      SumEmpty(Stakes(NewEngine().rewards));
    } else {
      var before := run[..|run| - 1];
      StakesAreTracked(p, before);
      StakesStep(p, After(p, before), run[|run| - 1]);
    }
  }

  lemma {:induction false} CapIsKept(p: Policy, run: seq<Action>)
    requires p.Valid() && p.EpochCap() > 0
    ensures After(p, run).epochMinted <= p.EpochCap()
  {
    if run != [] {
      var before := run[..|run| - 1];
      CapIsKept(p, before);
      CapStep(p, After(p, before), run[|run| - 1]);
    }
  }

  /** What was paid since the last rollover, and the height of the last distribution. */
  ghost function PaidInEpoch(p: Policy, run: seq<Action>): int
    requires p.Valid()
  {
    if run == [] || run[|run| - 1] == Rollover then 0
    else PaidInEpoch(p, run[..|run| - 1]) + Paid(p, After(p, run[..|run| - 1]), run[|run| - 1])
  }

  function LastHeight(run: seq<Action>): nat {
    if run == [] then 0
    else if run[|run| - 1].Distribute? then run[|run| - 1].height else LastHeight(run[..|run| - 1])
  }

  /** Over every run, with a cap or without: the epoch counter is what was paid since the last rollover, and
      the current block that of the last distribution. */
  lemma {:induction false} CountersAreTracked(p: Policy, run: seq<Action>)
    requires p.Valid()
    ensures After(p, run).epochMinted == PaidInEpoch(p, run) && After(p, run).currentBlock == LastHeight(run)
  {
    if run != [] {
      var before := run[..|run| - 1];
      CountersAreTracked(p, before);
      CountersStep(p, After(p, before), run[|run| - 1]);
    }
  }

  lemma CountersStep(p: Policy, e: Engine, a: Action)
    requires p.Valid() && e.accrued >= 0.0
    ensures Act(p, e, a).epochMinted == if a == Rollover then 0 else e.epochMinted + Paid(p, e, a)
    ensures Act(p, e, a).currentBlock == if a.Distribute? then a.height else e.currentBlock
  {
    if a.Distribute? {
      SumBounds(Annuals(e.rewards));
    }
  }

  /** A newcomer starts with nothing, at the block of the last distribution; registering again changes the
      stake and keeps what was accumulated. */
  lemma RegistrationIs(p: Policy, run: seq<Action>, id: ValidatorID, amount: nat)
    requires p.Valid()
    ensures var before, after := After(p, run).rewards, After(p, run + [Register(id, amount)]).rewards;
            && after.Keys == before.Keys + {id}
            && (forall other | other in before && other != id :: after[other] == before[other])
            && after[id] == if id in before then before[id].(staked := amount)
                            else ValidatorReward(amount, 0, LastHeight(run))
  {
    CountersAreTracked(p, run);
    AfterOne(p, run, Register(id, amount));
  }

  function Emission(p: Policy, blocks: nat): real
    requires p.Valid()
  {
    p.PerBlockEmission() * blocks as real
  }

  lemma EmissionAdds(p: Policy, blocks: nat)
    requires p.Valid()
    ensures Emission(p, blocks + 1) == Emission(p, blocks) + p.PerBlockEmission()
  {
  }

  lemma AccrualStep(p: Policy, e: Engine, a: Action)
    requires p.Valid() && e.accrued >= 0.0
    ensures Act(p, e, a).accrued + Paid(p, e, a) as real
         == e.accrued + if Emits(e, a) then p.PerBlockEmission() else 0.0
  {
  }

  /** Right after a block that had something to emit, validators have been paid the whole emission less
      fewer tokens than there are validators, unless a positive cap has fewer tokens than that left. */
  lemma PaymentsKeepUp(p: Policy, run: seq<Action>, h: nat)
    requires p.Valid() && Emits(After(p, run), Distribute(h))
    ensures var after, k := run + [Distribute(h)], |After(p, run).rewards|;
            var emission, paid := Emission(p, EmittingBlocks(p, after)), TotalPaid(p, after);
            && paid as real <= emission
            && (emission < (paid + k) as real
                || (p.EpochCap() > 0 && p.EpochCap() - After(p, after).epochMinted < k))
  {
    hide Emission, Policy.EpochCap;
    EmissionIsConserved(p, run + [Distribute(h)]);
    AfterOne(p, run, Distribute(h));
    SumBounds(Annuals(After(p, run).rewards));
    if p.EpochCap() > 0 {
      CapIsKept(p, run);
    }
    NothingIsHeldBack(p, After(p, run), h);
  }

  // ----- the chain's blocks

  function TreasuryShareOf(amount: nat): nat {
    amount * QUEST_TREASURY_SHARE_PCT / 100
  }

  /** Nothing under seven tokens sends anything to the treasury. */
  lemma TreasuryShareNeedsSeven(amount: nat)
    ensures TreasuryShareOf(amount) > 0 <==> amount >= 7
  {
  }

  /** Calls that others make between blocks. */
  predicate StakingCalls(calls: seq<Action>) {
    forall a | a in calls :: !a.Distribute? && !a.Rollover?
  }

  predicate StartsEpoch(p: Policy, height: nat) {
    p.epochLength > 0 && height % p.epochLength == 0
  }

  /** One block of the chain: the staking calls made before it, then the rollover when its height
      starts an epoch, then the distribution. */
  function BlockActions(p: Policy, calls: seq<Action>, height: nat): seq<Action> {
    calls + (if StartsEpoch(p, height) then [Rollover] else []) + [Distribute(height)]
  }

  /** The whole run of blocks 1 .. |blocks|. */
  function ChainRun(p: Policy, blocks: seq<seq<Action>>): seq<Action> {
    if blocks == [] then []
    else ChainRun(p, blocks[..|blocks| - 1]) + BlockActions(p, blocks[|blocks| - 1], |blocks|)
  }

  lemma AfterOne(p: Policy, run: seq<Action>, a: Action)
    requires p.Valid()
    ensures After(p, run + [a]) == Act(p, After(p, run), a)
    ensures TotalPaid(p, run + [a]) == TotalPaid(p, run) + Paid(p, After(p, run), a)
  {
  }

  lemma {:induction false} CallsMintNothing(p: Policy, run: seq<Action>, calls: seq<Action>)
    requires p.Valid() && StakingCalls(calls)
    ensures TotalPaid(p, run + calls) == TotalPaid(p, run)
    ensures After(p, run + calls).epochMinted == After(p, run).epochMinted
  {
    if calls == [] {
      assert run + calls == run;
    } else {
      var before := calls[..|calls| - 1];
      CallsMintNothing(p, run, before);
      assert calls[|calls| - 1] in calls;
      AfterOne(p, run + before, calls[|calls| - 1]);
      assert run + calls == run + before + [calls[|calls| - 1]];
    }
  }

  /** What was paid before the open epoch. */
  ghost function ClosedPaid(p: Policy, run: seq<Action>): int
    requires p.Valid()
  {
    TotalPaid(p, run) - After(p, run).epochMinted
  }

  lemma CloseEpoch(p: Policy, run: seq<Action>)
    requires p.Valid() && p.EpochCap() > 0
    ensures ClosedPaid(p, run + [Rollover]) == TotalPaid(p, run)
  {
  }

  lemma PayInEpoch(p: Policy, run: seq<Action>, h: nat)
    requires p.Valid() && p.EpochCap() > 0
    ensures ClosedPaid(p, run + [Distribute(h)]) == ClosedPaid(p, run)
  {
  }

  /** What was paid in closed epochs grows by the open epoch's count at a rollover, and else not. */
  lemma BlockStep(p: Policy, run: seq<Action>, calls: seq<Action>, h: nat)
    requires p.Valid() && p.epochLength > 0 && p.EpochCap() > 0 && StakingCalls(calls)
    ensures ClosedPaid(p, run + BlockActions(p, calls, h))
         == if StartsEpoch(p, h) then TotalPaid(p, run) else ClosedPaid(p, run)
  {
    hide Sum, After, TotalPaid, StakingCalls, StartsEpoch;
    CallsMintNothing(p, run, calls);
    var r1 := run + calls;
    if StartsEpoch(p, h) {
      CloseEpoch(p, r1);
      PayInEpoch(p, r1 + [Rollover], h);
      assert run + BlockActions(p, calls, h) == r1 + [Rollover] + [Distribute(h)];
    } else {
      PayInEpoch(p, r1, h);
      assert run + BlockActions(p, calls, h) == r1 + [Distribute(h)];
    }
  }

  /** Rollovers by height h. */
  function ClosedEpochs(p: Policy, h: nat): nat
    requires p.epochLength > 0
  {
    h / p.epochLength
  }

  lemma EpochCloses(p: Policy, h: nat)
    requires p.epochLength > 0 && h > 0
    ensures ClosedEpochs(p, h) == ClosedEpochs(p, h - 1) + if StartsEpoch(p, h) then 1 else 0
  {
    EpochAdvances(h, p.epochLength);
  }

  lemma OneMoreCap(cap: nat, epochs: nat)
    ensures cap * (epochs + 1) == cap * epochs + cap
  {
  }

  lemma {:induction false} ClosedEpochsAreCapped(p: Policy, blocks: seq<seq<Action>>)
    requires p.Valid() && p.epochLength > 0 && p.EpochCap() > 0
    requires forall i | 0 <= i < |blocks| :: StakingCalls(blocks[i])
    ensures ClosedPaid(p, ChainRun(p, blocks)) <= p.EpochCap() * ClosedEpochs(p, |blocks|)
  {
    if blocks != [] {
      hide After, TotalPaid, StakingCalls, Policy.EpochCap, ClosedPaid, ClosedEpochs;
      var h := |blocks|;
      var run := ChainRun(p, blocks[..h - 1]);
      ClosedEpochsAreCapped(p, blocks[..h - 1]);
      CapIsKept(p, run);
      BlockStep(p, run, blocks[h - 1], h);
      EpochCloses(p, h);
      OneMoreCap(p.EpochCap(), ClosedEpochs(p, h - 1));
    }
  }

  /** There is no cap, which is written as zero, exactly when an epoch emits less than one token. */
  lemma CapIsAbsent(p: Policy)
    requires p.Valid() && p.epochLength > 0
    ensures p.EpochCap() == 0 <==> p.PerBlockEmission() * p.epochLength as real < 1.0
  {
    CapIsEmission(p);
    hide Policy.EpochCap, Policy.PerBlockEmission;
    FloorOfProduct(p.PerBlockEmission(), p.epochLength as real);
  }

  lemma CapIsEmission(p: Policy)
    requires p.Valid() && p.epochLength > 0
    ensures p.EpochCap() == (p.PerBlockEmission() * p.epochLength as real).Floor
  {
    EpochEmission(p.annualEmission as real, p.blocksPerYear, p.epochLength as real);
  }

  lemma FloorOfProduct(a: real, b: real)
    requires a >= 0.0 && b > 0.0
    ensures (a * b).Floor == 0 <==> a * b < 1.0
  {
    assert a * b >= 0.0;
  }

  lemma EpochEmission(annual: real, blocks: real, length: real)
    requires blocks > 0.0 && length > 0.0
    ensures blocks / length > 0.0 && annual / (blocks / length) == annual / blocks * length
  {
    var epochs, each := blocks / length, annual / blocks;
    assert epochs > 0.0;
    assert annual == (each * length) * epochs by {
      assert epochs * length == blocks && each * blocks == annual;
    }
    QuotientIsFactor(annual, each * length, epochs);
  }

  lemma QuotientIsFactor(x: real, a: real, b: real)
    requires b > 0.0 && x == a * b
    ensures x / b == a
  {
  }

  /** With a positive cap and epochs of positive length, the chain has paid by height h at most
      one cap for each epoch begun. */
  lemma EmissionIsCapped(p: Policy, blocks: seq<seq<Action>>)
    requires p.Valid() && p.epochLength > 0 && p.EpochCap() > 0
    requires forall i | 0 <= i < |blocks| :: StakingCalls(blocks[i])
    ensures TotalPaid(p, ChainRun(p, blocks)) <= p.EpochCap() * (ClosedEpochs(p, |blocks|) + 1)
  {
    hide After, TotalPaid, StakingCalls, Policy.EpochCap, ClosedEpochs;
    ClosedEpochsAreCapped(p, blocks);
    CapIsKept(p, ChainRun(p, blocks));
    OneMoreCap(p.EpochCap(), ClosedEpochs(p, |blocks|));
  }

  lemma EpochAdvances(h: nat, L: nat)
    requires h > 0 && L > 0
    ensures h / L == (h - 1) / L + if h % L == 0 then 1 else 0
  {
    var q, r := (h - 1) / L, (h - 1) % L;
    assert h == q * L + (r + 1);
    if r + 1 == L {
      assert h == (q + 1) * L;
      QuotientIs(h, L, q + 1, 0);
    } else {
      QuotientIs(h, L, q, r + 1);
    }
  }

  lemma QuotientIs(h: nat, L: nat, q: nat, r: nat)
    requires L > 0 && h == q * L + r && r < L
    ensures h / L == q && h % L == r
  {
    var d := h / L - q;
    assert d * L == r - h % L;
    if d >= 1 {
      MulMono(1, d, L);
    } else if d <= -1 {
      MulMono(d, -1, L);
    }
  }

  // ----- what the chain credits

  /** Validators' payments and the treasury's share of each, as the chain credits them. */
  function Credited(paid: int): int {
    paid + if paid > 0 then TreasuryShareOf(paid) else 0
  }

  lemma CreditedBounds(paid: nat)
    ensures paid <= Credited(paid) && 100 * Credited(paid) <= 115 * paid
    ensures Credited(paid) == paid <==> paid < 7
  {
  }

  ghost function TotalCredited(p: Policy, run: seq<Action>): int
    requires p.Valid()
  {
    if run == [] then 0 else
      TotalCredited(p, run[..|run| - 1]) + Credited(Paid(p, After(p, run[..|run| - 1]), run[|run| - 1]))
  }

  ghost predicate AllPaymentsSmall(p: Policy, run: seq<Action>)
    requires p.Valid()
  {
    run == [] || (AllPaymentsSmall(p, run[..|run| - 1]) && Paid(p, After(p, run[..|run| - 1]), run[|run| - 1]) < 7)
  }

  /** The treasury's share comes on top of the validators' emission and not out of it: the chain
      credits up to 115% of what the supply tracker is told, and more than it exactly when some
      block pays seven tokens or more. */
  lemma {:induction false} TreasuryIsExtra(p: Policy, run: seq<Action>)
    requires p.Valid()
    ensures TotalPaid(p, run) <= TotalCredited(p, run)
    ensures 100 * TotalCredited(p, run) <= 115 * TotalPaid(p, run)
    ensures TotalCredited(p, run) == TotalPaid(p, run) <==> AllPaymentsSmall(p, run)
  {
    if run != [] {
      var before := run[..|run| - 1];
      TreasuryIsExtra(p, before);
      CreditedBounds(Paid(p, After(p, before), run[|run| - 1]));
    }
  }
}
