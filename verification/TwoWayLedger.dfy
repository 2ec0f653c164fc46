/** The books of the vault and the stability pool: which calls are accepted, what each of them moves,
    and what every run of them adds up to. */
module TwoWayLedger {
  import opened Prelude
  import opened TwoWay
  import opened TwoWayRuns

  // ----- which calls are accepted

  ghost function CollateralIn(s: Protocol, v: VaultID): int {
    Sum(Collaterals(s.vault, v))
  }

  /** A mint gets past its locks if its user neither owes nor lends, and the vault holds anything. */
  ghost predicate Unlocked(s: Protocol, user: User, v: VaultID) {
    At(s.pool.minted, user) <= 0 && At(s.pool.deposits, user) <= 0 && CollateralIn(s, v) != 0
  }

  /** Mints and withdrawals must leave 130% behind the debt, liquidation takes vaults below 140.01%, and
      the pool pays out and absorbs what it has. */
  lemma AcceptsExactly(s: Protocol, c: Call)
    requires Sound(s)
    ensures Do(s, c).ok <==>
              match c
              case Deposit(_, coin, _) => TrimRightZeros(coin) in s.vault.accepted
              case Mint(user, v, amount, _) =>
                Unlocked(s, user, v) && 10 * CollateralIn(s, v) >= 13 * (Owed(s.vault, v) + amount)
              case Withdraw(v, coin, amount) =>
                var entry := EntryOf(v, coin);
                && entry.coin != [] && entry in s.vault.collateral && amount <= s.vault.collateral[entry]
                && 10 * (CollateralIn(s, v) - amount) >= 13 * Owed(s.vault, v)
              case Burn(_, _, _) => true
              case Liquidate(v) =>
                Owed(s.vault, v) > 0
                && 10_000 * Sum(UsdValues(s.vault, Collaterals(s.vault, v))) < 14_001 * Owed(s.vault, v)
              case SetPrice(_, _) => true
              case PoolDeposit(user, amount) => amount > 0 && At(s.pool.minted, user) <= 0
              case PoolWithdraw(user, amount) => 0 < amount <= At(s.pool.deposits, user)
              case ClaimRewards(user) => At(s.pool.pending, user) + At(s.pool.lpFees, user) > 0
              case Absorb(v) => 0 < Owed(s.vault, v) <= s.pool.balance
  {
    match c
    case Mint(user, v, amount, fee) => MintIsAccepted(s, user, v, amount, fee);
    case Withdraw(v, coin, amount) => WithdrawIsAccepted(s, v, coin, amount);
    case Liquidate(v) => LiquidationIsAccepted(s, v);
    case _ =>
  }

  lemma RatioExactly(collateral: int, debt: int)
    requires debt >= 0 && collateral >= 0
    ensures MeetsRatio(collateral, debt) <==> 10 * collateral >= 13 * debt
  {
    if debt > 0 {
      RatioIsBacking(collateral, debt);
    }
  }

  lemma MintIsAccepted(s: Protocol, user: User, v: VaultID, amount: nat, fee: int)
    requires Sound(s)
    ensures Do(s, Mint(user, v, amount, fee)).ok <==>
              Unlocked(s, user, v) && 10 * CollateralIn(s, v) >= 13 * (Owed(s.vault, v) + amount)
  {
    hide MeetsRatio, MintFee, Collaterals;
    CollateralIsNonNegative(s, v);
    RatioExactly(CollateralIn(s, v), Owed(s.vault, v) + amount);
  }

  lemma CollateralIsNonNegative(s: Protocol, v: VaultID)
    requires Sound(s)
    ensures CollateralIn(s, v) >= 0
  {
    SumBounds(Collaterals(s.vault, v));
  }

  lemma WithdrawIsAccepted(s: Protocol, v: VaultID, coin: Coin, amount: nat)
    requires Sound(s)
    ensures Do(s, Withdraw(v, coin, amount)).ok <==>
              var entry := EntryOf(v, coin);
              && entry.coin != [] && entry in s.vault.collateral && amount <= s.vault.collateral[entry]
              && 10 * (CollateralIn(s, v) - amount) >= 13 * Owed(s.vault, v)
  {
    hide MeetsRatio, TrimRightZeros;
    var coll, entry := Collaterals(s.vault, v), EntryOf(v, coin);
    if entry in coll && amount <= coll[entry] {
      SumUpdate(coll, entry, coll[entry] - amount);
      SumBounds(coll);
      RatioExactly(Sum(coll) - amount, Owed(s.vault, v));
    }
  }

  lemma LiquidationIsAccepted(s: Protocol, v: VaultID)
    requires Sound(s)
    ensures Do(s, Liquidate(v)).ok <==>
              Owed(s.vault, v) > 0
              && 10_000 * Sum(UsdValues(s.vault, Collaterals(s.vault, v))) < 14_001 * Owed(s.vault, v)
  {
    hide AboveLiquidation, UsdValues, Collaterals;
    var value, owed := Sum(UsdValues(s.vault, Collaterals(s.vault, v))), Owed(s.vault, v);
    if owed > 0 {
      LiquidationThreshold(value, owed);
    } else {
      assert AboveLiquidation(value, 0) by { NothingOwedIsAbove(value); }
    }
  }

  lemma NothingOwedIsAbove(value: int)
    ensures AboveLiquidation(value, 0)
  {
  }

  // ----- what each call moves

  /** A deposit sets its entry, a withdrawal lowers it, and nothing else touches any entry. */
  lemma CollateralMoves(s: Protocol, c: Call, k: CollateralKey)
    requires Sound(s)
    ensures var before, after := At(s.vault.collateral, k), At(Do(s, c).after.vault.collateral, k);
            after == if c.Deposit? && Do(s, c).ok && k == KeyFor(c.v, TrimRightZeros(c.coin)) then c.amount
                     else if c.Withdraw? && Do(s, c).ok && k == EntryOf(c.v, c.coin) then before - c.amount
                     else before
  {
    hide MeetsRatio, AboveLiquidation, MintFee, TrimRightZeros;
    if c.Withdraw? && Do(s, c).ok {
      EntryIsKey(s.vault, c.v, c.coin);
    }
  }

  /** Mints add to their vault's debt, burns take away at most what is owed, a liquidation clears it, and
      nothing else touches any debt. */
  lemma DebtMoves(s: Protocol, c: Call, d: DebtKey)
    requires NonNegative(s.vault.debt)
    ensures var before, after := At(s.vault.debt, d), At(Do(s, c).after.vault.debt, d);
            after == match c
                     case Mint(_, v, amount, _) => before + if Do(s, c).ok && DebtOf(v) == d then amount else 0
                     case Burn(_, v, amount) =>
                       if DebtOf(v) != d then before else if amount < before then before - amount else 0
                     case Liquidate(v) => if Do(s, c).ok && DebtOf(v) == d then 0 else before
                     case _ => before
  {
    hide MeetsRatio, AboveLiquidation, MintFee, TrimRightZeros, Collaterals;
  }

  /** Mints add to their user's lock, burns release at most what is locked, and nothing else touches any
      lock. */
  lemma LocksMove(s: Protocol, c: Call, user: User)
    requires Sound(s)
    ensures var before, after := At(s.pool.minted, user), At(Do(s, c).after.pool.minted, user);
            after == match c
                     case Mint(u, _, amount, _) => before + if Do(s, c).ok && u == user then amount else 0
                     case Burn(u, _, amount) =>
                       if u != user then before else if amount < before then before - amount else 0
                     case _ => before
  {
    hide MeetsRatio, AboveLiquidation, MintFee, TrimRightZeros, Collaterals, SoundVault;
  }

  /** A price changes only by being set; accepted coins and fee rates never change. */
  lemma PricesMove(s: Protocol, c: Call, coin: Coin)
    requires NonNegative(s.vault.debt)
    ensures var before, after := s.vault, Do(s, c).after.vault;
            && At(after.prices, coin) == (if c.SetPrice? && c.coin == coin then c.price else At(before.prices, coin))
            && after.accepted == before.accepted && after.feeSlots == before.feeSlots
  {
    hide MeetsRatio, AboveLiquidation, MintFee, TrimRightZeros, Collaterals;
  }

  // ----- a user's lock

  /** What call c adds to the user's lock, before any floor. */
  ghost function LockFlow(s: Protocol, c: Call, user: User): int
    requires NonNegative(s.vault.debt)
  {
    match c
    case Mint(u, _, amount, _) => if Do(s, c).ok && u == user then amount else 0
    case Burn(u, _, amount) => if u == user then -(amount as int) else 0
    case _ => 0
  }

  ghost function NetMinted(start: Protocol, calls: seq<Call>, user: User): int
    requires NonNegative(start.vault.debt)
  {
    if calls == [] then 0
    else NetMinted(start, calls[..|calls| - 1], user)
         + LockFlow(After(start, calls[..|calls| - 1]), calls[|calls| - 1], user)
  }

  /** No burn of the user's exceeds the user's lock at that moment. */
  ghost predicate BurnsWithinLock(start: Protocol, calls: seq<Call>, user: User)
    requires NonNegative(start.vault.debt)
  {
    forall k | 0 <= k < |calls| && calls[k].Burn? && calls[k].user == user ::
      calls[k].amount <= At(After(start, calls[..k]).pool.minted, user)
  }

  /** A user is locked for at least what the user minted and has not burned, whoever's vaults it was;
      and for exactly that while no burn exceeds the lock. */
  lemma {:induction false} LockIsNetMinted(start: Protocol, calls: seq<Call>, user: User)
    requires Sound(start)
    ensures At(After(start, calls).pool.minted, user) >= At(start.pool.minted, user) + NetMinted(start, calls, user)
    ensures BurnsWithinLock(start, calls, user) ==>
              At(After(start, calls).pool.minted, user) == At(start.pool.minted, user) + NetMinted(start, calls, user)
  {
    if calls != [] {
      hide Do, Sound;
      var before, last := calls[..|calls| - 1], calls[|calls| - 1];
      assert forall k | 0 <= k < |before| :: before[..k] == calls[..k] && before[k] == calls[k];
      LockIsNetMinted(start, before, user);
      EveryRunIsSound(start, before);
      LocksMove(After(start, before), last, user);
      assert calls[..|calls| - 1] == before;
    }
  }

  // ----- fees and claims

  /** The fee that call c books for the user: what the amount times the rate in hundredths of a percent
      comes to, rounded down, even if the ratio then rejects the mint. */
  ghost function Booked(s: Protocol, c: Call, user: User): int {
    match c
    case Mint(u, v, amount, fee) => if u == user && fee > 0 && Unlocked(s, u, v) then amount * fee / 10_000 else 0
    case _ => 0
  }

  ghost function TotalBooked(start: Protocol, calls: seq<Call>, user: User): int
    requires NonNegative(start.vault.debt)
  {
    if calls == [] then 0
    else TotalBooked(start, calls[..|calls| - 1], user)
         + Booked(After(start, calls[..|calls| - 1]), calls[|calls| - 1], user)
  }

  /** What an accepted claim pays. */
  ghost function PaidTo(s: Protocol, c: Call, user: User): int
    requires NonNegative(s.vault.debt)
  {
    if c.ClaimRewards? && c.user == user && Do(s, c).ok then At(s.pool.pending, user) + At(s.pool.lpFees, user) else 0
  }

  ghost function TotalPaidTo(start: Protocol, calls: seq<Call>, user: User): int
    requires NonNegative(start.vault.debt)
  {
    if calls == [] then 0
    else TotalPaidTo(start, calls[..|calls| - 1], user)
         + PaidTo(After(start, calls[..|calls| - 1]), calls[|calls| - 1], user)
  }

  lemma ClaimableStep(s: Protocol, c: Call, user: User)
    requires NonNegative(s.vault.debt)
    ensures var p := Do(s, c).after.pool;
            At(p.pending, user) + At(p.lpFees, user) + PaidTo(s, c, user)
            == At(s.pool.pending, user) + At(s.pool.lpFees, user) + Booked(s, c, user)
  {
    hide MeetsRatio, AboveLiquidation, TrimRightZeros, Collaterals, AddRewards;
    if c.Mint? {
      FeeSign(c.amount, c.fee);
    }
  }

  lemma FeeSign(amount: nat, fee: int)
    ensures MintFee(amount, fee) > 0 ==> fee > 0
    ensures fee > 0 ==> MintFee(amount, fee) == amount * fee / 10_000 >= 0
  {
    if fee <= 0 {
      MulMono(fee, 0, amount);
    } else {
      MulMono(0, fee, amount);
    }
  }

  /** An accepted claim leaves its user nothing to claim. */
  lemma ClaimEmpties(s: Protocol, user: User)
    requires NonNegative(s.vault.debt)
    ensures !Do(Do(s, ClaimRewards(user)).after, ClaimRewards(user)).ok
  {
  }

  /** Every fee is paid to the user who minted, and once: over every run, what a user has claimed and can
      still claim is what was there at the start and what the user's own mints have booked. */
  lemma {:induction false} ClaimsAreBooked(start: Protocol, calls: seq<Call>, user: User)
    requires NonNegative(start.vault.debt)
    ensures var p := After(start, calls).pool;
            TotalPaidTo(start, calls, user) + At(p.pending, user) + At(p.lpFees, user)
            == At(start.pool.pending, user) + At(start.pool.lpFees, user) + TotalBooked(start, calls, user)
  {
    if calls != [] {
      hide Do, Booked, PaidTo;
      ClaimsAreBooked(start, calls[..|calls| - 1], user);
      ClaimableStep(After(start, calls[..|calls| - 1]), calls[|calls| - 1], user);
    }
  }

  // ----- the reward buckets

  /** What call c adds to the reward total: a mint's fee, or a tenth of an absorbed debt if anyone has a
      deposit. */
  ghost function Rewarded(s: Protocol, c: Call): int
    requires NonNegative(s.vault.debt)
  {
    match c
    case Mint(user, _, _, _) => Booked(s, c, user)
    case Absorb(v) => if Do(s, c).ok && s.pool.totalDeposits > 0 then Owed(s.vault, v) / 10 else 0
    case _ => 0
  }

  /** Rewards booked since the last accepted claim, whoever made it. */
  ghost function RewardsSinceClaim(start: Protocol, calls: seq<Call>): int
    requires NonNegative(start.vault.debt)
  {
    if calls == [] then start.pool.rewards.total
    else
      var s, last := After(start, calls[..|calls| - 1]), calls[|calls| - 1];
      if last.ClaimRewards? && Do(s, last).ok then 0
      else RewardsSinceClaim(start, calls[..|calls| - 1]) + Rewarded(s, last)
  }

  lemma RewardsStep(s: Protocol, c: Call)
    requires NonNegative(s.vault.debt)
    ensures Do(s, c).after.pool.rewards.total
         == if c.ClaimRewards? && Do(s, c).ok then 0 else s.pool.rewards.total + Rewarded(s, c)
  {
    hide MeetsRatio, AboveLiquidation, TrimRightZeros, Collaterals;
    if c.Mint? {
      FeeSign(c.amount, c.fee);
    } else if c.Absorb? {
      Tenth(Owed(s.vault, c.v));
    }
  }

  lemma Tenth(owed: int)
    ensures owed * 1_000 / 10_000 == owed / 10
  {
  }

  /** Claiming empties everybody's buckets: the reward total is what was booked since the last claim. */
  lemma {:induction false} RewardsAreSinceClaim(start: Protocol, calls: seq<Call>)
    requires NonNegative(start.vault.debt)
    ensures After(start, calls).pool.rewards.total == RewardsSinceClaim(start, calls)
  {
    if calls != [] {
      hide Do, Rewarded;
      RewardsAreSinceClaim(start, calls[..|calls| - 1]);
      RewardsStep(After(start, calls[..|calls| - 1]), calls[|calls| - 1]);
    }
  }

  // ----- the pool's balance

  /** What call c pays into the pool (or out of it): deposits, withdrawals, and debts absorbed. */
  ghost function BalanceFlow(s: Protocol, c: Call): int
    requires NonNegative(s.vault.debt)
  {
    if !Do(s, c).ok then 0 else
      match c
      case PoolDeposit(_, amount) => amount
      case PoolWithdraw(_, amount) => -(amount as int)
      case Absorb(v) => -Owed(s.vault, v)
      case _ => 0
  }

  ghost function NetBalance(start: Protocol, calls: seq<Call>): int
    requires NonNegative(start.vault.debt)
  {
    if calls == [] then 0
    else NetBalance(start, calls[..|calls| - 1]) + BalanceFlow(After(start, calls[..|calls| - 1]), calls[|calls| - 1])
  }

  /** Every accepted withdrawal of the run takes no more than the pool then holds. */
  ghost predicate WithdrawalsAreCovered(start: Protocol, calls: seq<Call>)
    requires NonNegative(start.vault.debt)
  {
    forall k | 0 <= k < |calls| && calls[k].PoolWithdraw? && Do(After(start, calls[..k]), calls[k]).ok ::
      calls[k].amount <= After(start, calls[..k]).pool.balance
  }

  lemma BalanceStep(s: Protocol, c: Call)
    requires Sound(s)
    ensures var after := Do(s, c).after.pool.balance;
            (after == s.pool.balance + BalanceFlow(s, c) <==>
               (c.PoolWithdraw? && Do(s, c).ok ==> c.amount <= s.pool.balance))
            && after >= s.pool.balance + BalanceFlow(s, c)
  {
    hide MeetsRatio, AboveLiquidation, MintFee, TrimRightZeros, Collaterals, SoundVault;
  }

  /** The pool's balance is what was deposited less what was withdrawn and absorbed, while every
      withdrawal is covered. */
  lemma {:induction false} BalanceIsNetFlow(start: Protocol, calls: seq<Call>)
    requires Sound(start) && WithdrawalsAreCovered(start, calls)
    ensures After(start, calls).pool.balance == start.pool.balance + NetBalance(start, calls)
  {
    if calls != [] {
      hide Do, Sound, BalanceFlow;
      var before, last := calls[..|calls| - 1], calls[|calls| - 1];
      assert forall k | 0 <= k < |before| :: before[..k] == calls[..k] && before[k] == calls[k];
      assert calls[..|calls| - 1] == before;
      BalanceIsNetFlow(start, before);
      EveryRunIsSound(start, before);
      BalanceStep(After(start, before), last);
    }
  }

  // ----- fees and prices

  /** Every allowed fee rate is positive and fits 16 bits, and is the rate of one of the vault's coins or
      1.5%. */
  lemma FeeIsPositive(s: Vault, v: VaultID, fee: int)
    requires FeeAllowed(s, v, fee)
    ensures 0 < fee < 0x1_0000
    ensures fee != 150 ==> exists k :: k in Collaterals(s, v) && At(s.feeSlots, k.coin) % 0x1_0000 == fee
  {
    if fee != 150 {
      var k :| k in Collaterals(s, v) && StabilityFee(s, k.coin) == fee;
      assert At(s.feeSlots, k.coin) % 0x1_0000 == fee;
    }
  }

  /** Where all coins of a vault have the same slot, the fee is that slot's low 16 bits, or 1.5% if these are
      zero. */
  lemma FeeOfEqualSlots(s: Vault, v: VaultID, slot: int, fee: int)
    requires Collaterals(s, v) != map[] && forall k | k in Collaterals(s, v) :: At(s.feeSlots, k.coin) == slot
    ensures FeeAllowed(s, v, fee) <==> fee == if slot % 0x1_0000 == 0 then 150 else slot % 0x1_0000
  {
    var k :| k in Collaterals(s, v);
    assert StabilityFee(s, k.coin) == if slot == 0 then 150 else slot % 0x1_0000;
  }

  /** A coin is worth its amount times its price in units of 1e-8, rounded down, or its amount as it is
      where no price is set; a negative amount is worth nothing. */
  lemma UsdValueIsFloor(s: Vault, k: CollateralKey, amount: int)
    ensures var value, price := UsdValue(s, k, amount), At(s.prices, k.coin);
            if amount <= 0 then value == 0
            else if price == 0 then value == amount
            else value * 100_000_000 <= amount * price < (value + 1) * 100_000_000
  {
  }

  /** Trimming takes the zeros at the end and nothing else. */
  lemma {:induction false} TrimTakesZeros(coin: Coin)
    ensures TrimRightZeros(coin) <= coin
    ensures forall i | |TrimRightZeros(coin)| <= i < |coin| :: coin[i] == 0
  {
    if coin != [] && coin[|coin| - 1] == 0 {
      TrimTakesZeros(coin[..|coin| - 1]);
    }
  }

  /** A name of up to eleven bytes is withdrawn from the entry that its deposit wrote; a longer one finds
      none. */
  lemma ShortNamesOnly(v: VaultID, coin: Coin)
    requires TrimRightZeros(coin) == coin
    ensures KeyFor(v, coin) == EntryOf(v, coin) <==> |coin| <= 11
  {
  }
}
