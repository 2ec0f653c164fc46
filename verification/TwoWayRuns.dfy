/** What holds across the vault and the stability pool, over every sequence of calls. */
module TwoWayRuns {
  import opened Prelude
  import opened TwoWay

  /** The protocol after some calls, failed ones included. */
  ghost function After(start: Protocol, calls: seq<Call>): (s: Protocol)
    requires NonNegative(start.vault.debt)
    ensures NonNegative(s.vault.debt)
  {
    if calls == [] then start else Do(After(start, calls[..|calls| - 1]), calls[|calls| - 1]).after
  }

  // ----- invariants of every run

  /** Nobody both owes minted 2WAY and holds a pool deposit. */
  ghost predicate Exclusive(p: Pool) {
    forall u: User :: !(At(p.minted, u) > 0 && At(p.deposits, u) > 0)
  }

  /** The deposit total is the sum of the deposits, the reward total that of its buckets. */
  ghost predicate SoundPool(p: Pool) {
    && NonNegative(p.minted) && NonNegative(p.deposits) && p.balance >= 0
    && Exclusive(p)
    && p.totalDeposits == Sum(p.deposits)
    && p.rewards.total == p.rewards.way + p.rewards.sway
  }

  predicate KeysFit(s: Vault) {
    forall k | k in s.collateral :: |k.coin| <= 11
  }

  /** The debt total never exceeds the sum of the vaults' debts. */
  ghost predicate SoundVault(s: Vault) {
    && NonNegative(s.collateral) && NonNegative(s.debt) && KeysFit(s)
    && 0 <= s.totalDebt <= Sum(s.debt)
  }

  ghost predicate Sound(s: Protocol) {
    SoundVault(s.vault) && SoundPool(s.pool)
  }

  lemma OwedWithinSum(s: Vault, v: VaultID)
    requires NonNegative(s.debt)
    ensures 0 <= Owed(s, v) <= Sum(s.debt)
  {
    SumBounds(s.debt);
  }

  lemma DebtKeepsSound(s: Vault, v: VaultID, amount: nat)
    requires SoundVault(s)
    ensures SoundVault(AddDebt(s, v, amount)) && SoundVault(BurnDebt(s, v, amount)) && SoundVault(ClearDebt(s, v))
  {
    OwedWithinSum(s, v);
    SumUpdate(s.debt, DebtOf(v), Owed(s, v) + amount);
    SumUpdate(s.debt, DebtOf(v), FloorAtZero(Owed(s, v) - amount));
    SumUpdate(s.debt, DebtOf(v), 0);
  }

  lemma MintKeepsSound(s: Protocol, user: User, v: VaultID, amount: nat, fee: int)
    requires Sound(s)
    ensures Sound(DoMint(s, user, v, amount, fee).after)
  {
    hide SoundVault, AddDebt, MeetsRatio, Collaterals, MintFee;
    DebtKeepsSound(s.vault, v, amount);
  }

  lemma PoolDepositKeepsSound(s: Protocol, user: User, amount: nat)
    requires Sound(s)
    ensures Sound(DoPoolDeposit(s, user, amount).after)
  {
    hide SoundVault;
    SumUpdate(s.pool.deposits, user, At(s.pool.deposits, user) + amount);
  }

  lemma PoolWithdrawKeepsSound(s: Protocol, user: User, amount: nat)
    requires Sound(s)
    ensures Sound(DoPoolWithdraw(s, user, amount).after)
  {
    hide SoundVault;
    SumUpdate(s.pool.deposits, user, At(s.pool.deposits, user) - amount);
    SumBounds(s.pool.deposits);
  }

  lemma BurnKeepsSound(s: Protocol, user: User, v: VaultID, amount: nat)
    requires Sound(s)
    ensures Sound(DoBurn(s, user, v, amount).after)
  {
    hide SoundVault, BurnDebt;
    DebtKeepsSound(s.vault, v, amount);
  }

  lemma LiquidateKeepsSound(s: Protocol, v: VaultID)
    requires Sound(s)
    ensures Sound(DoLiquidate(s, v).after)
  {
    hide SoundPool, ClearDebt;
    DebtKeepsSound(s.vault, v, 0);
  }

  lemma WithdrawKeepsSound(s: Protocol, v: VaultID, coin: Coin, amount: nat)
    requires Sound(s)
    ensures Sound(DoWithdraw(s, v, coin, amount).after)
  {
  }

  lemma DoKeepsSound(s: Protocol, c: Call)
    requires Sound(s)
    ensures Sound(Do(s, c).after)
  {
    hide DoMint, DoBurn, DoLiquidate, DoWithdraw, DoPoolDeposit, DoPoolWithdraw, TrimRightZeros;
    match c
    case Mint(user, v, amount, fee) => MintKeepsSound(s, user, v, amount, fee);
    case Burn(user, v, amount) => BurnKeepsSound(s, user, v, amount);
    case Liquidate(v) => LiquidateKeepsSound(s, v);
    case PoolDeposit(user, amount) => PoolDepositKeepsSound(s, user, amount);
    case PoolWithdraw(user, amount) => PoolWithdrawKeepsSound(s, user, amount);
    case Withdraw(v, coin, amount) => WithdrawKeepsSound(s, v, coin, amount);
    case Absorb(_) =>
    case Deposit(_, _, _) =>
    case SetPrice(_, _) =>
    case ClaimRewards(_) =>
  }

  lemma GenesisIsSound(accepted: set<Coin>, feeSlots: map<Coin, int>)
    ensures Sound(Genesis(accepted, feeSlots))
    ensures var s := Genesis(accepted, feeSlots);
            && s.vault == Vault(accepted, feeSlots, map[], map[], map[], 0)
            && s.pool.totalDeposits == s.pool.balance == s.pool.rewards.total == s.pool.rewards.way == 0
            && s.pool.minted == s.pool.deposits == s.pool.lpFees == s.pool.pending == map[]
  {
  }

  lemma {:induction false} EveryRunIsSound(start: Protocol, calls: seq<Call>)
    requires Sound(start)
    ensures Sound(After(start, calls))
  {
    if calls != [] {
      hide Do;
      EveryRunIsSound(start, calls[..|calls| - 1]);
      DoKeepsSound(After(start, calls[..|calls| - 1]), calls[|calls| - 1]);
    }
  }

  // ----- a failed mint still pays its fee

  lemma FeeHalves(r: Rewards, fee: nat)
    ensures var r' := AddRewards(r, fee);
            r'.total == r.total + fee && 0 <= (r'.sway - r.sway) - (r'.way - r.way) <= 1
            && (r'.sway - r.sway) + (r'.way - r.way) == fee
  {
  }

  /** A mint that gets past the exclusivity locks with some collateral in the vault books its fee,
      in equal halves up to a token, whether or not the ratio check then rejects it; a rejected one
      changes no debt and takes no lock. */
  lemma MintBooksFeeRegardless(s: Protocol, user: User, v: VaultID, amount: nat, fee: nat)
    requires NonNegative(s.vault.debt)
    requires MayMint(s.pool, user) && Sum(Collaterals(s.vault, v)) != 0
    ensures var o := Do(s, Mint(user, v, amount, fee));
            var booked := MintFee(amount, fee);
            && o.after.pool.rewards == (if booked > 0 then AddRewards(s.pool.rewards, booked) else s.pool.rewards)
            && At(o.after.pool.lpFees, user) == At(s.pool.lpFees, user) + booked
            && (o.ok <==> MeetsRatio(Sum(Collaterals(s.vault, v)), Owed(s.vault, v) + amount))
            && (!o.ok ==> o.after.vault == s.vault && o.after.pool.minted == s.pool.minted)
  {
    hide MeetsRatio, AddDebt, Collaterals;
  }

  // ----- the debt total

  /** From an exact total, a burn keeps it exact exactly when it does not exceed the vault's debt,
      or nobody else owes anything. */
  lemma BurnIsExact(s: Vault, v: VaultID, amount: nat)
    requires SoundVault(s) && s.totalDebt == Sum(s.debt)
    ensures var s' := BurnDebt(s, v, amount);
            s'.totalDebt == Sum(s'.debt) <==> amount <= Owed(s, v) || Sum(s.debt) == Owed(s, v)
  {
    SumUpdate(s.debt, DebtOf(v), FloorAtZero(Owed(s, v) - amount));
    OwedWithinSum(s, v);
  }

  /** No burn of the run exceeds what its vault owes at that moment. */
  ghost predicate BurnsAreCovered(start: Protocol, calls: seq<Call>)
    requires NonNegative(start.vault.debt)
  {
    forall k | 0 <= k < |calls| && calls[k].Burn? :: calls[k].amount <= Owed(After(start, calls[..k]).vault, calls[k].v)
  }

  ghost predicate ExactTotal(s: Vault) {
    s.totalDebt == Sum(s.debt)
  }

  lemma DebtStaysExact(s: Vault, v: VaultID, amount: nat)
    requires SoundVault(s) && ExactTotal(s)
    ensures ExactTotal(AddDebt(s, v, amount)) && ExactTotal(ClearDebt(s, v))
    ensures amount <= Owed(s, v) ==> ExactTotal(BurnDebt(s, v, amount))
  {
    SumUpdate(s.debt, DebtOf(v), Owed(s, v) + amount);
    SumUpdate(s.debt, DebtOf(v), 0);
    OwedWithinSum(s, v);
    BurnIsExact(s, v, amount);
  }

  lemma TotalStaysExact(s: Protocol, c: Call)
    requires Sound(s) && ExactTotal(s.vault)
    requires c.Burn? ==> c.amount <= Owed(s.vault, c.v)
    ensures ExactTotal(Do(s, c).after.vault)
  {
    hide MintFee, MeetsRatio, AboveLiquidation, AddDebt, BurnDebt, ClearDebt;
    match c
    case Mint(_, v, amount, _) => DebtStaysExact(s.vault, v, amount);
    case Burn(_, v, amount) => DebtStaysExact(s.vault, v, amount);
    case Liquidate(v) => DebtStaysExact(s.vault, v, 0);
    case _ =>
  }

  /** While every burn is covered, the total is the sum of the vaults' debts. */
  lemma {:induction false} TotalDebtIsExact(start: Protocol, calls: seq<Call>)
    requires Sound(start) && ExactTotal(start.vault) && BurnsAreCovered(start, calls)
    ensures ExactTotal(After(start, calls).vault)
  {
    if calls != [] {
      hide Do, ExactTotal, Sound;
      var before := calls[..|calls| - 1];
      assert forall k | 0 <= k < |before| :: before[..k] == calls[..k];
      TotalDebtIsExact(start, before);
      EveryRunIsSound(start, before);
      TotalStaysExact(After(start, before), calls[|calls| - 1]);
    }
  }

  // ----- collateral behind every debt

  ghost function Backing(s: Vault, first20: nat): int {
    Sum(Collaterals(s, VaultID(first20, 0, 0)))
  }

  ghost predicate IsBacked(s: Vault, d: DebtKey)
    requires d in s.debt
  {
    Backing(s, d.first20) * 10_000 >= MIN_RATIO * s.debt[d]
  }

  /** Every indebted vault is backed to 130%. */
  ghost predicate Backed(s: Vault) {
    forall d | d in s.debt && s.debt[d] > 0 :: IsBacked(s, d)
  }

  function VaultIn(c: Call): Option<VaultID> {
    match c
    case Deposit(v, _, _) => Some(v)
    case Mint(_, v, _, _) => Some(v)
    case Withdraw(v, _, _) => Some(v)
    case Burn(_, v, _) => Some(v)
    case Liquidate(v) => Some(v)
    case Absorb(v) => Some(v)
    case _ => None
  }

  /** Vault ids that agree in their first 20 bytes agree in the 31 that name the debt. */
  ghost predicate IdsAreDistinct(calls: seq<Call>) {
    forall i, j | 0 <= i < |calls| && 0 <= j < |calls| && VaultIn(calls[i]).Some? && VaultIn(calls[j]).Some?
               && VaultIn(calls[i]).value.first20 == VaultIn(calls[j]).value.first20 ::
      DebtOf(VaultIn(calls[i]).value) == DebtOf(VaultIn(calls[j]).value)
  }

  ghost predicate Lowers(s: Vault, c: Call) {
    c.Deposit? && c.amount < At(s.collateral, KeyFor(c.v, TrimRightZeros(c.coin)))
  }

  /** No deposit of the run records less than it replaces. */
  ghost predicate DepositsOnlyAdd(start: Protocol, calls: seq<Call>)
    requires NonNegative(start.vault.debt)
  {
    forall k | 0 <= k < |calls| :: !Lowers(After(start, calls[..k]).vault, calls[k])
  }

  lemma RatioIsBacking(collateral: int, debt: int)
    requires debt > 0
    ensures MeetsRatio(collateral, debt) <==> collateral * 10_000 >= MIN_RATIO * debt
  {
  }

  /** Writing one collateral entry changes the backing of its own first 20 bytes by the
      difference, and no other. */
  lemma BackingAfterWrite(s: Vault, v: VaultID, coin: Coin, amount: nat, first20: nat)
    ensures var k := KeyFor(v, coin);
            Backing(CreditVault(s, coin, v, amount), first20) == Backing(s, first20)
              + if v.first20 == first20 && k.coin != [] then amount - At(s.collateral, k) else 0
  {
    hide TrimRightZeros;
    var s', k := CreditVault(s, coin, v, amount), KeyFor(v, coin);
    var w := VaultID(first20, 0, 0);
    if k.first20 == first20 && k.coin != [] {
      assert Collaterals(s', w) == Collaterals(s, w)[k := amount];
      SumUpdate(Collaterals(s, w), k, amount);
    } else {
      assert Collaterals(s', w) == Collaterals(s, w);
    }
  }

  lemma SameBacking(s: Vault, s': Vault, first20: nat)
    requires s'.collateral == s.collateral
    ensures Backing(s', first20) == Backing(s, first20)
  {
  }

  lemma BackingOf(s: Vault, v: VaultID)
    ensures Sum(Collaterals(s, v)) == Backing(s, v.first20)
  {
  }

  /** In s, whoever shares v's first 20 bytes and owes anything is v. */
  ghost predicate OnlyDebtor(s: Vault, v: VaultID) {
    forall d | d in s.debt && s.debt[d] > 0 && d.first20 == v.first20 :: d == DebtOf(v)
  }

  lemma MintKeepsBacked(s: Vault, v: VaultID, amount: nat)
    requires SoundVault(s) && Backed(s) && MeetsRatio(Sum(Collaterals(s, v)), Owed(s, v) + amount)
    ensures Backed(AddDebt(s, v, amount))
  {
    hide MeetsRatio, Collaterals, Backing;
    var s' := AddDebt(s, v, amount);
    forall d | d in s'.debt && s'.debt[d] > 0 ensures IsBacked(s', d) {
      SameBacking(s, s', d.first20);
      if d == DebtOf(v) {
        BackingOf(s, v);
        RatioIsBacking(Sum(Collaterals(s, v)), s'.debt[d]);
      } else {
        assert IsBacked(s, d);
      }
    }
  }

  /** Where a withdrawal finds its coin is where it writes the rest back. */
  lemma EntryIsKey(s: Vault, v: VaultID, coin: Coin)
    requires KeysFit(s) && EntryOf(v, coin) in Collaterals(s, v)
    ensures KeyFor(v, TrimRightZeros(coin)) == EntryOf(v, coin)
  {
  }

  lemma WithdrawnBacking(s: Vault, v: VaultID, coin: Coin, amount: nat, first20: nat)
    requires SoundVault(s) && EntryOf(v, coin) in Collaterals(s, v) && amount <= Collaterals(s, v)[EntryOf(v, coin)]
    ensures var coll, id := Collaterals(s, v), EntryOf(v, coin);
            var s' := CreditVault(s, TrimRightZeros(coin), v, coll[id] - amount);
            Backing(s', first20) == if first20 == v.first20 then Sum(coll[id := coll[id] - amount])
                                    else Backing(s, first20)
  {
    hide TrimRightZeros, CreditVault, Backing;
    var coll, id := Collaterals(s, v), EntryOf(v, coin);
    EntryIsKey(s, v, coin);
    BackingAfterWrite(s, v, TrimRightZeros(coin), coll[id] - amount, first20);
    SumUpdate(coll, id, coll[id] - amount);
    BackingOf(s, v);
  }

  lemma WithdrawKeepsBacked(s: Vault, v: VaultID, coin: Coin, amount: nat)
    requires SoundVault(s) && Backed(s) && OnlyDebtor(s, v) && CanWithdraw(s, v, coin, amount)
    ensures Backed(CreditVault(s, TrimRightZeros(coin), v, Collaterals(s, v)[EntryOf(v, coin)] - amount))
  {
    hide MeetsRatio, Backing, TrimRightZeros, Collaterals;
    var coll, id := Collaterals(s, v), EntryOf(v, coin);
    var s' := CreditVault(s, TrimRightZeros(coin), v, coll[id] - amount);
    forall d | d in s'.debt && s'.debt[d] > 0 ensures IsBacked(s', d) {
      WithdrawnBacking(s, v, coin, amount, d.first20);
      if d.first20 == v.first20 {
        RatioIsBacking(Sum(coll[id := coll[id] - amount]), s.debt[d]);
      } else {
        assert IsBacked(s, d);
      }
    }
  }

  /** A deposit leaves its vault backed exactly when what it takes off the entry is within the
      vault's slack above 130%. */
  lemma DepositIsBacked(s: Vault, v: VaultID, coin: Coin, amount: nat)
    requires DebtOf(v) in s.debt && KeyFor(v, coin).coin != []
    ensures IsBacked(CreditVault(s, coin, v, amount), DebtOf(v)) <==>
              (At(s.collateral, KeyFor(v, coin)) - amount) * 10_000
                <= Backing(s, v.first20) * 10_000 - MIN_RATIO * s.debt[DebtOf(v)]
  {
    hide Backing, TrimRightZeros;
    BackingAfterWrite(s, v, coin, amount, v.first20);
  }

  lemma DepositKeepsBacked(s: Vault, v: VaultID, coin: Coin, amount: nat)
    requires Backed(s) && At(s.collateral, KeyFor(v, coin)) <= amount
    ensures Backed(CreditVault(s, coin, v, amount))
  {
    hide Backing, TrimRightZeros;
    var s' := CreditVault(s, coin, v, amount);
    forall d | d in s'.debt && s'.debt[d] > 0 ensures IsBacked(s', d) {
      BackingAfterWrite(s, v, coin, amount, d.first20);
      assert IsBacked(s, d);
    }
  }

  /** Less debt on the same collateral stays backed. */
  lemma LessDebtKeepsBacked(s: Vault, s': Vault)
    requires Backed(s) && s'.collateral == s.collateral
    requires forall d | d in s'.debt && s'.debt[d] > 0 :: d in s.debt && s'.debt[d] <= s.debt[d]
    ensures Backed(s')
  {
  }

  lemma DoKeepsBacked(s: Protocol, c: Call)
    requires Sound(s) && Backed(s.vault) && !Lowers(s.vault, c)
    requires VaultIn(c).Some? ==> OnlyDebtor(s.vault, VaultIn(c).value)
    ensures Backed(Do(s, c).after.vault)
  {
    hide Backed, MeetsRatio, AboveLiquidation, MintFee, Collaterals, CanWithdraw, OnlyDebtor, TrimRightZeros;
    match c
    case Deposit(v, coin, amount) => DepositKeepsBacked(s.vault, v, TrimRightZeros(coin), amount);
    case Mint(user, v, amount, fee) =>
      if DoMint(s, user, v, amount, fee).ok {
        MintKeepsBacked(s.vault, v, amount);
      }
    case Withdraw(v, coin, amount) =>
      if CanWithdraw(s.vault, v, coin, amount) {
        WithdrawKeepsBacked(s.vault, v, coin, amount);
      }
    case Burn(_, v, amount) => LessDebtKeepsBacked(s.vault, BurnDebt(s.vault, v, amount));
    case Liquidate(v) => LessDebtKeepsBacked(s.vault, ClearDebt(s.vault, v));
    case SetPrice(coin, price) => LessDebtKeepsBacked(s.vault, s.vault.(prices := s.vault.prices[coin := price]));
    case _ =>
  }

  ghost predicate Named(calls: seq<Call>, d: DebtKey) {
    exists i :: 0 <= i < |calls| && VaultIn(calls[i]).Some? && DebtOf(VaultIn(calls[i]).value) == d
  }

  lemma NewDebtsAreNamed(s: Protocol, c: Call)
    requires NonNegative(s.vault.debt)
    ensures forall d | d in Do(s, c).after.vault.debt ::
              d in s.vault.debt || (VaultIn(c).Some? && d == DebtOf(VaultIn(c).value))
  {
  }

  /** Every debt was minted under a vault id that the run names. */
  lemma {:induction false} DebtorsAreNamed(start: Protocol, calls: seq<Call>)
    requires NonNegative(start.vault.debt) && start.vault.debt == map[]
    ensures forall d | d in After(start, calls).vault.debt :: Named(calls, d)
  {
    if calls != [] {
      hide Do;
      var before, last := calls[..|calls| - 1], calls[|calls| - 1];
      DebtorsAreNamed(start, before);
      NewDebtsAreNamed(After(start, before), last);
      assert calls[|calls| - 1] == last;
      forall d | Named(before, d) ensures Named(calls, d) {
        var i :| 0 <= i < |before| && VaultIn(before[i]).Some? && DebtOf(VaultIn(before[i]).value) == d;
        assert calls[i] == before[i];
      }
    }
  }

  lemma OnlyDebtorFromIds(calls: seq<Call>, s: Vault)
    requires calls != [] && IdsAreDistinct(calls) && VaultIn(calls[|calls| - 1]).Some?
    requires forall d | d in s.debt :: Named(calls[..|calls| - 1], d)
    ensures OnlyDebtor(s, VaultIn(calls[|calls| - 1]).value)
  {
  }

  lemma PrefixConditions(start: Protocol, calls: seq<Call>)
    requires NonNegative(start.vault.debt) && calls != []
    requires IdsAreDistinct(calls) && DepositsOnlyAdd(start, calls)
    ensures IdsAreDistinct(calls[..|calls| - 1]) && DepositsOnlyAdd(start, calls[..|calls| - 1])
    ensures !Lowers(After(start, calls[..|calls| - 1]).vault, calls[|calls| - 1])
  {
    hide Lowers, After;
    var before := calls[..|calls| - 1];
    assert forall k | 0 <= k < |before| :: before[..k] == calls[..k] && before[k] == calls[k];
  }

  /** While vault ids are distinct in their first 20 bytes and no deposit lowers an entry, every
      indebted vault keeps 130% behind it, whatever the prices do. */
  lemma {:induction false} EveryDebtIsBacked(start: Protocol, calls: seq<Call>)
    requires Sound(start) && start.vault.debt == map[]
    requires IdsAreDistinct(calls) && DepositsOnlyAdd(start, calls)
    ensures Backed(After(start, calls).vault)
  {
    if calls != [] {
      hide Do, IdsAreDistinct, DepositsOnlyAdd, Lowers, Backed, OnlyDebtor;
      var before, last := calls[..|calls| - 1], calls[|calls| - 1];
      PrefixConditions(start, calls);
      EveryDebtIsBacked(start, before);
      EveryRunIsSound(start, before);
      DebtorsAreNamed(start, before);
      if VaultIn(last).Some? {
        OnlyDebtorFromIds(calls, After(start, before).vault);
      }
      DoKeepsBacked(After(start, before), last);
    }
  }

  // ----- liquidation and absorption

  lemma DefaultPricesValueAsIs(s: Vault, v: VaultID)
    requires NonNegative(s.collateral) && forall coin: Coin :: Price(s, coin) == DEFAULT_PRICE
    ensures Sum(UsdValues(s, Collaterals(s, v))) == Sum(Collaterals(s, v))
  {
    var coll := Collaterals(s, v);
    forall k | k in coll ensures UsdValue(s, k, coll[k]) == coll[k] {
      assert Price(s, k.coin) == DEFAULT_PRICE;
    }
    assert UsdValues(s, coll) == coll;
  }

  /** The safe ratio of a mint lies below the ratio of liquidation: at default prices a vault that
      has just minted can be liquidated at once exactly when it stands below 140.01%. */
  lemma FreshMintMayBeLiquidated(s: Protocol, user: User, v: VaultID, amount: nat, fee: int)
    requires Sound(s) && forall coin: Coin :: Price(s.vault, coin) == DEFAULT_PRICE
    requires DoMint(s, user, v, amount, fee).ok && Owed(s.vault, v) + amount > 0
    ensures Do(DoMint(s, user, v, amount, fee).after, Liquidate(v)).ok <==>
              Sum(Collaterals(s.vault, v)) * 10_000 < (LIQUIDATION_RATIO + 1) * (Owed(s.vault, v) + amount)
  {
    hide MeetsRatio, MintFee, UsdValues;
    var s' := AddDebt(s.vault, v, amount);
    assert forall coin: Coin :: Price(s', coin) == Price(s.vault, coin);
    assert Collaterals(s', v) == Collaterals(s.vault, v);
    DefaultPricesValueAsIs(s', v);
    LiquidationThreshold(Sum(Collaterals(s.vault, v)), Owed(s.vault, v) + amount);
  }

  lemma LiquidationThreshold(value: int, owed: int)
    requires owed > 0
    ensures AboveLiquidation(value, owed) <==> value * 10_000 >= (LIQUIDATION_RATIO + 1) * owed
  {
    QuotientBelow(value * 10_000, owed, LIQUIDATION_RATIO + 1);
  }

  /** Liquidation comes first and leaves nothing to absorb; it releases no one's minting lock. */
  lemma LiquidatedCannotBeAbsorbed(s: Protocol, v: VaultID)
    requires Sound(s) && Do(s, Liquidate(v)).ok
    ensures var s' := Do(s, Liquidate(v)).after;
            Do(s', Absorb(v)) == Outcome(false, s') && s'.pool == s.pool
  {
  }

  /** Absorption pays a debt without clearing it: it can be repeated, exactly while the pool's
      balance still covers the debt. */
  lemma AbsorbRepeats(s: Protocol, v: VaultID)
    requires Sound(s) && Do(s, Absorb(v)).ok
    ensures var s' := Do(s, Absorb(v)).after;
            && s'.vault == s.vault && s'.pool.deposits == s.pool.deposits
            && s'.pool.balance == s.pool.balance - Owed(s.vault, v)
            && (Do(s', Absorb(v)).ok <==> s.pool.balance >= 2 * Owed(s.vault, v))
  {
  }

  /** A withdrawal lowers the pool's balance by its amount exactly when the balance covers it;
      otherwise the slot keeps the difference without its sign. */
  lemma PoolWithdrawBalance(s: Protocol, user: User, amount: nat)
    requires Sound(s) && Do(s, PoolWithdraw(user, amount)).ok
    ensures var s' := Do(s, PoolWithdraw(user, amount)).after;
            && s'.pool.totalDeposits == s.pool.totalDeposits - amount
            && (s'.pool.balance == s.pool.balance - amount <==> amount <= s.pool.balance)
  {
    SumBounds(s.pool.deposits);
  }

  // ----- each depositor's account

  /** What call c moves into (or out of) the pool for the user. */
  ghost function PoolFlow(s: Protocol, c: Call, user: User): int
    requires NonNegative(s.vault.debt)
  {
    match c
    case PoolDeposit(u, amount) => if u == user && Do(s, c).ok then amount else 0
    case PoolWithdraw(u, amount) => if u == user && Do(s, c).ok then -(amount as int) else 0
    case _ => 0
  }

  ghost function NetFlow(start: Protocol, calls: seq<Call>, user: User): int
    requires NonNegative(start.vault.debt)
  {
    if calls == [] then 0
    else NetFlow(start, calls[..|calls| - 1], user)
         + PoolFlow(After(start, calls[..|calls| - 1]), calls[|calls| - 1], user)
  }

  lemma DepositStep(s: Protocol, c: Call, user: User)
    requires NonNegative(s.vault.debt)
    ensures At(Do(s, c).after.pool.deposits, user) == At(s.pool.deposits, user) + PoolFlow(s, c, user)
  {
  }

  /** A user's deposit is what the user's accepted calls have put in and not taken out: no mint,
      burn, liquidation, absorption or other user touches it. */
  lemma {:induction false} DepositIsNetFlow(start: Protocol, calls: seq<Call>, user: User)
    requires NonNegative(start.vault.debt)
    ensures At(After(start, calls).pool.deposits, user) == At(start.pool.deposits, user) + NetFlow(start, calls, user)
  {
    if calls != [] {
      hide Do, PoolFlow;
      DepositIsNetFlow(start, calls[..|calls| - 1], user);
      DepositStep(After(start, calls[..|calls| - 1]), calls[|calls| - 1], user);
    }
  }

  // ----- why the two conditions are needed

  const USD: Coin := [85, 83, 68]

  function Opened(): Protocol {
    Genesis({USD}, map[])
  }

  lemma AfterThree(start: Protocol, a: Call, b: Call, c: Call)
    requires NonNegative(start.vault.debt)
    ensures After(start, [a, b, c]) == Do(Do(Do(start, a).after, b).after, c).after
    ensures After(start, [a, b]) == Do(Do(start, a).after, b).after
    ensures After(start, [a]) == Do(start, a).after
  {
    hide Do, After;
    AfterOne(start, [], a);
    AfterOne(start, [a], b);
    AfterOne(start, [a, b], c);
    AfterNone(start);
    assert [] + [a] == [a] && [a] + [b] == [a, b] && [a, b] + [c] == [a, b, c];
  }

  lemma AfterNone(start: Protocol)
    requires NonNegative(start.vault.debt)
    ensures After(start, []) == start
  {
  }

  lemma AfterOne(start: Protocol, calls: seq<Call>, c: Call)
    requires NonNegative(start.vault.debt)
    ensures After(start, calls + [c]) == Do(After(start, calls), c).after
  {
  }

  /** USD under vault v, as a single entry. */
  lemma {:induction false} SingleCollateral(s: Vault, v: VaultID, amount: int)
    requires s.collateral == map[CollateralKey(v.first20, USD) := amount]
    ensures Sum(Collaterals(s, v)) == amount && Backing(s, v.first20) == amount
    ensures Collaterals(s, v) == map[CollateralKey(v.first20, USD) := amount]
  {
    var k := CollateralKey(v.first20, USD);
    var coll := Collaterals(s, v);
    assert coll == map[k := amount];
    SumRemove(coll, k);
    SumEmpty(coll - {k});
    BackingOf(s, v);
  }

  lemma UsdIsTrimmed(v: VaultID)
    ensures TrimRightZeros(USD) == USD && KeyFor(v, USD) == CollateralKey(v.first20, USD) == EntryOf(v, USD)
  {
  }

  function BorrowedVault(v: VaultID): Vault {
    Vault({USD}, map[], map[], map[CollateralKey(v.first20, USD) := 200], map[DebtOf(v) := 100], 100)
  }

  /** Depositing 200 and minting 100 under vault id v. */
  lemma Borrow(v: VaultID, user: User)
    ensures After(Opened(), [Deposit(v, USD, 200), Mint(user, v, 100, 150)]).vault == BorrowedVault(v)
  {
    hide TrimRightZeros, MintFee, Collaterals, After;
    UsdIsTrimmed(v);
    AfterThree(Opened(), Deposit(v, USD, 200), Mint(user, v, 100, 150), SetPrice(USD, 0));
    var s1 := Do(Opened(), Deposit(v, USD, 200)).after;
    SingleCollateral(s1.vault, v, 200);
  }

  /** A deposit of nothing overwrites the entry: a run on one vault id ends unbacked. */
  lemma LoweringDepositUnbacks(v: VaultID, user: User)
    ensures var calls := [Deposit(v, USD, 200), Mint(user, v, 100, 150), Deposit(v, USD, 0)];
            IdsAreDistinct(calls) && !Backed(After(Opened(), calls).vault)
  {
    hide TrimRightZeros, MintFee, Collaterals, After, DoMint;
    Borrow(v, user);
    UsdIsTrimmed(v);
    AfterThree(Opened(), Deposit(v, USD, 200), Mint(user, v, 100, 150), Deposit(v, USD, 0));
    var s' := CreditVault(BorrowedVault(v), USD, v, 0);
    SingleCollateral(s', v, 0);
    assert !IsBacked(s', DebtOf(v));
  }

  /** Two ids with the same first 20 bytes share their collateral but not their debt: a withdrawal
      through the other id, which owes nothing, ends unbacked. */
  lemma SharedPrefixUnbacks(v: VaultID, w: VaultID, user: User)
    requires v.first20 == w.first20 && v.next11 != w.next11
    ensures var calls := [Deposit(v, USD, 200), Mint(user, v, 100, 150), Withdraw(w, USD, 200)];
            DepositsOnlyAdd(Opened(), calls) && !Backed(After(Opened(), calls).vault)
  {
    hide TrimRightZeros, MintFee, Collaterals, After, DoMint;
    Borrow(v, user);
    UsdIsTrimmed(v);
    UsdIsTrimmed(w);
    AfterThree(Opened(), Deposit(v, USD, 200), Mint(user, v, 100, 150), Withdraw(w, USD, 200));
    SingleCollateral(BorrowedVault(v), w, 200);
    var s' := CreditVault(BorrowedVault(v), USD, w, 0);
    SingleCollateral(s', v, 0);
    assert !IsBacked(s', DebtOf(v));
    var calls := [Deposit(v, USD, 200), Mint(user, v, 100, 150), Withdraw(w, USD, 200)];
    forall k | 0 <= k < 3 ensures !Lowers(After(Opened(), calls[..k]).vault, calls[k]) {
      AfterNone(Opened());
      assert calls[..0] == [];
    }
  }
}
