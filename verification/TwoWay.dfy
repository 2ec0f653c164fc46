/** The 2WAY vault (0x18) and its stability pool (0x19): two precompiles over shared storage.
    A failed call keeps the writes it made before failing. */
module TwoWay {
  import opened Prelude
  import opened Bytes

  type User = int

  /** A 32-byte vault id: collateral keys use its first 20 bytes, debt keys its first 31. */
  datatype VaultID = VaultID(first20: nat, next11: nat, last: nat)

  type Coin = Bytestring

  datatype CollateralKey = CollateralKey(first20: nat, coin: Coin)
  datatype DebtKey = DebtKey(first20: nat, next11: nat)

  function TrimRightZeros(b: Bytestring): (t: Bytestring)
    ensures |t| <= |b| && (t != [] ==> t[|t| - 1] != 0)
  {
    if b != [] && b[|b| - 1] == 0 then TrimRightZeros(b[..|b| - 1]) else b
  }

  /** A key holds eleven bytes of the coin's name, padded with zeros. */
  function KeyFor(v: VaultID, coin: Coin): CollateralKey {
    CollateralKey(v.first20, TrimRightZeros(if |coin| > 11 then coin[..11] else coin))
  }

  function DebtOf(v: VaultID): DebtKey {
    DebtKey(v.first20, v.next11)
  }

  const DEFAULT_FEE_BPS := 150
  const DEFAULT_PRICE := 100_000_000
  const MIN_RATIO := 13_000
  const LIQUIDATION_RATIO := 14_000

  /** The storage of 0x18. */
  datatype Vault = Vault(
    accepted: set<Coin>, feeSlots: map<Coin, int>, prices: map<Coin, int>,
    collateral: map<CollateralKey, int>, debt: map<DebtKey, int>, totalDebt: int)

  datatype Rewards = Rewards(way: int, sway: int, total: int)

  /** The storage of 0x19; minted is each user's lock for debt minted at 0x18. */
  datatype Pool = Pool(
    minted: map<User, int>, deposits: map<User, int>, totalDeposits: int, balance: int,
    rewards: Rewards, lpFees: map<User, int>, pending: map<User, int>)

  datatype Protocol = Protocol(vault: Vault, pool: Pool)

  datatype Outcome = Outcome(ok: bool, after: Protocol)

  /** The collateral entries that a scan for vault v finds. */
  function Collaterals(s: Vault, v: VaultID): map<CollateralKey, int> {
    map k | k in s.collateral && k.first20 == v.first20 && k.coin != [] :: s.collateral[k]
  }

  function Owed(s: Vault, v: VaultID): int {
    At(s.debt, DebtOf(v))
  }

  /** A big integer written to a slot loses its sign. */
  function Stored(x: int): int {
    if x < 0 then -x else x
  }

  function FloorAtZero(x: int): int {
    if x < 0 then 0 else x
  }

  predicate MeetsRatio(collateral: int, debt: int)
    requires debt >= 0
  {
    debt == 0 || collateral * 10_000 / debt >= MIN_RATIO
  }

  predicate AboveLiquidation(value: int, debt: int)
    requires debt >= 0
  {
    debt == 0 || value * 10_000 / debt > LIQUIDATION_RATIO
  }

  function Price(s: Vault, coin: Coin): int {
    if At(s.prices, coin) == 0 then DEFAULT_PRICE else At(s.prices, coin)
  }

  function UsdValue(s: Vault, k: CollateralKey, amount: int): int {
    if amount <= 0 then 0 else amount * Price(s, k.coin) / 100_000_000
  }

  function UsdValues(s: Vault, coll: map<CollateralKey, int>): map<CollateralKey, int> {
    map k | k in coll :: UsdValue(s, k, coll[k])
  }

  /** A 16-bit parameter slot, or its default when it reads as zero. */
  function StabilityFee(s: Vault, coin: Coin): int {
    if At(s.feeSlots, coin) == 0 then DEFAULT_FEE_BPS else At(s.feeSlots, coin) % 65_536
  }

  /** The fee a mint may charge: that of whichever collateral the scan meets first. */
  predicate FeeAllowed(s: Vault, v: VaultID, fee: int) {
    if forall k | k in Collaterals(s, v) :: StabilityFee(s, k.coin) <= 0 then fee == DEFAULT_FEE_BPS
    else fee > 0 && exists k :: k in Collaterals(s, v) && StabilityFee(s, k.coin) == fee
  }

  datatype Call =
    | Deposit(v: VaultID, coin: Coin, amount: nat)
    | Mint(user: User, v: VaultID, amount: nat, fee: int)
    | Withdraw(v: VaultID, coin: Coin, amount: nat)
    | Burn(user: User, v: VaultID, amount: nat)
    | Liquidate(v: VaultID)
    | SetPrice(coin: Coin, price: nat)
    | PoolDeposit(user: User, amount: nat)
    | PoolWithdraw(user: User, amount: nat)
    | ClaimRewards(user: User)
    | Absorb(v: VaultID)

  function AddRewards(r: Rewards, reward: int): Rewards {
    Rewards(r.way + reward / 2, r.sway + (reward - reward / 2), r.total + reward)
  }

  function MintFee(amount: nat, fee: int): int {
    amount * fee / 10_000
  }

  /** The fee is booked before the ratio is checked. */
  function ChargeFee(p: Pool, user: User, fee: int): Pool {
    if fee > 0 then p.(rewards := AddRewards(p.rewards, fee), lpFees := p.lpFees[user := At(p.lpFees, user) + fee])
    else p
  }

  function CreditVault(s: Vault, coin: Coin, v: VaultID, amount: nat): Vault {
    s.(collateral := s.collateral[KeyFor(v, coin) := amount])
  }

  function AddDebt(s: Vault, v: VaultID, amount: nat): Vault {
    s.(debt := s.debt[DebtOf(v) := Owed(s, v) + amount], totalDebt := s.totalDebt + amount)
  }

  function BurnDebt(s: Vault, v: VaultID, amount: nat): Vault {
    s.(debt := s.debt[DebtOf(v) := FloorAtZero(Owed(s, v) - amount)], totalDebt := FloorAtZero(s.totalDebt - amount))
  }

  function ClearDebt(s: Vault, v: VaultID): Vault {
    s.(debt := s.debt[DebtOf(v) := 0], totalDebt := FloorAtZero(s.totalDebt - Owed(s, v)))
  }

  predicate MayMint(p: Pool, user: User) {
    At(p.minted, user) <= 0 && At(p.deposits, user) <= 0
  }

  function DoDeposit(s: Protocol, v: VaultID, coin: Coin, amount: nat): Outcome {
    if TrimRightZeros(coin) !in s.vault.accepted then Outcome(false, s)
    else Outcome(true, s.(vault := CreditVault(s.vault, TrimRightZeros(coin), v, amount)))
  }

  /** A mint that has passed the locks. */
  ghost function ChargeAndMint(s: Protocol, user: User, v: VaultID, amount: nat, fee: int): Outcome
    requires Owed(s.vault, v) >= 0
  {
    var charged := ChargeFee(s.pool, user, MintFee(amount, fee));
    if !MeetsRatio(Sum(Collaterals(s.vault, v)), Owed(s.vault, v) + amount) then
      Outcome(false, Protocol(s.vault, charged))
    else
      Outcome(true, Protocol(AddDebt(s.vault, v, amount),
                             charged.(minted := charged.minted[user := At(charged.minted, user) + amount])))
  }

  ghost function DoMint(s: Protocol, user: User, v: VaultID, amount: nat, fee: int): Outcome
    requires Owed(s.vault, v) >= 0
  {
    if !MayMint(s.pool, user) || Sum(Collaterals(s.vault, v)) == 0 then Outcome(false, s)
    else ChargeAndMint(s, user, v, amount, fee)
  }

  /** The entry a withdrawal looks for: the whole name, not cut to what a key can hold. */
  function EntryOf(v: VaultID, coin: Coin): CollateralKey {
    CollateralKey(v.first20, TrimRightZeros(coin))
  }

  ghost predicate CanWithdraw(s: Vault, v: VaultID, coin: Coin, amount: nat)
    requires Owed(s, v) >= 0
  {
    var coll, id := Collaterals(s, v), EntryOf(v, coin);
    id in coll && amount <= coll[id] && MeetsRatio(Sum(coll[id := coll[id] - amount]), Owed(s, v))
  }

  ghost function DoWithdraw(s: Protocol, v: VaultID, coin: Coin, amount: nat): Outcome
    requires Owed(s.vault, v) >= 0
  {
    if !CanWithdraw(s.vault, v, coin, amount) then Outcome(false, s)
    else
      var left := Collaterals(s.vault, v)[EntryOf(v, coin)] - amount;
      Outcome(true, s.(vault := CreditVault(s.vault, TrimRightZeros(coin), v, left)))
  }

  function DoBurn(s: Protocol, user: User, v: VaultID, amount: nat): Outcome {
    Outcome(true, Protocol(
      BurnDebt(s.vault, v, amount),
      s.pool.(minted := s.pool.minted[user := FloorAtZero(At(s.pool.minted, user) - amount)])))
  }

  ghost function DoLiquidate(s: Protocol, v: VaultID): Outcome
    requires Owed(s.vault, v) >= 0
  {
    if AboveLiquidation(Sum(UsdValues(s.vault, Collaterals(s.vault, v))), Owed(s.vault, v)) then Outcome(false, s)
    else Outcome(true, s.(vault := ClearDebt(s.vault, v)))
  }

  function DoPoolDeposit(s: Protocol, user: User, amount: nat): Outcome {
    var p := s.pool;
    if amount == 0 || At(p.minted, user) > 0 then Outcome(false, s)
    else Outcome(true, s.(pool := p.(
      deposits := p.deposits[user := At(p.deposits, user) + amount],
      totalDeposits := p.totalDeposits + amount,
      balance := p.balance + amount)))
  }

  function DoPoolWithdraw(s: Protocol, user: User, amount: nat): Outcome {
    var p := s.pool;
    if amount == 0 || At(p.deposits, user) < amount then Outcome(false, s)
    else Outcome(true, s.(pool := p.(
      deposits := p.deposits[user := At(p.deposits, user) - amount],
      totalDeposits := Stored(p.totalDeposits - amount),
      balance := Stored(p.balance - amount))))
  }

  function Claimable(p: Pool, user: User): int {
    At(p.pending, user) + At(p.lpFees, user)
  }

  function DoClaim(s: Protocol, user: User): Outcome {
    var p := s.pool;
    if Claimable(p, user) <= 0 then Outcome(false, s)
    else Outcome(true, s.(pool := p.(
      pending := p.pending[user := 0], lpFees := p.lpFees[user := 0], rewards := Rewards(0, 0, 0))))
  }

  /** ok is the boolean that absorb answers; a vault without debt is an error. */
  function DoAbsorb(s: Protocol, v: VaultID): Outcome {
    var owed, p := Owed(s.vault, v), s.pool;
    if owed <= 0 || p.balance < owed then Outcome(false, s)
    else
      var reward := owed * 1_000 / 10_000;
      Outcome(true, s.(pool := p.(
        balance := p.balance - owed,
        rewards := if p.totalDeposits > 0 && reward > 0 then AddRewards(p.rewards, reward) else p.rewards)))
  }

  ghost function Do(s: Protocol, c: Call): (o: Outcome)
    requires NonNegative(s.vault.debt)
    ensures NonNegative(o.after.vault.debt)
  {
    match c
    case Deposit(v, coin, amount) => DoDeposit(s, v, coin, amount)
    case Mint(user, v, amount, fee) => DoMint(s, user, v, amount, fee)
    case Withdraw(v, coin, amount) => DoWithdraw(s, v, coin, amount)
    case Burn(user, v, amount) => DoBurn(s, user, v, amount)
    case Liquidate(v) => DoLiquidate(s, v)
    case SetPrice(coin, price) => Outcome(true, s.(vault := s.vault.(prices := s.vault.prices[coin := price])))
    case PoolDeposit(user, amount) => DoPoolDeposit(s, user, amount)
    case PoolWithdraw(user, amount) => DoPoolWithdraw(s, user, amount)
    case ClaimRewards(user) => DoClaim(s, user)
    case Absorb(v) => DoAbsorb(s, v)
  }

  // ----- the precompiles

  class TwoWayState {
    var accepted: set<Coin>
    var feeSlots: map<Coin, int>
    var prices: map<Coin, int>
    var collateral: map<CollateralKey, int>
    var debt: map<DebtKey, int>
    var totalDebt: int
    var minted: map<User, int>
    var deposits: map<User, int>
    var totalDeposits: int
    var poolBalance: int
    var wayRewards: int
    var swayRewards: int
    var totalRewards: int
    var lpFees: map<User, int>
    var pending: map<User, int>

    ghost function VaultModel(): Vault
      reads this
    {
      Vault(accepted, feeSlots, prices, collateral, debt, totalDebt)
    }

    ghost function PoolModel(): Pool
      reads this
    {
      Pool(minted, deposits, totalDeposits, poolBalance, Rewards(wayRewards, swayRewards, totalRewards),
           lpFees, pending)
    }

    ghost function Model(): Protocol
      reads this
    {
      Protocol(VaultModel(), PoolModel())
    }

    constructor (accepted: set<Coin>, feeSlots: map<Coin, int>)
      ensures Model() == Genesis(accepted, feeSlots)
    {
      this.accepted, this.feeSlots, prices := accepted, feeSlots, map[];
      collateral, debt, totalDebt, minted, deposits := map[], map[], 0, map[], map[];
      totalDeposits, poolBalance, wayRewards, swayRewards, totalRewards := 0, 0, 0, 0, 0;
      lpFees, pending := map[], map[];
    }

    /** Scans every collateral slot for those of one vault. */
    method GetVaultCollaterals(v: VaultID) returns (result: map<CollateralKey, int>)
      ensures result == Collaterals(VaultModel(), v)
    {
      result := map[];
      var rest := collateral.Keys;
      while rest != {}
        invariant rest <= collateral.Keys
        invariant result == Collaterals(VaultModel(), v) - rest
        decreases rest
      {
        var k :| k in rest;
        if k.first20 == v.first20 {
          if k.coin != [] {
            result := result[k := collateral[k]];
          }
        }
        rest := rest - {k};
      }
    }

    static method Total(amounts: map<CollateralKey, int>) returns (total: int)
      ensures total == Sum(amounts)
    {
      total := 0;
      var rest := amounts.Keys;
      while rest != {}
        invariant rest <= amounts.Keys
        invariant total == Sum(amounts - rest)
        decreases rest
      {
        var k :| k in rest;
        assert amounts - (rest - {k}) == (amounts - rest)[k := amounts[k]];
        SumUpdate(amounts - rest, k, amounts[k]);
        total := total + amounts[k];
        rest := rest - {k};
      }
      assert amounts - rest == amounts;
    }

    /** The fee of the first collateral met that has one. */
    method FeeBps(v: VaultID, collaterals: map<CollateralKey, int>) returns (fee: int)
      requires collaterals == Collaterals(VaultModel(), v)
      ensures FeeAllowed(VaultModel(), v, fee)
    {
      fee := DEFAULT_FEE_BPS;
      var rest := collaterals.Keys;
      while rest != {}
        invariant rest <= collaterals.Keys
        invariant fee == DEFAULT_FEE_BPS
        invariant forall k | k in collaterals && k !in rest :: StabilityFee(VaultModel(), k.coin) <= 0
        decreases rest
      {
        var k :| k in rest;
        var slot := At(feeSlots, k.coin);
        var stabilityFee := if slot == 0 then DEFAULT_FEE_BPS else slot % 65_536;
        if stabilityFee > 0 {
          fee := stabilityFee;
          return;
        }
        rest := rest - {k};
      }
    }

    static method IsAboveMinCRatio(collaterals: map<CollateralKey, int>, debt: int) returns (above: bool)
      requires debt >= 0
      ensures above == MeetsRatio(Sum(collaterals), debt)
    {
      var total := Total(collaterals);
      if debt == 0 {
        return true;
      }
      return total * 10_000 / debt >= MIN_RATIO;
    }

    method CollateralValueUSD(v: VaultID) returns (total: int)
      ensures total == Sum(UsdValues(VaultModel(), Collaterals(VaultModel(), v)))
    {
      var collaterals := GetVaultCollaterals(v);
      ghost var values := UsdValues(VaultModel(), collaterals);
      total := 0;
      var rest := collaterals.Keys;
      while rest != {}
        invariant rest <= collaterals.Keys
        invariant total == Sum(values - rest)
        decreases rest
      {
        var k :| k in rest;
        var amount := collaterals[k];
        if amount > 0 {
          var price := At(prices, k.coin);
          if price == 0 {
            price := DEFAULT_PRICE;
          }
          total := total + amount * price / 100_000_000;
        }
        assert values - (rest - {k}) == (values - rest)[k := values[k]];
        SumUpdate(values - rest, k, values[k]);
        rest := rest - {k};
      }
      assert values - rest == values;
    }

    method VaultDeposit(v: VaultID, collAddr: Coin, amount: nat) returns (ok: bool)
      requires NonNegative(debt)
      modifies this
      ensures Outcome(ok, Model()) == DoDeposit(old(Model()), v, collAddr, amount)
    {
      var collateralID := TrimRightZeros(collAddr);
      if collateralID !in accepted {
        return false;
      }
      collateral := collateral[KeyFor(v, collateralID) := amount];
      return true;
    }

    /** Splits a mint's fee between the reward buckets and notes it for the caller. */
    method BookFee(user: User, protocolFee: int)
      modifies this`wayRewards, this`swayRewards, this`totalRewards, this`lpFees
      ensures PoolModel() == ChargeFee(old(PoolModel()), user, protocolFee)
    {
      if protocolFee > 0 {
        var wayReward := protocolFee / 2;
        var swayReward := protocolFee - wayReward;
        wayRewards := wayRewards + wayReward;
        swayRewards := swayRewards + swayReward;
        totalRewards := totalRewards + protocolFee;
        lpFees := lpFees[user := At(lpFees, user) + protocolFee];
      }
    }

    method VaultMint(user: User, v: VaultID, amount: nat) returns (ok: bool, ghost fee: int)
      requires NonNegative(debt)
      modifies this
      ensures FeeAllowed(old(VaultModel()), v, fee)
      ensures Outcome(ok, Model()) == DoMint(old(Model()), user, v, amount, fee)
    {
      hide FeeAllowed, Collaterals, ChargeAndMint;
      var collaterals := GetVaultCollaterals(v);
      var feeBps := FeeBps(v, collaterals);
      fee := feeBps;
      if At(minted, user) > 0 {
        return false, fee;
      }
      if At(deposits, user) > 0 {
        return false, fee;
      }
      var totalCollateral := Total(collaterals);
      if totalCollateral == 0 {
        return false, fee;
      }
      ok := MintUnlocked(user, v, amount, collaterals, feeBps);
    }

    /** The part of a mint behind its locks: the fee, the ratio, the debt. */
    method MintUnlocked(user: User, v: VaultID, amount: nat, collaterals: map<CollateralKey, int>, feeBps: int)
      returns (ok: bool)
      requires NonNegative(debt) && collaterals == Collaterals(VaultModel(), v)
      modifies this
      ensures Outcome(ok, Model()) == ChargeAndMint(old(Model()), user, v, amount, feeBps)
    {
      hide Collaterals, MeetsRatio, ChargeFee, MintFee, AddDebt;
      var vaultDebt := At(debt, DebtOf(v));
      BookFee(user, MintFee(amount, feeBps));
      var newDebt := vaultDebt + amount;
      var above := IsAboveMinCRatio(collaterals, newDebt);
      if !above {
        return false;
      }
      AddTotalDebt(v, newDebt, amount);
      AddStabilityMintedDebt(user, amount);
      return true;
    }

    method AddTotalDebt(v: VaultID, newDebt: nat, amount: nat)
      requires newDebt == Owed(VaultModel(), v) + amount
      modifies this`debt, this`totalDebt
      ensures VaultModel() == AddDebt(old(VaultModel()), v, amount)
    {
      debt := debt[DebtOf(v) := newDebt];
      totalDebt := totalDebt + amount;
    }

    method AddStabilityMintedDebt(user: User, amount: nat)
      modifies this`minted
      ensures PoolModel() == old(PoolModel()).(minted := old(minted)[user := At(old(minted), user) + amount])
    {
      minted := minted[user := At(minted, user) + amount];
    }

    method VaultWithdraw(v: VaultID, collAddr: Coin, amount: nat) returns (ok: bool)
      requires NonNegative(debt)
      modifies this
      ensures Outcome(ok, Model()) == DoWithdraw(old(Model()), v, collAddr, amount)
    {
      var collateralID := TrimRightZeros(collAddr);
      var collaterals := GetVaultCollaterals(v);
      var vaultDebt := At(debt, DebtOf(v));
      var id := CollateralKey(v.first20, collateralID);
      if id !in collaterals || collaterals[id] < amount {
        return false;
      }
      var newCollValue := collaterals[id] - amount;
      var above := IsAboveMinCRatio(collaterals[id := newCollValue], vaultDebt);
      if !above {
        return false;
      }
      collateral := collateral[KeyFor(v, collateralID) := newCollValue];
      return true;
    }

    method VaultBurn(user: User, v: VaultID, amount: nat) returns (ok: bool)
      requires NonNegative(debt)
      modifies this
      ensures Outcome(ok, Model()) == DoBurn(old(Model()), user, v, amount)
    {
      var newDebt := At(debt, DebtOf(v)) - amount;
      if newDebt < 0 {
        newDebt := 0;
      }
      debt := debt[DebtOf(v) := newDebt];
      minted := minted[user := FloorAtZero(At(minted, user) - amount)];
      ReduceTotalDebt(amount);
      return true;
    }

    method ReduceTotalDebt(amount: int)
      modifies this`totalDebt
      ensures totalDebt == FloorAtZero(old(totalDebt) - amount)
    {
      totalDebt := totalDebt - amount;
      if totalDebt < 0 {
        totalDebt := 0;
      }
    }

    method VaultLiquidate(v: VaultID) returns (ok: bool)
      requires NonNegative(debt)
      modifies this
      ensures Outcome(ok, Model()) == DoLiquidate(old(Model()), v)
    {
      var vaultDebt := At(debt, DebtOf(v));
      var value := CollateralValueUSD(v);
      if vaultDebt == 0 || value * 10_000 / vaultDebt > LIQUIDATION_RATIO {
        return false;
      }
      debt := debt[DebtOf(v) := 0];
      ReduceTotalDebt(vaultDebt);
      return true;
    }

    method StabilityDeposit(user: User, amount: nat) returns (ok: bool)
      requires NonNegative(debt)
      modifies this
      ensures Outcome(ok, Model()) == DoPoolDeposit(old(Model()), user, amount)
    {
      if amount <= 0 {
        return false;
      }
      if At(minted, user) > 0 {
        return false;
      }
      deposits := deposits[user := At(deposits, user) + amount];
      totalDeposits := totalDeposits + amount;
      poolBalance := poolBalance + amount;
      return true;
    }

    method StabilityWithdraw(user: User, amount: nat) returns (ok: bool)
      requires NonNegative(debt)
      modifies this
      ensures Outcome(ok, Model()) == DoPoolWithdraw(old(Model()), user, amount)
    {
      if amount <= 0 {
        return false;
      }
      if At(deposits, user) < amount {
        return false;
      }
      deposits := deposits[user := At(deposits, user) - amount];
      totalDeposits := Stored(totalDeposits - amount);
      poolBalance := Stored(poolBalance - amount);
      return true;
    }

    method StabilityClaimRewards(user: User) returns (ok: bool, claimed: int)
      requires NonNegative(debt)
      modifies this
      ensures Outcome(ok, Model()) == DoClaim(old(Model()), user)
      ensures ok ==> claimed == At(old(pending), user) + At(old(lpFees), user)
    {
      claimed := At(pending, user) + At(lpFees, user);
      if claimed <= 0 {
        return false, 0;
      }
      pending := pending[user := 0];
      lpFees := lpFees[user := 0];
      totalRewards, wayRewards, swayRewards := 0, 0, 0;
      return true, claimed;
    }

    method StabilityAbsorb(v: VaultID) returns (ok: bool)
      requires NonNegative(debt)
      modifies this
      ensures Outcome(ok, Model()) == DoAbsorb(old(Model()), v)
    {
      var vaultDebt := At(debt, DebtOf(v));
      if vaultDebt <= 0 {
        return false;
      }
      if poolBalance < vaultDebt {
        return false;
      }
      poolBalance := poolBalance - vaultDebt;
      if totalDeposits > 0 {
        DistributeRewards(vaultDebt * 1_000 / 10_000);
      }
      return true;
    }

    method DistributeRewards(reward: int)
      modifies this`wayRewards, this`swayRewards, this`totalRewards
      ensures PoolModel().rewards == if reward <= 0 then old(PoolModel()).rewards
                                     else AddRewards(old(PoolModel()).rewards, reward)
    {
      if reward <= 0 {
        return;
      }
      var wayReward := reward / 2;
      wayRewards := wayRewards + wayReward;
      swayRewards := swayRewards + (reward - wayReward);
      totalRewards := totalRewards + reward;
    }
  }

  function Genesis(accepted: set<Coin>, feeSlots: map<Coin, int>): Protocol {
    Protocol(Vault(accepted, feeSlots, map[], map[], map[], 0),
             Pool(map[], map[], 0, 0, Rewards(0, 0, 0), map[], map[]))
  }
}
