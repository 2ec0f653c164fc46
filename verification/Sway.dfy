/** The SWAY supply books: allocation buckets, balances and the total. */
module Sway {
  import opened Bytes
  import opened Prelude

  type Holder = int

  datatype Bucket = FutureTasks | DexLP | Ecosystem

  const INITIAL_SUPPLY := 1_000_000_000
  const HARD_CEILING := 5_000_000_000
  const BASE_BURN_BPS := 2_000

  const ALLOCATION: seq<(Bucket, int)> := [(FutureTasks, 45), (DexLP, 20), (Ecosystem, 35)]

  datatype Books = Books(initialized: bool, totalSupply: int, buckets: map<Bucket, int>, balances: map<Holder, int>)

  function NoBooks(): Books {
    Books(false, 0, map[], map[])
  }

  function Allocated(n: nat): map<Bucket, int>
    requires n <= 3
  {
    if n == 0 then map[]
    else Allocated(n - 1)[ALLOCATION[n - 1].0 := INITIAL_SUPPLY * ALLOCATION[n - 1].1 / 100]
  }

  function AfterInit(b: Books): Books {
    if b.initialized then b
    else b.(initialized := true, totalSupply := INITIAL_SUPPLY, buckets := b.buckets + Allocated(|ALLOCATION|))
  }

  /** The ceiling is compared with the low 64 bits of the new total. */
  predicate UnderCeiling(newTotal: int) {
    newTotal % TWO_TO_64 <= HARD_CEILING
  }

  /** No bucket stands for a mint outside the allocation. */
  predicate CanMint(b: Books, amount: int, bucket: Option<Bucket>) {
    && amount > 0
    && (bucket.Some? ==> amount <= At(b.buckets, bucket.value))
    && UnderCeiling(b.totalSupply + amount)
  }

  function AfterMint(b: Books, holder: Holder, amount: int, bucket: Option<Bucket>): Books {
    if !CanMint(b, amount, bucket) then b
    else b.(
      totalSupply := b.totalSupply + amount,
      balances := b.balances[holder := At(b.balances, holder) + amount],
      buckets := if bucket.Some? then b.buckets[bucket.value := At(b.buckets, bucket.value) - amount] else b.buckets)
  }

  predicate CanBurn(b: Books, holder: Holder, amount: int) {
    0 < amount <= At(b.balances, holder)
  }

  function AfterBurn(b: Books, holder: Holder, amount: int): Books {
    if !CanBurn(b, holder, amount) then b
    else b.(totalSupply := b.totalSupply - amount, balances := b.balances[holder := At(b.balances, holder) - amount])
  }

  /** A fifth of the fee, or what the ecosystem bucket still holds. */
  function FeeBurned(b: Books, fee: nat): int {
    var burn := fee * BASE_BURN_BPS / 10_000;
    if At(b.buckets, Ecosystem) < burn then At(b.buckets, Ecosystem) else burn
  }

  function AfterFeeBurn(b: Books, fee: nat): Books {
    var burn := FeeBurned(b, fee);
    if burn == 0 then b
    else b.(totalSupply := b.totalSupply - burn, buckets := b.buckets[Ecosystem := At(b.buckets, Ecosystem) - burn])
  }

  class SwayToken {
    var initialized: bool
    var totalSupply: int
    var buckets: map<Bucket, int>
    var balances: map<Holder, int>

    ghost function Model(): Books
      reads this
    {
      Books(initialized, totalSupply, buckets, balances)
    }

    constructor ()
      ensures Model() == NoBooks()
    {
      initialized, totalSupply, buckets, balances := false, 0, map[], map[];
    }

    method Init()
      modifies this
      ensures Model() == AfterInit(old(Model()))
    {
      if initialized {
        return;
      }
      var total := INITIAL_SUPPLY;
      totalSupply, initialized := total, true;
      for i := 0 to |ALLOCATION|
        invariant initialized && totalSupply == total && balances == old(balances)
        invariant buckets == old(buckets) + Allocated(i)
      {
        var amt := total * ALLOCATION[i].1;
        amt := amt / 100;
        buckets := buckets[ALLOCATION[i].0 := amt];
      }
    }

    method MintInternal(holder: Holder, amount: int, bucket: Option<Bucket>) returns (ok: bool)
      modifies this
      ensures ok == CanMint(old(Model()), amount, bucket)
      ensures Model() == AfterMint(old(Model()), holder, amount, bucket)
    {
      if amount <= 0 {
        return false;
      }
      if bucket.Some? {
        var remaining := At(buckets, bucket.value);
        if remaining < amount {
          return false;
        }
      }
      var newTotal := totalSupply + amount;
      if newTotal % TWO_TO_64 > HARD_CEILING {
        return false;
      }
      balances := balances[holder := At(balances, holder) + amount];
      totalSupply := newTotal;
      if bucket.Some? {
        buckets := buckets[bucket.value := At(buckets, bucket.value) - amount];
      }
      return true;
    }

    method BurnInternal(holder: Holder, amount: int) returns (ok: bool)
      modifies this
      ensures ok == CanBurn(old(Model()), holder, amount)
      ensures Model() == AfterBurn(old(Model()), holder, amount)
    {
      if amount <= 0 {
        return false;
      }
      var cur := At(balances, holder);
      if cur < amount {
        return false;
      }
      balances := balances[holder := cur - amount];
      totalSupply := totalSupply - amount;
      return true;
    }

    method BurnFromFees(fee: nat) returns (burned: int)
      modifies this
      ensures burned == FeeBurned(old(Model()), fee)
      ensures Model() == AfterFeeBurn(old(Model()), fee)
    {
      var burn := fee * BASE_BURN_BPS / 10_000;
      var eco := At(buckets, Ecosystem);
      if eco < burn {
        burn := eco;
      }
      if burn == 0 {
        return 0;
      }
      buckets := buckets[Ecosystem := eco - burn];
      totalSupply := totalSupply - burn;
      return burn;
    }
  }

  // ----- runs

  datatype Op = Init | Mint(holder: Holder, amount: int, bucket: Bucket) | Burn(holder: Holder, amount: int)
      | FeeBurn(fee: nat)

  function Step(b: Books, op: Op): Books {
    match op
    case Init => AfterInit(b)
    case Mint(holder, amount, bucket) => AfterMint(b, holder, amount, Some(bucket))
    case Burn(holder, amount) => AfterBurn(b, holder, amount)
    case FeeBurn(fee) => AfterFeeBurn(b, fee)
  }

  function After(ops: seq<Op>): Books {
    if ops == [] then NoBooks() else Step(After(ops[..|ops| - 1]), ops[|ops| - 1])
  }

  /** What each operation mints, burns, or burns from fees, when it is accepted. */
  function MintedBy(b: Books, op: Op): int {
    if op.Mint? && CanMint(b, op.amount, Some(op.bucket)) then op.amount else 0
  }

  function BurnedBy(b: Books, op: Op): int {
    if op.Burn? && CanBurn(b, op.holder, op.amount) then op.amount else 0
  }

  function FeeBurnedBy(b: Books, op: Op): int {
    if op.FeeBurn? then FeeBurned(b, op.fee) else 0
  }

  datatype Tally = Tally(minted: int, burned: int, feeBurned: int)

  function Tallied(h: Tally, b: Books, op: Op): Tally {
    Tally(h.minted + MintedBy(b, op), h.burned + BurnedBy(b, op), h.feeBurned + FeeBurnedBy(b, op))
  }

  /** The history of a run, summed. */
  function History(ops: seq<Op>): Tally {
    if ops == [] then Tally(0, 0, 0) else
      Tallied(History(ops[..|ops| - 1]), After(ops[..|ops| - 1]), ops[|ops| - 1])
  }

  function BucketTotal(b: Books): int {
    At(b.buckets, FutureTasks) + At(b.buckets, DexLP) + At(b.buckets, Ecosystem)
  }

  ghost predicate Balanced(b: Books, h: Tally) {
    && NonNegative(b.balances) && NonNegative(b.buckets)
    && 0 <= h.burned <= h.minted && 0 <= h.feeBurned
    && Sum(b.balances) == h.minted - h.burned
    && (if b.initialized
        then b.totalSupply == Sum(b.balances) + INITIAL_SUPPLY - h.feeBurned
             && BucketTotal(b) == INITIAL_SUPPLY - h.minted - h.feeBurned
        else b.totalSupply == 0 && h == Tally(0, 0, 0) && BucketTotal(b) == 0)
  }

  lemma AllocationIsWhole()
    ensures Allocated(|ALLOCATION|) == map[FutureTasks := 450_000_000, DexLP := 200_000_000, Ecosystem := 350_000_000]
  {
    assert Allocated(1) == map[FutureTasks := 450_000_000];
    assert Allocated(2) == map[FutureTasks := 450_000_000, DexLP := 200_000_000];
  }

  lemma BucketsNonNegative(b: Books)
    requires NonNegative(b.buckets)
    ensures forall k :: 0 <= At(b.buckets, k) <= BucketTotal(b)
  {
    forall k ensures 0 <= At(b.buckets, k) <= BucketTotal(b) {
      match k
      case FutureTasks =>
      case DexLP =>
      case Ecosystem =>
    }
  }

  lemma MintKeepsBalance(b: Books, h: Tally, holder: Holder, amount: int, bucket: Bucket)
    requires Balanced(b, h) && CanMint(b, amount, Some(bucket))
    ensures Balanced(AfterMint(b, holder, amount, Some(bucket)), h.(minted := h.minted + amount))
  {
    hide UnderCeiling;
    BucketsNonNegative(b);
    SumUpdate(b.balances, holder, At(b.balances, holder) + amount);
  }

  lemma BurnKeepsBalance(b: Books, h: Tally, holder: Holder, amount: int)
    requires Balanced(b, h) && CanBurn(b, holder, amount)
    ensures Balanced(AfterBurn(b, holder, amount), h.(burned := h.burned + amount))
  {
    SumBounds(b.balances);
    SumUpdate(b.balances, holder, At(b.balances, holder) - amount);
  }

  lemma FeeBurnKeepsBalance(b: Books, h: Tally, fee: nat)
    requires Balanced(b, h)
    ensures Balanced(AfterFeeBurn(b, fee), h.(feeBurned := h.feeBurned + FeeBurned(b, fee)))
  {
  }

  lemma InitKeepsBalance(b: Books, h: Tally)
    requires Balanced(b, h)
    ensures Balanced(AfterInit(b), h)
  {
    AllocationIsWhole();
  }

  lemma StepKeepsBalance(b: Books, h: Tally, op: Op)
    requires Balanced(b, h)
    ensures Balanced(Step(b, op), Tallied(h, b, op))
  {
    hide Balanced, UnderCeiling, FeeBurned;
    match op
    case Init => InitKeepsBalance(b, h);
    case Mint(holder, amount, bucket) =>
      if CanMint(b, amount, Some(bucket)) {
        MintKeepsBalance(b, h, holder, amount, bucket);
      }
    case Burn(holder, amount) =>
      if CanBurn(b, holder, amount) {
        BurnKeepsBalance(b, h, holder, amount);
      }
    case FeeBurn(fee) => FeeBurnKeepsBalance(b, h, fee);
  }

  /** Over every run: the supply is the holders' balances plus the initial billion less what fees
      have burned; the buckets are the billion less what was minted and what fees have burned; the
      balances are what was minted and not burned. */
  lemma {:induction false} BooksBalance(ops: seq<Op>)
    ensures Balanced(After(ops), History(ops))
  {
    if ops == [] {
      SumEmpty(NoBooks().balances);
    } else {
      hide Step, Tallied, Balanced;
      BooksBalance(ops[..|ops| - 1]);
      StepKeepsBalance(After(ops[..|ops| - 1]), History(ops[..|ops| - 1]), ops[|ops| - 1]);
    }
  }

  lemma BalancedBounds(b: Books, h: Tally)
    requires Balanced(b, h)
    ensures 0 <= b.totalSupply <= 2 * INITIAL_SUPPLY && BucketTotal(b) <= INITIAL_SUPPLY
  {
  }

  /** In every reachable state, and so after every burn, no balance, bucket or total is negative;
      the supply is at most two billion, so the ceiling of five is never in sight. */
  lemma SupplyIsBounded(ops: seq<Op>)
    ensures 0 <= After(ops).totalSupply <= 2 * INITIAL_SUPPLY < HARD_CEILING
    ensures NonNegative(After(ops).balances) && NonNegative(After(ops).buckets)
  {
    hide After, History, BucketTotal;
    BooksBalance(ops);
    BalancedBounds(After(ops), History(ops));
  }

  /** The 64-bit comparison agrees with the true one exactly while the low bits of a too large
      total are themselves above the ceiling. */
  lemma CeilingComparison(newTotal: nat)
    ensures (UnderCeiling(newTotal) <==> newTotal <= HARD_CEILING)
        <==> newTotal < TWO_TO_64 || newTotal % TWO_TO_64 > HARD_CEILING
  {
  }

  lemma CoveredMint(b: Books, h: Tally, amount: int, bucket: Bucket)
    requires Balanced(b, h)
    ensures CanMint(b, amount, Some(bucket)) <==> 0 < amount <= At(b.buckets, bucket)
  {
  }

  /** In every reachable state a bucketed mint is accepted exactly when it is positive and its
      bucket covers it: the ceiling refuses nothing. */
  lemma BucketsAloneDecide(ops: seq<Op>, amount: int, bucket: Bucket)
    ensures CanMint(After(ops), amount, Some(bucket)) <==> 0 < amount <= At(After(ops).buckets, bucket)
  {
    hide After, History, CanMint, Balanced;
    BooksBalance(ops);
    CoveredMint(After(ops), History(ops), amount, bucket);
  }

  // ----- one holder, one bucket

  function HolderFlow(b: Books, op: Op, holder: Holder): int {
    if (op.Mint? || op.Burn?) && op.holder == holder then MintedBy(b, op) - BurnedBy(b, op) else 0
  }

  function BucketDraw(b: Books, op: Op, bucket: Bucket): int {
    if op.Mint? && op.bucket == bucket then MintedBy(b, op)
    else if op.FeeBurn? && bucket == Ecosystem then FeeBurnedBy(b, op)
    else 0
  }

  function NetHolding(ops: seq<Op>, holder: Holder): int {
    if ops == [] then 0
    else NetHolding(ops[..|ops| - 1], holder) + HolderFlow(After(ops[..|ops| - 1]), ops[|ops| - 1], holder)
  }

  function TotalDrawn(ops: seq<Op>, bucket: Bucket): int {
    if ops == [] then 0
    else TotalDrawn(ops[..|ops| - 1], bucket) + BucketDraw(After(ops[..|ops| - 1]), ops[|ops| - 1], bucket)
  }

  lemma StepFlows(b: Books, op: Op, holder: Holder, bucket: Bucket)
    requires op != Init
    ensures At(Step(b, op).balances, holder) == At(b.balances, holder) + HolderFlow(b, op, holder)
    ensures At(Step(b, op).buckets, bucket) == At(b.buckets, bucket) - BucketDraw(b, op, bucket)
    ensures Step(b, op).initialized == b.initialized
  {
  }

  lemma InitFlows(b: Books, holder: Holder, bucket: Bucket)
    ensures At(Step(b, Init).balances, holder) == At(b.balances, holder)
    ensures b.initialized ==> Step(b, Init) == b
    ensures !b.initialized ==> At(Step(b, Init).buckets, bucket) == At(Allocated(|ALLOCATION|), bucket)
    ensures Step(b, Init).initialized
  {
    AllocationIsWhole();
  }

  lemma NothingBeforeInit(b: Books, h: Tally, op: Op, holder: Holder, bucket: Bucket)
    requires Balanced(b, h) && !b.initialized
    ensures HolderFlow(b, op, holder) == 0 && BucketDraw(b, op, bucket) == 0 && At(b.buckets, bucket) == 0
  {
    hide UnderCeiling;
    BucketsNonNegative(b);
    SumBounds(b.balances);
  }

  /** What a bucket was given. */
  function Granted(b: Books, bucket: Bucket): int {
    if b.initialized then At(Allocated(|ALLOCATION|), bucket) else 0
  }

  lemma AccountStep(b: Books, h: Tally, op: Op, holder: Holder, bucket: Bucket)
    requires Balanced(b, h)
    ensures At(Step(b, op).balances, holder) == At(b.balances, holder) + HolderFlow(b, op, holder)
    ensures At(Step(b, op).buckets, bucket) - Granted(Step(b, op), bucket)
         == At(b.buckets, bucket) - Granted(b, bucket) - BucketDraw(b, op, bucket)
  {
    hide Step, Balanced, Allocated;
    if op == Init {
      InitFlows(b, holder, bucket);
      if !b.initialized {
        NothingBeforeInit(b, h, op, holder, bucket);
      }
    } else {
      StepFlows(b, op, holder, bucket);
    }
  }

  lemma AccountsStart(holder: Holder, bucket: Bucket)
    ensures At(After([]).balances, holder) == 0 == At(After([]).buckets, bucket)
    ensures Granted(After([]), bucket) == 0
  {
  }

  /** Each balance is what was minted to its holder less what was burned from it, and each bucket
      its allocation less what its own mints, and for the ecosystem bucket the fees, drew. */
  lemma {:induction false} AccountsMatchHistory(ops: seq<Op>, holder: Holder, bucket: Bucket)
    ensures At(After(ops).balances, holder) == NetHolding(ops, holder)
    ensures At(After(ops).buckets, bucket) == Granted(After(ops), bucket) - TotalDrawn(ops, bucket)
  {
    hide Step, HolderFlow, BucketDraw, Balanced, History, Granted, At;
    if ops == [] {
      AccountsStart(holder, bucket);
    } else {
      var before := ops[..|ops| - 1];
      AccountsMatchHistory(before, holder, bucket);
      BooksBalance(before);
      AccountStep(After(before), History(before), ops[|ops| - 1], holder, bucket);
    }
  }

  // ----- amounts

  /** Fees burn a fifth of what is paid, rounded down, while the ecosystem bucket holds that, and what it
      holds otherwise. */
  lemma FeeBurnIsFifth(b: Books, fee: nat)
    requires NonNegative(b.buckets)
    ensures var burn, eco := FeeBurned(b, fee), At(b.buckets, Ecosystem);
            && 0 <= burn <= eco && 5 * burn <= fee
            && (burn < eco ==> fee < 5 * (burn + 1))
  {
  }

  /** A mint outside the buckets is held by nothing but the comparison of the low 64 bits with five
      billion. */
  lemma MintOutsideBuckets(b: Books, holder: Holder, amount: int)
    ensures CanMint(b, amount, None) <==>
              amount > 0 && (b.totalSupply + amount) % 0x1_0000_0000_0000_0000 <= 5_000_000_000
    ensures var b' := AfterMint(b, holder, amount, None);
            && b'.buckets == b.buckets
            && b'.totalSupply - b.totalSupply == At(b'.balances, holder) - At(b.balances, holder)
               == (if CanMint(b, amount, None) then amount else 0)
  {
  }

  /** A burn takes its amount from its holder and from the supply exactly if it is positive and covered. */
  lemma BurnIsCovered(ops: seq<Op>, holder: Holder, amount: int)
    ensures var b, b' := After(ops), After(ops + [Burn(holder, amount)]);
            var taken := if amount >= 1 && At(b.balances, holder) - amount >= 0 then amount else 0;
            && b'.totalSupply == b.totalSupply - taken
            && At(b'.balances, holder) == At(b.balances, holder) - taken
            && b'.buckets == b.buckets
  {
    assert (ops + [Burn(holder, amount)])[..|ops|] == ops;
  }
}
