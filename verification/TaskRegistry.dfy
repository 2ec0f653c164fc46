/** The task registry (0x23): quest payouts under a cap that follows the supply, and community
    tasks paid from escrow. */
module TaskRegistry {
  import opened Prelude

  type Address = int

  const TREASURY: Address := 0x03
  const REGISTRY: Address := 0x23
  const QUEST_SUPPLY_PCT := 5
  const WINDOW := 0x1_000000000000000000000000000000000000000000000000000000000000

  const QUEST_REWARDS: map<string, nat> := map[
    "wallet-setup" := 100, "first-transfer" := 10, "faucet-claim" := 10, "receive-way" := 10, "governance-vote" := 25,
    "doxdev-badge" := 100, "badge-curate" := 200,
    "gov-propose" := 25,
    "1way-mint" := 300, "1way-burn" := 150, "2way-open" := 25, "first-swap" := 10, "add-liquidity" := 10,
    "stability-deposit" := 50, "btc-bridge" := 25, "sway-stake" := 50, "wifr-bridge" := 50,
    "bijo-journal" := 100, "lock-time" := 25, "lock-vesting" := 50, "mrt-claim" := 150, "dms-setup" := 150,
    "oracle-feed" := 150, "account-recovery" := 50, "privacy-proof" := 100, "staterent-pay" := 50,
    "xchain-attest" := 100, "template-deploy" := 100, "validator-72h" := 100
  ]

  const AUTO_ELIGIBLE: set<string> := {
    "first-transfer", "faucet-claim", "receive-way", "governance-vote", "gov-propose", "1way-mint", "1way-burn",
    "2way-open", "first-swap", "add-liquidity", "stability-deposit", "btc-bridge", "sway-stake", "wifr-bridge",
    "bijo-journal", "lock-time", "lock-vesting", "staterent-pay"
  }

  function QuestReward(task: string): nat {
    if task in QUEST_REWARDS then QUEST_REWARDS[task] else 0
  }

  /** A community task's record: two bytes and a reward cut to thirty. */
  datatype Task = Task(minLevel: int, verifyMode: int, reward: nat)

  /** A reward too wide for its window runs over the two bytes before it. */
  function RecordOf(reward: nat, minLevel: int, verifyMode: int): Task {
    var high := reward / WINDOW;
    Task(if high >= 256 then high / 256 else minLevel, if high > 0 then high % 256 else verifyMode, reward % WINDOW)
  }

  datatype Status = Claimed | Verified

  datatype Mark = Mark(task: string, status: Status)

  datatype State = State(
    balances: map<Address, int>, paid: int, supply: int,
    tasks: map<string, Task>, escrows: map<string, int>, marks: map<Address, Mark>,
    levels: map<Address, int>, autopilot: Option<Address>)

  function QuestCap(s: State): int {
    s.supply * QUEST_SUPPLY_PCT / 100
  }

  function Credit(balances: map<Address, int>, a: Address, amount: int): map<Address, int> {
    balances[a := At(balances, a) + amount]
  }

  function Debit(balances: map<Address, int>, a: Address, amount: int): map<Address, int> {
    balances[a := At(balances, a) - amount]
  }

  /** Pays from one account to another when the payer covers it. */
  function Transfer(balances: map<Address, int>, payer: Address, payee: Address, amount: int): map<Address, int> {
    if At(balances, payer) >= amount then Credit(Debit(balances, payer, amount), payee, amount) else balances
  }

  predicate UnderCap(s: State, task: string) {
    s.paid + QuestReward(task) <= QuestCap(s)
  }

  function AfterVerify(s: State, task: string, claimant: Address): State {
    if !UnderCap(s, task) then s
    else s.(marks := s.marks[claimant := Mark(task, Verified)],
            balances := Transfer(s.balances, TREASURY, claimant, QuestReward(task)),
            paid := s.paid + QuestReward(task))
  }

  /** The zero address reads back as no autopilot. */
  function Designated(a: Address): Option<Address> {
    if a == 0 then None else Some(a)
  }

  function AfterAddSupply(s: State, amount: int): State {
    if amount <= 0 then s else s.(supply := s.supply + amount)
  }

  predicate CanEscrow(s: State, caller: Address, amount: nat) {
    At(s.balances, caller) >= amount
  }

  function AfterEscrow(s: State, caller: Address, task: string, amount: nat): State {
    if !CanEscrow(s, caller, amount) then s
    else s.(escrows := s.escrows[task := At(s.escrows, task) + amount],
            balances := Debit(Credit(s.balances, REGISTRY, amount), caller, amount))
  }

  /** A record whose two leading bytes are zero reads as no task at all. */
  predicate Known(s: State, task: string) {
    task in s.tasks && !(s.tasks[task].minLevel == 0 && s.tasks[task].verifyMode == 0)
  }

  predicate MayVerify(s: State, caller: Address, task: string)
    requires task in s.tasks
  {
    if s.tasks[task].verifyMode == 0 then s.autopilot == Some(caller) else At(s.levels, caller) >= 2
  }

  predicate CanVerifyCommunity(s: State, caller: Address, task: string) {
    Known(s, task) && MayVerify(s, caller, task)
  }

  function Payer(s: State, task: string): Address {
    if At(s.escrows, task) > 0 then REGISTRY else TREASURY
  }

  /** Debits the payer only when it covers the reward, and credits the claimant regardless. */
  function PayRegardless(balances: map<Address, int>, payer: Address, claimant: Address, reward: nat)
    : map<Address, int>
  {
    Credit(if At(balances, payer) >= reward then Debit(balances, payer, reward) else balances, claimant, reward)
  }

  function AfterVerifyCommunity(s: State, caller: Address, task: string, claimant: Address): State {
    if !CanVerifyCommunity(s, caller, task) then s
    else
      var reward, esc := s.tasks[task].reward, At(s.escrows, task);
      s.(marks := s.marks[claimant := Mark(task, Verified)],
         escrows := if esc > 0 then s.escrows[task := if esc < reward then 0 else esc - reward] else s.escrows,
         balances := PayRegardless(s.balances, Payer(s, task), claimant, reward))
  }

  datatype Call =
    | TaskVerify(caller: Address, task: string, claimant: Address)
    | TaskAutoVerify(caller: Address, task: string, claimant: Address)
    | SetAutopilot(caller: Address, autopilot: Address)
    | AddSupply(amount: int)
    | CreateTask(task: string, reward: nat, minLevel: int, verifyMode: int)
    | EscrowTask(caller: Address, task: string, funds: nat)
    | VerifyCommunity(caller: Address, task: string, claimant: Address)

  predicate Accepted(s: State, c: Call) {
    match c
    case TaskVerify(caller, task, _) => At(s.levels, caller) >= 2 && UnderCap(s, task)
    case TaskAutoVerify(caller, task, _) => s.autopilot == Some(caller) && task in AUTO_ELIGIBLE && UnderCap(s, task)
    case SetAutopilot(caller, _) => At(s.levels, caller) >= 3
    case AddSupply(_) => true
    case CreateTask(_, reward, _, _) => reward > 0
    case EscrowTask(caller, _, amount) => CanEscrow(s, caller, amount)
    case VerifyCommunity(caller, task, _) => CanVerifyCommunity(s, caller, task)
  }

  function Do(s: State, c: Call): State {
    if !Accepted(s, c) then s else
      match c
      case TaskVerify(_, task, claimant) => AfterVerify(s, task, claimant)
      case TaskAutoVerify(_, task, claimant) => AfterVerify(s, task, claimant)
      case SetAutopilot(_, autopilot) => s.(autopilot := Designated(autopilot))
      case AddSupply(amount) => AfterAddSupply(s, amount)
      case CreateTask(task, reward, minLevel, verifyMode) =>
        s.(tasks := s.tasks[task := RecordOf(reward, minLevel, verifyMode)])
      case EscrowTask(caller, task, amount) => AfterEscrow(s, caller, task, amount)
      case VerifyCommunity(caller, task, claimant) => AfterVerifyCommunity(s, caller, task, claimant)
  }

  class Registry {
    var balances: map<Address, int>
    var paid: int
    var supply: int
    var tasks: map<string, Task>
    var escrows: map<string, int>
    var marks: map<Address, Mark>
    var levels: map<Address, int>
    var autopilot: Option<Address>

    ghost function Model(): State
      reads this
    {
      State(balances, paid, supply, tasks, escrows, marks, levels, autopilot)
    }

    constructor (balances: map<Address, int>, levels: map<Address, int>)
      ensures Model() == State(balances, 0, 0, map[], map[], map[], levels, None)
    {
      this.balances, this.levels, paid, supply := balances, levels, 0, 0;
      tasks, escrows, marks, autopilot := map[], map[], map[], None;
    }

    method VerifyAndPay(task: string, claimant: Address) returns (ok: bool)
      modifies this`balances, this`paid, this`marks
      ensures ok == UnderCap(old(Model()), task)
      ensures Model() == AfterVerify(old(Model()), task, claimant)
    {
      hide QuestReward;
      var reward := QuestReward(task);
      var cap := supply * QUEST_SUPPLY_PCT / 100;
      var newPaid := paid + reward;
      if newPaid > cap {
        return false;
      }
      marks := marks[claimant := Mark(task, Verified)];
      if At(balances, TREASURY) >= reward {
        balances := Debit(balances, TREASURY, reward);
        balances := Credit(balances, claimant, reward);
        paid := paid + reward;
      } else {
        paid := paid + reward;
      }
      return true;
    }

    method TaskVerify(caller: Address, task: string, claimant: Address) returns (ok: bool)
      modifies this`balances, this`paid, this`marks
      ensures ok == Accepted(old(Model()), Call.TaskVerify(caller, task, claimant))
      ensures Model() == Do(old(Model()), Call.TaskVerify(caller, task, claimant))
    {
      if At(levels, caller) < 2 {
        return false;
      }
      ok := VerifyAndPay(task, claimant);
    }

    method TaskAutoVerify(caller: Address, task: string, claimant: Address) returns (ok: bool)
      modifies this`balances, this`paid, this`marks
      ensures ok == Accepted(old(Model()), Call.TaskAutoVerify(caller, task, claimant))
      ensures Model() == Do(old(Model()), Call.TaskAutoVerify(caller, task, claimant))
    {
      if autopilot != Some(caller) {
        return false;
      }
      if task !in AUTO_ELIGIBLE {
        return false;
      }
      ok := VerifyAndPay(task, claimant);
    }

    method QuestSetAutopilot(caller: Address, address: Address) returns (ok: bool)
      modifies this`autopilot
      ensures ok == Accepted(old(Model()), SetAutopilot(caller, address))
      ensures Model() == Do(old(Model()), SetAutopilot(caller, address))
    {
      if At(levels, caller) < 3 {
        return false;
      }
      autopilot := Designated(address);
      return true;
    }

    method QuestAddSupply(amount: int)
      modifies this`supply
      ensures Model() == Do(old(Model()), AddSupply(amount))
    {
      if amount <= 0 {
        return;
      }
      supply := supply + amount;
    }

    method CreateTask(task: string, reward: nat, minLevel: int, verifyMode: int) returns (ok: bool)
      modifies this`tasks
      ensures ok == (reward > 0)
      ensures Model() == Do(old(Model()), Call.CreateTask(task, reward, minLevel, verifyMode))
    {
      if reward <= 0 {
        return false;
      }
      tasks := tasks[task := RecordOf(reward, minLevel, verifyMode)];
      return true;
    }

    method EscrowTask(caller: Address, task: string, amount: nat) returns (ok: bool)
      modifies this`balances, this`escrows
      ensures ok == CanEscrow(old(Model()), caller, amount)
      ensures Model() == AfterEscrow(old(Model()), caller, task, amount)
    {
      if At(balances, caller) < amount {
        return false;
      }
      var esc := At(escrows, task) + amount;
      balances := Credit(balances, REGISTRY, amount);
      escrows := escrows[task := esc];
      balances := Debit(balances, caller, amount);
      return true;
    }

    method VerifyCommunity(caller: Address, task: string, claimant: Address) returns (ok: bool)
      modifies this`balances, this`escrows, this`marks
      ensures ok == CanVerifyCommunity(old(Model()), caller, task)
      ensures Model() == AfterVerifyCommunity(old(Model()), caller, task, claimant)
    {
      if task !in tasks || (tasks[task].minLevel == 0 && tasks[task].verifyMode == 0) {
        return false;
      }
      var reward := tasks[task].reward;
      if tasks[task].verifyMode == 0 {
        if autopilot != Some(caller) {
          return false;
        }
      } else if At(levels, caller) < 2 {
        return false;
      }
      var esc := At(escrows, task);
      var src := TREASURY;
      if esc > 0 {
        src := REGISTRY;
      }
      marks := marks[claimant := Mark(task, Verified)];
      if esc > 0 {
        var newEsc := esc - reward;
        if newEsc < 0 {
          newEsc := 0;
        }
        escrows := escrows[task := newEsc];
      }
      if At(balances, src) >= reward {
        balances := Debit(balances, src, reward);
      }
      balances := Credit(balances, claimant, reward);
      return true;
    }
  }

  // ----- runs

  function After(start: State, calls: seq<Call>): State {
    if calls == [] then start else Do(After(start, calls[..|calls| - 1]), calls[|calls| - 1])
  }

  lemma CreditSum(balances: map<Address, int>, a: Address, amount: int)
    ensures Sum(Credit(balances, a, amount)) == Sum(balances) + amount
  {
    SumUpdate(balances, a, At(balances, a) + amount);
  }

  lemma DebitSum(balances: map<Address, int>, a: Address, amount: int)
    ensures Sum(Debit(balances, a, amount)) == Sum(balances) - amount
  {
    SumUpdate(balances, a, At(balances, a) - amount);
  }

  /** A payment with cover moves WAY and makes none. */
  lemma TransferConserves(balances: map<Address, int>, payer: Address, payee: Address, amount: int)
    ensures Sum(Transfer(balances, payer, payee, amount)) == Sum(balances)
  {
    DebitSum(balances, payer, amount);
    CreditSum(Debit(balances, payer, amount), payee, amount);
  }

  /** Paying regardless conserves WAY exactly when the payer covers the reward, or it is nothing. */
  lemma PayRegardlessConserves(balances: map<Address, int>, payer: Address, claimant: Address, reward: nat)
    ensures Sum(PayRegardless(balances, payer, claimant, reward)) == Sum(balances)
        <==> At(balances, payer) >= reward || reward == 0
  {
    DebitSum(balances, payer, reward);
    CreditSum(balances, claimant, reward);
    CreditSum(Debit(balances, payer, reward), claimant, reward);
  }

  /** What a call adds to the quest counter, and what it takes from the treasury for a quest. */
  function QuestPaid(s: State, c: Call): int {
    if (c.TaskVerify? || c.TaskAutoVerify?) && Accepted(s, c) then QuestReward(c.task) else 0
  }

  function QuestMoved(s: State, c: Call): int {
    if (c.TaskVerify? || c.TaskAutoVerify?) && Accepted(s, c) && At(s.balances, TREASURY) >= QuestReward(c.task)
    then QuestReward(c.task) else 0
  }

  function TotalMoved(start: State, calls: seq<Call>): int {
    if calls == [] then 0
    else TotalMoved(start, calls[..|calls| - 1]) + QuestMoved(After(start, calls[..|calls| - 1]), calls[|calls| - 1])
  }

  predicate QuestsCapped(s: State) {
    0 <= s.supply && 0 <= s.paid <= QuestCap(s)
  }

  lemma QuestStep(s: State, c: Call)
    requires QuestsCapped(s)
    ensures QuestsCapped(Do(s, c))
    ensures Do(s, c).paid == s.paid + QuestPaid(s, c) && QuestMoved(s, c) <= QuestPaid(s, c)
  {
    hide QuestReward;
  }

  /** At every reachable state the quests have been paid at most 5% of the live supply, and that
      counter bounds the WAY that verification has moved out of the treasury. */
  lemma {:induction false} QuestsStayCapped(start: State, calls: seq<Call>)
    requires QuestsCapped(start)
    ensures QuestsCapped(After(start, calls))
    ensures 100 * After(start, calls).paid <= QUEST_SUPPLY_PCT * After(start, calls).supply
    ensures TotalMoved(start, calls) <= After(start, calls).paid - start.paid
  {
    hide Do, QuestMoved;
    if calls != [] {
      var before := calls[..|calls| - 1];
      QuestsStayCapped(start, before);
      QuestStep(After(start, before), calls[|calls| - 1]);
    }
  }

  /** Nothing marks a quest as done: the same claimant is paid for the same task again, exactly
      while the cap has room for both payments. */
  lemma QuestPaysAgain(s: State, caller: Address, task: string, claimant: Address)
    requires Accepted(s, TaskVerify(caller, task, claimant))
    ensures Accepted(Do(s, TaskVerify(caller, task, claimant)), TaskVerify(caller, task, claimant))
        <==> s.paid + 2 * QuestReward(task) <= QuestCap(s)
  {
  }

  // ----- who gains and who pays

  function Share(a: Address, b: Address, amount: int): int {
    if a == b then amount else 0
  }

  /** What a call does to one account's balance. */
  function Gain(s: State, c: Call, a: Address): int {
    if !Accepted(s, c) then 0 else
      match c
      case TaskVerify(_, _, claimant) => Share(a, claimant, QuestMoved(s, c)) - Share(a, 0x03, QuestMoved(s, c))
      case TaskAutoVerify(_, _, claimant) => Share(a, claimant, QuestMoved(s, c)) - Share(a, 0x03, QuestMoved(s, c))
      case EscrowTask(caller, _, funds) => Share(a, 0x23, funds) - Share(a, caller, funds)
      case VerifyCommunity(_, task, claimant) =>
        var reward, payer := s.tasks[task].reward, if At(s.escrows, task) > 0 then 0x23 else 0x03;
        Share(a, claimant, reward) - Share(a, payer, if At(s.balances, payer) >= reward then reward else 0)
      case _ => 0
  }

  lemma QuestMoves(s: State, task: string, claimant: Address, a: Address)
    requires UnderCap(s, task)
    ensures At(AfterVerify(s, task, claimant).balances, a)
         == At(s.balances, a)
            + if At(s.balances, TREASURY) >= QuestReward(task)
              then Share(a, claimant, QuestReward(task)) - Share(a, TREASURY, QuestReward(task))
              else 0
  {
    hide QuestReward;
  }

  lemma CommunityMoves(s: State, caller: Address, task: string, claimant: Address, a: Address)
    requires CanVerifyCommunity(s, caller, task)
    ensures var reward, payer := s.tasks[task].reward, Payer(s, task);
            At(AfterVerifyCommunity(s, caller, task, claimant).balances, a)
            == At(s.balances, a) + Share(a, claimant, reward)
               - Share(a, payer, if At(s.balances, payer) >= reward then reward else 0)
  {
    hide Known, MayVerify;
  }

  /** Quest rewards move from the treasury to the claimant, escrow from its poster to the registry,
      and community rewards from the payer to the claimant; no call touches anyone else. */
  lemma BalancesMoveExactly(s: State, c: Call, a: Address)
    ensures At(Do(s, c).balances, a) == At(s.balances, a) + Gain(s, c, a)
  {
    hide QuestReward, AfterVerify, AfterVerifyCommunity, Known, MayVerify, RecordOf, UnderCap;
    if Accepted(s, c) {
      match c
      case TaskVerify(_, task, claimant) => QuestMoves(s, task, claimant, a);
      case TaskAutoVerify(_, task, claimant) => QuestMoves(s, task, claimant, a);
      case VerifyCommunity(caller, task, claimant) => CommunityMoves(s, caller, task, claimant, a);
      case _ =>
    }
  }

  // ----- WAY is conserved

  /** The verification of a community task pays what its escrow holds, or with no escrow what the
      treasury holds. */
  predicate Covered(s: State, c: Call) {
    c.VerifyCommunity? && Accepted(s, c) ==>
      var reward := s.tasks[c.task].reward;
      if At(s.escrows, c.task) > 0 then reward <= At(s.escrows, c.task) else reward <= At(s.balances, TREASURY)
  }

  /** Escrow slots never hold more than the registry's own balance backs. */
  ghost predicate Backs(balances: map<Address, int>, escrows: map<string, int>) {
    NonNegative(balances) && NonNegative(escrows) && Sum(escrows) <= At(balances, REGISTRY)
  }

  ghost predicate EscrowsBacked(s: State) {
    Backs(s.balances, s.escrows)
  }

  ghost predicate CallConserves(s: State, c: Call) {
    Sum(Do(s, c).balances) == Sum(s.balances)
  }

  /** Every call but an uncovered community verification conserves WAY; that one pays out of
      nothing exactly when its payer cannot cover the reward. */
  lemma ConservesExactly(s: State, c: Call)
    ensures CallConserves(s, c) <==>
              (c.VerifyCommunity? && Accepted(s, c) ==>
                 At(s.balances, Payer(s, c.task)) >= s.tasks[c.task].reward || s.tasks[c.task].reward == 0)
  {
    hide QuestReward, Credit, Debit, Transfer, PayRegardless;
    match c
    case TaskVerify(_, task, claimant) => TransferConserves(s.balances, TREASURY, claimant, QuestReward(task));
    case TaskAutoVerify(_, task, claimant) => TransferConserves(s.balances, TREASURY, claimant, QuestReward(task));
    case EscrowTask(caller, task, amount) =>
      CreditSum(s.balances, REGISTRY, amount);
      DebitSum(Credit(s.balances, REGISTRY, amount), caller, amount);
    case VerifyCommunity(_, task, claimant) =>
      if Accepted(s, c) {
        PayRegardlessConserves(s.balances, Payer(s, task), claimant, s.tasks[task].reward);
      }
    case _ =>
  }

  lemma EscrowKeepsBacked(s: State, caller: Address, task: string, amount: nat)
    requires EscrowsBacked(s) && caller != REGISTRY
    ensures EscrowsBacked(AfterEscrow(s, caller, task, amount))
  {
    SumUpdate(s.escrows, task, At(s.escrows, task) + amount);
  }

  /** What a paid task leaves in its escrow. */
  lemma EscrowAfterPayment(escrows: map<string, int>, task: string, reward: nat)
    requires NonNegative(escrows) && task in escrows && reward <= escrows[task]
    ensures var e := escrows[task := escrows[task] - reward];
            NonNegative(e) && Sum(e) == Sum(escrows) - reward && reward <= Sum(escrows)
  {
    SumUpdate(escrows, task, escrows[task] - reward);
    SumBounds(escrows);
  }

  lemma CoveredPayment(balances: map<Address, int>, payer: Address, claimant: Address, reward: nat)
    requires NonNegative(balances) && At(balances, payer) >= reward
    ensures var after := PayRegardless(balances, payer, claimant, reward);
            && NonNegative(after)
            && At(after, REGISTRY) >= At(balances, REGISTRY) - if payer == REGISTRY then reward else 0
  {
  }

  lemma EscrowPays(balances: map<Address, int>, escrows: map<string, int>, task: string, claimant: Address, reward: nat)
    requires Backs(balances, escrows) && 0 < At(escrows, task) && reward <= At(escrows, task)
    ensures Backs(PayRegardless(balances, REGISTRY, claimant, reward), escrows[task := At(escrows, task) - reward])
  {
    hide PayRegardless;
    EscrowAfterPayment(escrows, task, reward);
    CoveredPayment(balances, REGISTRY, claimant, reward);
  }

  lemma TreasuryPays(balances: map<Address, int>, escrows: map<string, int>, claimant: Address, reward: nat)
    requires Backs(balances, escrows) && reward <= At(balances, TREASURY)
    ensures Backs(PayRegardless(balances, TREASURY, claimant, reward), escrows)
  {
    hide PayRegardless;
    CoveredPayment(balances, TREASURY, claimant, reward);
  }

  lemma CommunityKeepsBacked(s: State, caller: Address, task: string, claimant: Address)
    requires EscrowsBacked(s) && Covered(s, VerifyCommunity(caller, task, claimant))
    ensures EscrowsBacked(AfterVerifyCommunity(s, caller, task, claimant))
  {
    hide PayRegardless, Backs, MayVerify;
    if CanVerifyCommunity(s, caller, task) {
      if At(s.escrows, task) > 0 {
        EscrowPays(s.balances, s.escrows, task, claimant, s.tasks[task].reward);
      } else {
        TreasuryPays(s.balances, s.escrows, claimant, s.tasks[task].reward);
      }
    }
  }

  lemma VerifyKeepsBacked(s: State, task: string, claimant: Address)
    requires EscrowsBacked(s)
    ensures EscrowsBacked(AfterVerify(s, task, claimant))
  {
    hide Backs, Transfer, QuestReward, UnderCap;
    QuestKeepsBacked(s.balances, s.escrows, claimant, QuestReward(task));
  }

  lemma QuestKeepsBacked(balances: map<Address, int>, escrows: map<string, int>, claimant: Address, amount: nat)
    requires Backs(balances, escrows)
    ensures Backs(Transfer(balances, TREASURY, claimant, amount), escrows)
  {
  }

  lemma CoveredByPayer(s: State, c: Call)
    requires EscrowsBacked(s) && Covered(s, c)
    ensures CallConserves(s, c)
  {
    hide CallConserves;
    ConservesExactly(s, c);
    SumBounds(s.escrows);
  }

  lemma StepKeepsBacked(s: State, c: Call)
    requires EscrowsBacked(s) && Covered(s, c) && (c.EscrowTask? ==> c.caller != REGISTRY)
    ensures EscrowsBacked(Do(s, c))
  {
    hide EscrowsBacked, QuestReward, AfterVerify, AfterEscrow, AfterVerifyCommunity, UnderCap;
    match c
    case TaskVerify(_, task, claimant) => VerifyKeepsBacked(s, task, claimant);
    case TaskAutoVerify(_, task, claimant) => VerifyKeepsBacked(s, task, claimant);
    case EscrowTask(caller, task, amount) => EscrowKeepsBacked(s, caller, task, amount);
    case VerifyCommunity(caller, task, claimant) => CommunityKeepsBacked(s, caller, task, claimant);
    case _ => SameHoldings(s, Do(s, c));
  }

  lemma SameHoldings(s: State, s': State)
    requires EscrowsBacked(s) && s'.balances == s.balances && s'.escrows == s.escrows
    ensures EscrowsBacked(s')
  {
  }

  ghost predicate AllCovered(start: State, calls: seq<Call>) {
    forall k | 0 <= k < |calls| ::
      Covered(After(start, calls[..k]), calls[k]) && (calls[k].EscrowTask? ==> calls[k].caller != REGISTRY)
  }

  /** While every verified community reward is covered, by its escrow or with none by the treasury,
      the escrows stay backed and all WAY is conserved. */
  lemma {:induction false} CoveredRunsConserve(start: State, calls: seq<Call>)
    requires EscrowsBacked(start) && AllCovered(start, calls)
    ensures EscrowsBacked(After(start, calls))
    ensures Sum(After(start, calls).balances) == Sum(start.balances)
  {
    hide EscrowsBacked, Covered, Do;
    if calls != [] {
      var before, last := calls[..|calls| - 1], calls[|calls| - 1];
      assert forall k | 0 <= k < |before| :: before[..k] == calls[..k] && before[k] == calls[k];
      assert calls[..|calls| - 1] == before;
      CoveredRunsConserve(start, before);
      StepKeepsBacked(After(start, before), last);
      CoveredByPayer(After(start, before), last);
    }
  }

  /** When the registry holds nothing beyond its escrows, a verification paid from escrow to
      somebody else leaves them backed exactly when the escrow covers the reward, or the registry
      cannot pay it and is not charged. */
  lemma BackedExactly(s: State, caller: Address, task: string, claimant: Address)
    requires EscrowsBacked(s) && Sum(s.escrows) == At(s.balances, REGISTRY)
    requires CanVerifyCommunity(s, caller, task) && At(s.escrows, task) > 0 && claimant != REGISTRY
    ensures EscrowsBacked(AfterVerifyCommunity(s, caller, task, claimant)) <==>
              s.tasks[task].reward <= At(s.escrows, task) || At(s.balances, REGISTRY) < s.tasks[task].reward
  {
    var reward, esc := s.tasks[task].reward, At(s.escrows, task);
    EscrowAfterPayment(s.escrows, task, if esc < reward then esc else reward);
  }

  /** A task created with both its bytes zero and a reward within its window can be funded but
      never paid: verification takes it for unknown. */
  lemma ZeroModeIsNeverPaid(s: State, task: string, reward: nat, minLevel: int, verifyMode: int, caller: Address)
    requires 0 < reward < WINDOW
    ensures var s' := Do(s, CreateTask(task, reward, minLevel, verifyMode));
            (forall verifier: Address, claimant: Address :: !Accepted(s', VerifyCommunity(verifier, task, claimant)))
              <==> (minLevel == 0 && verifyMode == 0)
                   || (verifyMode == 0 && s.autopilot == None)
                   || (verifyMode != 0 && forall a: Address :: At(s.levels, a) < 2)
  {
    var s' := Do(s, CreateTask(task, reward, minLevel, verifyMode));
    assert s'.tasks[task] == Task(minLevel, verifyMode, reward);
    if !(minLevel == 0 && verifyMode == 0) {
      if verifyMode == 0 && s.autopilot.Some? {
        assert Accepted(s', VerifyCommunity(s.autopilot.value, task, caller));
      } else if verifyMode != 0 && exists a: Address :: At(s.levels, a) >= 2 {
        var a: Address :| At(s.levels, a) >= 2;
        assert Accepted(s', VerifyCommunity(a, task, caller));
      }
    }
  }

  // ----- each task's escrow

  /** What call c pays into the task's escrow, and what it draws from it: the reward, or all that is there
      if that is less. */
  function EscrowFunded(s: State, c: Call, task: string): int {
    if c.EscrowTask? && c.task == task && At(s.balances, c.caller) >= c.funds then c.funds else 0
  }

  function EscrowDrawn(s: State, c: Call, task: string): int {
    if c.VerifyCommunity? && c.task == task && Accepted(s, c) then
      var held, reward := At(s.escrows, task), s.tasks[task].reward;
      if held <= 0 then 0 else if reward <= held then reward else held
    else 0
  }

  function TotalFunded(start: State, calls: seq<Call>, task: string): int {
    if calls == [] then 0
    else TotalFunded(start, calls[..|calls| - 1], task)
         + EscrowFunded(After(start, calls[..|calls| - 1]), calls[|calls| - 1], task)
  }

  function TotalDrawn(start: State, calls: seq<Call>, task: string): int {
    if calls == [] then 0
    else TotalDrawn(start, calls[..|calls| - 1], task)
         + EscrowDrawn(After(start, calls[..|calls| - 1]), calls[|calls| - 1], task)
  }

  lemma EscrowStep(s: State, c: Call, task: string)
    ensures At(Do(s, c).escrows, task) == At(s.escrows, task) + EscrowFunded(s, c, task) - EscrowDrawn(s, c, task)
  {
    hide QuestReward, UnderCap, RecordOf, Known, MayVerify;
  }

  /** Over every run a task's escrow is what was paid into it less what its verifications drew. */
  lemma {:induction false} EscrowIsAccounted(start: State, calls: seq<Call>, task: string)
    ensures At(After(start, calls).escrows, task)
         == At(start.escrows, task) + TotalFunded(start, calls, task) - TotalDrawn(start, calls, task)
  {
    if calls != [] {
      hide Do, EscrowFunded, EscrowDrawn;
      EscrowIsAccounted(start, calls[..|calls| - 1], task);
      EscrowStep(After(start, calls[..|calls| - 1]), calls[|calls| - 1], task);
    }
  }

  // ----- which calls are accepted, and what else they change

  /** Quests are verified by badge holders, or for the eligible ones by the autopilot, while paid quests and
      the reward stay within a twentieth of the supply; a community task by whoever its mode names. */
  lemma AcceptsExactly(s: State, c: Call)
    ensures Accepted(s, c) <==>
              match c
              case TaskVerify(caller, task, _) =>
                At(s.levels, caller) >= 2 && 20 * (s.paid + QuestReward(task)) <= s.supply
              case TaskAutoVerify(caller, task, _) =>
                && s.autopilot == Some(caller) && task in AUTO_ELIGIBLE
                && 20 * (s.paid + QuestReward(task)) <= s.supply
              case SetAutopilot(caller, _) => At(s.levels, caller) >= 3
              case AddSupply(_) => true
              case CreateTask(_, reward, _, _) => reward > 0
              case EscrowTask(caller, _, amount) => At(s.balances, caller) >= amount
              case VerifyCommunity(caller, task, _) =>
                && task in s.tasks
                && (if s.tasks[task].verifyMode == 0
                    then s.tasks[task].minLevel != 0 && s.autopilot == Some(caller)
                    else At(s.levels, caller) >= 2)
  {
    hide QuestReward;
    if c.TaskVerify? || c.TaskAutoVerify? {
      TwentiethExactly(s.paid + QuestReward(c.task), s.supply);
    }
  }

  /** Past the cap a verification changes nothing, and neither does funding that its caller cannot cover. */
  lemma RefusalChangesNothing(s: State, caller: Address, task: string, claimant: Address, amount: nat)
    ensures 20 * (s.paid + QuestReward(task)) > s.supply ==> AfterVerify(s, task, claimant) == s
    ensures At(s.balances, caller) < amount ==> AfterEscrow(s, caller, task, amount) == s
  {
    hide QuestReward, Transfer;
    TwentiethExactly(s.paid + QuestReward(task), s.supply);
  }

  lemma TwentiethExactly(x: int, supply: int)
    ensures x <= supply * QUEST_SUPPLY_PCT / 100 <==> 20 * x <= supply
  {
  }

  /** Each verification marks its claimant's record; supply, autopilot and tasks change by their own calls,
      and badge levels by none. */
  lemma RecordsMove(s: State, c: Call, claimant: Address, task: string)
    ensures var s' := Do(s, c);
            var verified := (c.TaskVerify? || c.TaskAutoVerify? || c.VerifyCommunity?) && Accepted(s, c);
            && s'.levels == s.levels
            && s'.supply == s.supply + (if c.AddSupply? && c.amount > 0 then c.amount else 0)
            && s'.autopilot == (if !(c.SetAutopilot? && Accepted(s, c)) then s.autopilot
                                else if c.autopilot == 0 then None else Some(c.autopilot))
            && (claimant in s'.marks <==> claimant in s.marks || (verified && c.claimant == claimant))
            && (claimant in s'.marks ==>
                  s'.marks[claimant] == if verified && c.claimant == claimant then Mark(c.task, Verified)
                                        else s.marks[claimant])
            && (!(c.CreateTask? && c.task == task && c.reward > 0) ==>
                  (task in s'.tasks <==> task in s.tasks) && (task in s.tasks ==> s'.tasks[task] == s.tasks[task]))
  {
    hide QuestReward, UnderCap, RecordOf, Known, MayVerify, Transfer, PayRegardless;
  }

  /** Exactly the listed quests pay, between 10 and 300 each, and every quest that the autopilot may verify
      is listed. */
  lemma QuestsPay(task: string)
    ensures QuestReward(task) == 0 <==> task !in QUEST_REWARDS
    ensures task in QUEST_REWARDS ==> 10 <= QuestReward(task) == QUEST_REWARDS[task] <= 300
    ensures AUTO_ELIGIBLE <= QUEST_REWARDS.Keys
  {
  }

  /** The reward's window and the two bytes before it make a slot of 32 bytes. */
  lemma WindowIsSlot()
    ensures var word := 0x1_0000_0000_0000_0000; 0x1_0000 * WINDOW == word * word * word * word
  {
  }

  /** A created task keeps its two bytes exactly while its reward fits the thirty behind them; a wider
      reward is written over them, lowest byte last. */
  lemma RewardRunsOver(s: State, task: string, reward: nat, minLevel: int, verifyMode: int)
    requires 0 < reward && 0 <= minLevel < 256 && 0 <= verifyMode < 256
    ensures var r := Do(s, CreateTask(task, reward, minLevel, verifyMode)).tasks[task];
            && 0 <= r.reward < WINDOW
            && (reward < WINDOW ==> r == Task(minLevel, verifyMode, reward))
            && (WINDOW <= reward < 256 * WINDOW ==>
                  r.minLevel == minLevel && r.verifyMode * WINDOW + r.reward == reward)
            && (256 * WINDOW <= reward ==> 0 <= r.verifyMode < 256
                                           && (r.minLevel * 256 + r.verifyMode) * WINDOW + r.reward == reward)
  {
    SplitReward(reward, WINDOW);
  }

  lemma SplitReward(reward: nat, window: nat)
    requires window > 0
    ensures var high := reward / window;
            && high * window + reward % window == reward && 0 <= reward % window < window
            && (high == 0 <==> reward < window) && (high < 256 <==> reward < 256 * window)
            && high / 256 * 256 + high % 256 == high
  {
    QuotientBelow(reward, window, 1);
    QuotientBelow(reward, window, 256);
  }
}
