/** The transaction pool and block production: which transactions a block includes, and what
    that does to nonces and balances. */
module Chain {
  import opened Bytes
  import opened Lanes
  import opened Prelude

  type Address = int

  const BLOCK_TXS := 10
  const TRANSFER_GAS := 21_000
  const DEPLOY_LEVEL := 2

  /** recipient None is contract creation; content stands for calldata and signature. */
  datatype Tx = Tx(nonce: nat, sender: Address, recipient: Option<Address>, value: nat,
                   gasLimit: nat, gasPrice: nat, lane: Byte, content: nat)

  datatype Account = Account(nonce: nat, balance: int, level: nat)

  type Accounts = map<Address, Account>

  function Get(accounts: Accounts, a: Address): Account {
    if a in accounts then accounts[a] else Account(0, 0, 0)
  }

  datatype Execution = Execution(accounts: Accounts, gasUsed: nat, failed: bool)

  /** What block production calls and this model does not contain: signature verification, the
      execution of a transaction, and the time tasks and rewards at the end of a block. */
  datatype Machine = Machine(
    verifies: Tx -> bool,
    execute: (Accounts, Tx) -> Execution,
    settle: (Accounts, nat) -> Accounts)

  /** Nothing that the machine does lowers a nonce. */
  ghost predicate KeepsNonces(m: Machine) {
    && (forall accounts, tx, a :: Get(m.execute(accounts, tx).accounts, a).nonce >= Get(accounts, a).nonce)
    && (forall accounts, height, a :: Get(m.settle(accounts, height), a).nonce >= Get(accounts, a).nonce)
  }

  // ----- one transaction

  function Price(tx: Tx): nat {
    if tx.gasPrice == 0 then 1 else tx.gasPrice
  }

  /** Products of 64-bit gas and price wrap around. */
  function GasCost(gas: nat, tx: Tx): nat {
    gas * Price(tx) % TWO_TO_64
  }

  /** The affordability check: the whole gas limit, and the value. */
  predicate Affords(balance: int, tx: Tx) {
    balance >= GasCost(tx.gasLimit, tx) + tx.value
  }

  /** Whether a transaction is executed at all. */
  predicate Passes(m: Machine, accounts: Accounts, tx: Tx) {
    var sender := Get(accounts, tx.sender);
    && m.verifies(tx)
    && tx.nonce == sender.nonce
    && (tx.recipient.None? ==> sender.level >= DEPLOY_LEVEL)
    && Affords(sender.balance, tx)
  }

  /** The sender pays for gas used and value, and its nonce advances, even when execution failed. */
  function Charge(accounts: Accounts, tx: Tx, gasUsed: nat): Accounts {
    var sender := Get(accounts, tx.sender);
    accounts[tx.sender := sender.(balance := sender.balance - (GasCost(gasUsed, tx) + tx.value),
                                  nonce := sender.nonce + 1)]
  }

  datatype Progress = Progress(accounts: Accounts, included: seq<Tx>)

  function AfterTx(m: Machine, p: Progress, tx: Tx): Progress {
    var ready := p.accounts[tx.sender := Get(p.accounts, tx.sender)];
    if !Passes(m, ready, tx) then p.(accounts := ready)
    else
      var result := m.execute(ready, tx);
      Progress(Charge(result.accounts, tx, result.gasUsed), if result.failed then p.included else p.included + [tx])
  }

  function AfterTxs(m: Machine, accounts: Accounts, txs: seq<Tx>): Progress {
    if txs == [] then Progress(accounts, [])
    else AfterTx(m, AfterTxs(m, accounts, txs[..|txs| - 1]), txs[|txs| - 1])
  }

  // ----- the chain

  datatype Block = Block(height: nat, proposer: int, transactions: seq<Tx>)

  datatype Node = Node(accounts: Accounts, consensus: seq<Tx>, oracle: seq<Tx>, privateTxs: seq<Tx>,
                       height: nat, blocks: seq<Block>)

  function Taken(pool: seq<Tx>): nat {
    if BLOCK_TXS > |pool| then |pool| else BLOCK_TXS
  }

  function AfterSubmit(n: Node, tx: Tx): Node {
    if tx.lane == PRIVATE_LANE then n.(privateTxs := n.privateTxs + [tx])
    else if tx.lane == ORACLE_LANE then n.(oracle := n.oracle + [tx])
    else n.(consensus := n.consensus + [tx])
  }

  /** Only the consensus lane is ever popped. */
  function AfterBlock(m: Machine, n: Node, proposer: int): Node {
    var k := Taken(n.consensus);
    var done := AfterTxs(m, n.accounts, n.consensus[..k]);
    n.(accounts := m.settle(done.accounts, n.height + 1),
       consensus := n.consensus[k..],
       height := n.height + 1,
       blocks := n.blocks + [Block(n.height + 1, proposer, done.included)])
  }

  class TxPool {
    var Consensus: seq<Tx>
    var Oracle: seq<Tx>
    var Private: seq<Tx>

    constructor ()
      ensures Consensus == [] && Oracle == [] && Private == []
    {
      Consensus, Oracle, Private := [], [], [];
    }

    method Add(tx: Tx)
      modifies this
      ensures Consensus == if tx.lane !in {ORACLE_LANE, PRIVATE_LANE} then old(Consensus) + [tx] else old(Consensus)
      ensures Oracle == if tx.lane == ORACLE_LANE then old(Oracle) + [tx] else old(Oracle)
      ensures Private == if tx.lane == PRIVATE_LANE then old(Private) + [tx] else old(Private)
    {
      if tx.lane == PRIVATE_LANE {
        Private := Private + [tx];
      } else if tx.lane == ORACLE_LANE {
        Oracle := Oracle + [tx];
      } else {
        Consensus := Consensus + [tx];
      }
    }

    method PopConsensus(limit: nat) returns (txs: seq<Tx>)
      modifies this`Consensus
      ensures txs + Consensus == old(Consensus)
      ensures |txs| == if limit > |old(Consensus)| then |old(Consensus)| else limit
    {
      var count := limit;
      if count > |Consensus| {
        count := |Consensus|;
      }
      txs := Consensus[..count];
      Consensus := Consensus[count..];
    }
  }

  class Chain {
    const machine: Machine
    const Pool: TxPool
    var State: Accounts
    var Height: nat
    var Blocks: seq<Block>

    ghost function Model(): Node
      reads this, Pool
    {
      Node(State, Pool.Consensus, Pool.Oracle, Pool.Private, Height, Blocks)
    }

    constructor (machine: Machine, genesis: Accounts)
      ensures this.machine == machine && fresh(Pool)
      ensures Model() == Node(genesis, [], [], [], 0, [])
    {
      this.machine := machine;
      Pool := new TxPool();
      State, Height, Blocks := genesis, 0, [];
    }

    method Submit(tx: Tx)
      modifies Pool
      ensures Model() == AfterSubmit(old(Model()), tx)
    {
      Pool.Add(tx);
    }

    method ProduceBlock(proposer: int) returns (block: Block)
      modifies this, Pool
      ensures Model() == AfterBlock(machine, old(Model()), proposer)
      ensures Blocks == old(Blocks) + [block]
    {
      hide AfterTxs;
      Height := Height + 1;
      var popped := Pool.PopConsensus(BLOCK_TXS);
      assert popped == old(Pool.Consensus)[..Taken(old(Pool.Consensus))];
      var executed := ExecuteTxs(popped);
      State := machine.settle(State, Height);
      block := Block(Height, proposer, executed);
      Blocks := Blocks + [block];
    }

    /** The block's loop; the result are the transactions that it includes. */
    method ExecuteTxs(txs: seq<Tx>) returns (executed: seq<Tx>)
      modifies this`State
      ensures Progress(State, executed) == AfterTxs(machine, old(State), txs)
    {
      hide AfterTx;
      executed := [];
      for i := 0 to |txs|
        invariant Progress(State, executed) == AfterTxs(machine, old(State), txs[..i])
      {
        assert txs[..i + 1][..i] == txs[..i];
        executed := ExecuteTx(txs[i], executed);
      }
      assert txs[..|txs|] == txs;
    }

    /** One turn of the block's loop; every early return leaves the transaction out. */
    method ExecuteTx(tx: Tx, included: seq<Tx>) returns (executed: seq<Tx>)
      modifies this`State
      ensures Progress(State, executed) == AfterTx(machine, Progress(old(State), included), tx)
    {
      executed := included;
      State := State[tx.sender := Get(State, tx.sender)];
      var sender := State[tx.sender];
      if !machine.verifies(tx) {
        return;
      }
      if tx.nonce != sender.nonce {
        return;
      }
      if tx.recipient.None? && sender.level < DEPLOY_LEVEL {
        return;
      }
      var txCost := GasCost(tx.gasLimit, tx) + tx.value;
      if sender.balance < txCost {
        return;
      }
      var result := machine.execute(State, tx);
      State := Charge(result.accounts, tx, result.gasUsed);
      if result.failed {
        return;
      }
      executed := executed + [tx];
    }
  }

  // ----- no replay

  datatype Action = Submit(tx: Tx) | Produce(proposer: int)

  function After(m: Machine, start: Node, actions: seq<Action>): Node {
    if actions == [] then start else
      var n := After(m, start, actions[..|actions| - 1]);
      match actions[|actions| - 1]
      case Submit(tx) => AfterSubmit(n, tx)
      case Produce(proposer) => AfterBlock(m, n, proposer)
  }

  /** Every transaction the chain has included, oldest first. */
  function Ledger(blocks: seq<Block>): seq<Tx> {
    if blocks == [] then [] else Ledger(blocks[..|blocks| - 1]) + blocks[|blocks| - 1].transactions
  }

  predicate NoncesRise(ledger: seq<Tx>) {
    forall i, j | 0 <= i < j < |ledger| && ledger[i].sender == ledger[j].sender :: ledger[i].nonce < ledger[j].nonce
  }

  /** Every included nonce lies below its sender's next one. */
  predicate Spent(accounts: Accounts, ledger: seq<Tx>) {
    forall i | 0 <= i < |ledger| :: ledger[i].nonce < Get(accounts, ledger[i].sender).nonce
  }

  lemma TxRaisesNonces(m: Machine, p: Progress, tx: Tx, a: Address)
    requires KeepsNonces(m)
    ensures Get(AfterTx(m, p, tx).accounts, a).nonce >= Get(p.accounts, a).nonce
    ensures AfterTx(m, p, tx).included != p.included ==>
              AfterTx(m, p, tx).included == p.included + [tx]
              && tx.nonce == Get(p.accounts, tx.sender).nonce < Get(AfterTx(m, p, tx).accounts, tx.sender).nonce
  {
    hide GasCost;
    var ready := p.accounts[tx.sender := Get(p.accounts, tx.sender)];
    assert Get(m.execute(ready, tx).accounts, a).nonce >= Get(ready, a).nonce;
    assert Get(m.execute(ready, tx).accounts, tx.sender).nonce >= Get(ready, tx.sender).nonce;
  }

  lemma {:induction false} TxsKeepSpent(m: Machine, accounts: Accounts, txs: seq<Tx>, ledger: seq<Tx>)
    requires KeepsNonces(m) && NoncesRise(ledger) && Spent(accounts, ledger)
    ensures var p := AfterTxs(m, accounts, txs);
            NoncesRise(ledger + p.included) && Spent(p.accounts, ledger + p.included)
  {
    hide KeepsNonces, AfterTx;
    if txs == [] {
      assert ledger + [] == ledger;
    } else {
      TxsKeepSpent(m, accounts, txs[..|txs| - 1], ledger);
      TxKeepsSpent(m, AfterTxs(m, accounts, txs[..|txs| - 1]), txs[|txs| - 1], ledger);
    }
  }

  lemma TxKeepsSpent(m: Machine, p: Progress, tx: Tx, ledger: seq<Tx>)
    requires KeepsNonces(m) && NoncesRise(ledger + p.included) && Spent(p.accounts, ledger + p.included)
    ensures var p' := AfterTx(m, p, tx);
            NoncesRise(ledger + p'.included) && Spent(p'.accounts, ledger + p'.included)
  {
    hide KeepsNonces, AfterTx;
    var p' := AfterTx(m, p, tx);
    forall a ensures Get(p'.accounts, a).nonce >= Get(p.accounts, a).nonce {
      TxRaisesNonces(m, p, tx, a);
    }
    TxRaisesNonces(m, p, tx, tx.sender);
    if p'.included != p.included {
      assert ledger + p'.included == (ledger + p.included) + [tx];
    }
  }

  lemma BlockKeepsSpent(m: Machine, n: Node, proposer: int)
    requires KeepsNonces(m) && NoncesRise(Ledger(n.blocks)) && Spent(n.accounts, Ledger(n.blocks))
    ensures var n' := AfterBlock(m, n, proposer);
            NoncesRise(Ledger(n'.blocks)) && Spent(n'.accounts, Ledger(n'.blocks))
  {
    hide AfterTxs, NoncesRise;
    var n' := AfterBlock(m, n, proposer);
    var txs := n.consensus[..Taken(n.consensus)];
    TxsKeepSpent(m, n.accounts, txs, Ledger(n.blocks));
    assert n'.blocks[..|n'.blocks| - 1] == n.blocks;
    assert forall a :: Get(n'.accounts, a).nonce >= Get(AfterTxs(m, n.accounts, txs).accounts, a).nonce;
  }

  /** Over any run of submissions and blocks, with any pool contents: the transactions that the
      chain includes from one sender have strictly rising nonces, across all blocks. */
  lemma {:induction false} IncludedNoncesRise(m: Machine, start: Node, actions: seq<Action>)
    requires KeepsNonces(m) && start.blocks == []
    ensures var n := After(m, start, actions);
            NoncesRise(Ledger(n.blocks)) && Spent(n.accounts, Ledger(n.blocks))
  {
    hide KeepsNonces, AfterBlock, NoncesRise, Spent;
    if actions == [] {
      NothingSpent(start.accounts);
    } else {
      var n := After(m, start, actions[..|actions| - 1]);
      IncludedNoncesRise(m, start, actions[..|actions| - 1]);
      match actions[|actions| - 1]
      case Submit(tx) =>
      case Produce(proposer) => BlockKeepsSpent(m, n, proposer);
    }
  }

  lemma NothingSpent(accounts: Accounts)
    ensures NoncesRise([]) && Spent(accounts, [])
  {
  }

  /** So no transaction, nor another with its sender and nonce, is ever included twice. */
  lemma NoReplay(m: Machine, start: Node, actions: seq<Action>, i: nat, j: nat)
    requires KeepsNonces(m) && start.blocks == []
    requires i < |Ledger(After(m, start, actions).blocks)| && j < |Ledger(After(m, start, actions).blocks)|
    ensures var ledger := Ledger(After(m, start, actions).blocks);
            ledger[i].sender == ledger[j].sender && ledger[i].nonce == ledger[j].nonce ==> i == j
  {
    IncludedNoncesRise(m, start, actions);
  }

  lemma {:induction false} BlocksAreNumbered(m: Machine, start: Node, actions: seq<Action>)
    requires start.blocks == []
    ensures var n := After(m, start, actions);
            |n.blocks| == n.height - start.height
            && forall i | 0 <= i < |n.blocks| :: n.blocks[i].height == start.height + i + 1
                                                 && |n.blocks[i].transactions| <= 10
  {
    hide AfterTxs;
    if actions != [] {
      var n := After(m, start, actions[..|actions| - 1]);
      BlocksAreNumbered(m, start, actions[..|actions| - 1]);
      IncludedAtMost(m, n.accounts, n.consensus[..Taken(n.consensus)]);
    }
  }

  lemma {:induction false} IncludedAtMost(m: Machine, accounts: Accounts, txs: seq<Tx>)
    ensures |AfterTxs(m, accounts, txs).included| <= |txs|
  {
    if txs != [] {
      hide Passes, Charge;
      IncludedAtMost(m, accounts, txs[..|txs| - 1]);
    }
  }

  // ----- the pools are queues

  /** What was submitted to the lane of that byte; every byte but 1 and 2 means the consensus lane. */
  function SubmittedTo(lane: Byte, actions: seq<Action>): seq<Tx> {
    if actions == [] then [] else
      var before := SubmittedTo(lane, actions[..|actions| - 1]);
      match actions[|actions| - 1]
      case Submit(tx) => if (if tx.lane == 1 || tx.lane == 2 then tx.lane else 0) == lane then before + [tx] else before
      case Produce(_) => before
  }

  /** What the blocks of a run took from the consensus lane: ten each, or all there were. */
  function Popped(m: Machine, start: Node, actions: seq<Action>): seq<Tx> {
    if actions == [] then [] else
      var before := Popped(m, start, actions[..|actions| - 1]);
      var pool := After(m, start, actions[..|actions| - 1]).consensus;
      match actions[|actions| - 1]
      case Submit(_) => before
      case Produce(_) => before + if |pool| < 10 then pool else pool[..10]
  }

  /** Over every run each lane is a queue: what was in the consensus lane and was submitted to it since has
      been taken, in that order, or is still there; the other two lanes only grow. */
  lemma {:induction false} LanesAreQueues(m: Machine, start: Node, actions: seq<Action>)
    ensures var n := After(m, start, actions);
            && start.consensus + SubmittedTo(0, actions) == Popped(m, start, actions) + n.consensus
            && n.oracle == start.oracle + SubmittedTo(1, actions)
            && n.privateTxs == start.privateTxs + SubmittedTo(2, actions)
  {
    if actions != [] {
      hide AfterBlock;
      var n := After(m, start, actions[..|actions| - 1]);
      LanesAreQueues(m, start, actions[..|actions| - 1]);
      var front := actions[..|actions| - 1];
      var popped := Popped(m, start, front);
      match actions[|actions| - 1]
      case Submit(tx) =>
        Regroup(start.consensus, SubmittedTo(0, front), [tx]);
        Regroup(popped, n.consensus, [tx]);
        Regroup(start.oracle, SubmittedTo(1, front), [tx]);
        Regroup(start.privateTxs, SubmittedTo(2, front), [tx]);
      case Produce(proposer) =>
        BlockTakes(m, n, proposer);
        Regroup(popped, if |n.consensus| < 10 then n.consensus else n.consensus[..10],
                AfterBlock(m, n, proposer).consensus);
    }
  }

  lemma Regroup<T>(a: seq<T>, b: seq<T>, c: seq<T>)
    ensures (a + b) + c == a + (b + c)
  {
  }

  lemma BlockTakes(m: Machine, n: Node, proposer: int)
    ensures var n' := AfterBlock(m, n, proposer);
            && n.consensus == (if |n.consensus| < 10 then n.consensus else n.consensus[..10]) + n'.consensus
            && n'.oracle == n.oracle && n'.privateTxs == n.privateTxs
  {
    hide AfterTxs;
  }

  /** The turns of a block are taken one after the other, each on what the one before left. */
  lemma TurnsFollow(m: Machine, accounts: Accounts, txs: seq<Tx>, tx: Tx)
    ensures AfterTxs(m, accounts, []) == Progress(accounts, [])
    ensures AfterTxs(m, accounts, txs + [tx]) == AfterTx(m, AfterTxs(m, accounts, txs), tx)
  {
  }

  /** With nothing else in its lane, a transaction that passes the checks and does not fail makes up the
      next block by itself; one that is for another lane, or does neither, leaves it empty. */
  lemma NextBlockHolds(m: Machine, start: Node, tx: Tx, proposer: int)
    requires start.consensus == []
    ensures var n := After(m, start, [Submit(tx), Produce(proposer)]);
            var turn := AfterTx(m, Progress(start.accounts, []), tx);
            var included := if tx.lane == 1 || tx.lane == 2 then [] else turn.included;
            n.blocks == start.blocks + [Block(start.height + 1, proposer, included)]
  {
    hide AfterTx, AfterTxs, AfterBlock;
    var actions := [Submit(tx), Produce(proposer)];
    assert actions[..1] == [Submit(tx)] && actions[..1][..0] == [];
    TurnsFollow(m, start.accounts, [], tx);
    assert [] + [tx] == [tx];
    var n := After(m, start, actions[..1]);
    assert After(m, start, []) == start && n == AfterSubmit(start, tx);
    assert start.consensus + [tx] == [tx];
    assert n.consensus == if tx.lane == 1 || tx.lane == 2 then [] else [tx];
    BlockOfAll(m, n, proposer);
  }

  lemma BlockOfAll(m: Machine, n: Node, proposer: int)
    requires |n.consensus| <= 10
    ensures AfterBlock(m, n, proposer).blocks
         == n.blocks + [Block(n.height + 1, proposer, AfterTxs(m, n.accounts, n.consensus).included)]
  {
    hide AfterTxs;
    assert n.consensus[..|n.consensus|] == n.consensus;
  }

  // ----- what one transaction does

  /** A transaction that fails a check changes no account. One that is executed costs its sender one nonce,
      the gas used and the value on top of whatever the execution did, and touches nobody else; it is
      included exactly if the execution did not fail. */
  lemma TxSettles(m: Machine, p: Progress, tx: Tx, a: Address)
    ensures var ready := p.accounts[tx.sender := Get(p.accounts, tx.sender)];
            var p', sender, result := AfterTx(m, p, tx), Get(p.accounts, tx.sender), m.execute(ready, tx);
            var before, after := Get(result.accounts, a), Get(p'.accounts, a);
            if m.verifies(tx) && tx.nonce == sender.nonce && (tx.recipient.None? ==> sender.level >= 2)
               && sender.balance - tx.value >= tx.gasLimit * Price(tx) % 0x1_0000_0000_0000_0000
            then
              && p'.included == p.included + (if result.failed then [] else [tx])
              && (a != tx.sender ==> after == before)
              && (a == tx.sender ==>
                    && after.nonce == before.nonce + 1 && after.level == before.level
                    && before.balance - after.balance
                       == result.gasUsed * Price(tx) % 0x1_0000_0000_0000_0000 + tx.value)
            else
              p'.included == p.included && after == Get(p.accounts, a)
    ensures tx.sender in AfterTx(m, p, tx).accounts
  {
  }

  /** A missing gas price counts as one, and an unknown account has nothing. */
  lemma DefaultsAre(tx: Tx, accounts: Accounts, a: Address)
    ensures Price(tx) == if tx.gasPrice == 0 then 1 else tx.gasPrice
    ensures a !in accounts ==> Get(accounts, a) == Account(0, 0, 0)
  {
  }

  // ----- plain transfers

  function CreditTo(accounts: Accounts, a: Address, amount: int): Accounts {
    accounts[a := Get(accounts, a).(balance := Get(accounts, a).balance + amount)]
  }

  /** Execution of a transfer without code or calldata: a transfer to oneself is not credited. */
  function ExecuteTransfer(accounts: Accounts, tx: Tx): Execution
    requires tx.recipient.Some?
  {
    var to := tx.recipient.value;
    var ready := accounts[to := Get(accounts, to)];
    Execution(if tx.sender != to && tx.value > 0 then CreditTo(ready, to, tx.value) else ready, TRANSFER_GAS, false)
  }

  /** If tx is executed on these accounts, it is as a plain transfer: its recipient has no code there. */
  predicate TransferAt(m: Machine, accounts: Accounts, tx: Tx) {
    var ready := accounts[tx.sender := Get(accounts, tx.sender)];
    Passes(m, ready, tx) ==> tx.recipient.Some? && m.execute(ready, tx) == ExecuteTransfer(ready, tx)
  }

  /** Every transaction that is executed on the way is a plain transfer where it is executed. */
  predicate Transfers(m: Machine, accounts: Accounts, txs: seq<Tx>) {
    forall i | 0 <= i < |txs| :: TransferAt(m, AfterTxs(m, accounts, txs[..i]).accounts, txs[i])
  }

  function Balances(accounts: Accounts): map<Address, int> {
    map a | a in accounts :: accounts[a].balance
  }

  lemma BalanceWrite(accounts: Accounts, a: Address, account: Account)
    ensures Sum(Balances(accounts[a := account]))
         == Sum(Balances(accounts)) + account.balance - Get(accounts, a).balance
  {
    assert Balances(accounts[a := account]) == Balances(accounts)[a := account.balance];
    SumUpdate(Balances(accounts), a, account.balance);
  }

  /** What a passing transfer takes out of circulation: its gas, and its value too when it is sent
      to oneself. */
  function Burned(tx: Tx): int {
    GasCost(TRANSFER_GAS, tx) + if tx.recipient == Some(tx.sender) then tx.value else 0
  }

  lemma ExecutionCredits(accounts: Accounts, tx: Tx)
    requires tx.recipient.Some?
    ensures Sum(Balances(ExecuteTransfer(accounts, tx).accounts))
         == Sum(Balances(accounts)) + if tx.recipient == Some(tx.sender) then 0 else tx.value
  {
    hide Balances;
    var to := tx.recipient.value;
    var ready := accounts[to := Get(accounts, to)];
    BalanceWrite(accounts, to, Get(accounts, to));
    BalanceWrite(ready, to, Get(ready, to).(balance := Get(ready, to).balance + tx.value));
  }

  lemma ChargeDebits(accounts: Accounts, tx: Tx, gasUsed: nat)
    ensures Sum(Balances(Charge(accounts, tx, gasUsed))) == Sum(Balances(accounts)) - (GasCost(gasUsed, tx) + tx.value)
  {
    hide Balances, GasCost;
    BalanceWrite(accounts, tx.sender, Charge(accounts, tx, gasUsed)[tx.sender]);
  }

  lemma TransferConserves(m: Machine, p: Progress, tx: Tx)
    requires TransferAt(m, p.accounts, tx)
    ensures var p' := AfterTx(m, p, tx);
            Sum(Balances(p'.accounts))
            == Sum(Balances(p.accounts)) - if p'.included == p.included then 0 else Burned(tx)
  {
    hide GasCost, Balances, Charge, Passes;
    var ready := p.accounts[tx.sender := Get(p.accounts, tx.sender)];
    BalanceWrite(p.accounts, tx.sender, Get(p.accounts, tx.sender));
    if Passes(m, ready, tx) {
      ExecutionCredits(ready, tx);
      ChargeDebits(ExecuteTransfer(ready, tx).accounts, tx, TRANSFER_GAS);
      assert p.included + [tx] != p.included;
    }
  }

  predicate AllSolvent(accounts: Accounts) {
    forall a | a in accounts :: accounts[a].balance >= 0
  }

  /** The gas limit's cost, wrapped as it is, is no less than the cost of a transfer. */
  predicate CoversGas(tx: Tx) {
    GasCost(tx.gasLimit, tx) >= GasCost(TRANSFER_GAS, tx)
  }

  /** The affordability check covers a transfer's gas for every balance exactly then. */
  lemma CheckCoversTransfer(tx: Tx)
    ensures (forall balance | Affords(balance, tx) :: balance - (GasCost(TRANSFER_GAS, tx) + tx.value) >= 0)
        <==> CoversGas(tx)
  {
    assert Affords(GasCost(tx.gasLimit, tx) + tx.value, tx);
  }

  /** A gas limit of at least 21,000, at a price that does not overflow, is enough for that. */
  predicate PaysItsGas(tx: Tx) {
    tx.gasLimit >= TRANSFER_GAS && tx.gasLimit * Price(tx) < TWO_TO_64
  }

  lemma LimitCovers(tx: Tx)
    requires PaysItsGas(tx)
    ensures CoversGas(tx) && GasCost(TRANSFER_GAS, tx) == TRANSFER_GAS * Price(tx)
  {
    MulMono(TRANSFER_GAS, tx.gasLimit, Price(tx));
    SmallModulo(tx.gasLimit * Price(tx));
    SmallModulo(TRANSFER_GAS * Price(tx));
  }

  lemma SmallModulo(x: nat)
    requires x < TWO_TO_64
    ensures x % TWO_TO_64 == x
  {
  }

  lemma TransferStaysSolvent(m: Machine, p: Progress, tx: Tx)
    requires TransferAt(m, p.accounts, tx) && AllSolvent(p.accounts) && (m.verifies(tx) ==> CoversGas(tx))
    ensures AllSolvent(AfterTx(m, p, tx).accounts)
  {
    hide GasCost;
  }

  /** A machine on which every transaction with a recipient verifies and is a plain transfer. */
  function TransferMachine(): Machine {
    Machine(_ => true,
            (accounts: Accounts, tx: Tx) =>
              if tx.recipient.Some? then ExecuteTransfer(accounts, tx) else Execution(accounts, 0, true),
            (accounts: Accounts, _) => accounts)
  }

  ghost predicate KeepsSolvent(m: Machine, p: Progress, tx: Tx) {
    AllSolvent(p.accounts) && TransferAt(m, p.accounts, tx) ==> AllSolvent(AfterTx(m, p, tx).accounts)
  }

  /** A transfer that verifies leaves every solvent state solvent exactly when it covers its gas:
      otherwise a sender that just affords the limit ends below zero. */
  lemma TransferIsSolventExactly(tx: Tx)
    requires tx.recipient.Some?
    ensures (forall m: Machine, p: Progress | m.verifies(tx) :: KeepsSolvent(m, p, tx)) <==> CoversGas(tx)
  {
    hide GasCost;
    if CoversGas(tx) {
      forall m: Machine, p: Progress | m.verifies(tx) ensures KeepsSolvent(m, p, tx) {
        if AllSolvent(p.accounts) && TransferAt(m, p.accounts, tx) {
          TransferStaysSolvent(m, p, tx);
        }
      }
    } else {
      var m := TransferMachine();
      var least := Account(tx.nonce, GasCost(tx.gasLimit, tx) + tx.value, 0);
      var p := Progress(map[tx.sender := least], []);
      assert m.verifies(tx) && AllSolvent(p.accounts) && TransferAt(m, p.accounts, tx);
      assert Get(AfterTx(m, p, tx).accounts, tx.sender).balance < 0;
      assert !KeepsSolvent(m, p, tx);
    }
  }

  /** The gas that the transactions of a block paid, and the value burned by transfers to oneself. */
  function TotalBurned(txs: seq<Tx>): int {
    if txs == [] then 0 else TotalBurned(txs[..|txs| - 1]) + Burned(txs[|txs| - 1])
  }

  lemma LastTransfer(m: Machine, accounts: Accounts, txs: seq<Tx>)
    requires txs != [] && Transfers(m, accounts, txs)
    ensures Transfers(m, accounts, txs[..|txs| - 1])
    ensures TransferAt(m, AfterTxs(m, accounts, txs[..|txs| - 1]).accounts, txs[|txs| - 1])
  {
    hide TransferAt, AfterTxs;
    var front := txs[..|txs| - 1];
    assert forall i | 0 <= i < |front| :: front[..i] == txs[..i] && front[i] == txs[i];
  }

  lemma BurnedAppend(txs: seq<Tx>, tx: Tx)
    ensures TotalBurned(txs + [tx]) == TotalBurned(txs) + Burned(tx)
  {
  }

  /** A block of plain transfers takes out of circulation exactly the gas charged for the included
      ones, plus the value of those sent to oneself. */
  lemma {:induction false} TransfersConserve(m: Machine, accounts: Accounts, txs: seq<Tx>)
    requires Transfers(m, accounts, txs)
    ensures var p := AfterTxs(m, accounts, txs);
            Sum(Balances(p.accounts)) == Sum(Balances(accounts)) - TotalBurned(p.included)
  {
    hide AfterTx, Transfers, TransferAt, Burned, Balances;
    if txs != [] {
      var tx := txs[|txs| - 1];
      var p := AfterTxs(m, accounts, txs[..|txs| - 1]);
      LastTransfer(m, accounts, txs);
      TransfersConserve(m, accounts, txs[..|txs| - 1]);
      TransferConserves(m, p, tx);
      IncludedGrows(m, p, tx);
      BurnedAppend(p.included, tx);
    }
  }

  lemma IncludedGrows(m: Machine, p: Progress, tx: Tx)
    ensures AfterTx(m, p, tx).included == p.included || AfterTx(m, p, tx).included == p.included + [tx]
  {
  }

  /** And while every one that verifies covers its gas, no balance ever goes below zero. */
  lemma {:induction false} TransfersStaySolvent(m: Machine, accounts: Accounts, txs: seq<Tx>)
    requires Transfers(m, accounts, txs) && AllSolvent(accounts)
    requires forall i | 0 <= i < |txs| && m.verifies(txs[i]) :: CoversGas(txs[i])
    ensures AllSolvent(AfterTxs(m, accounts, txs).accounts)
  {
    hide AfterTx, Transfers, TransferAt, CoversGas, AllSolvent;
    if txs != [] {
      LastTransfer(m, accounts, txs);
      TransfersStaySolvent(m, accounts, txs[..|txs| - 1]);
      TransferStaysSolvent(m, AfterTxs(m, accounts, txs[..|txs| - 1]), txs[|txs| - 1]);
    }
  }

  // ----- consecutive nonces

  function SentBy(txs: seq<Tx>, a: Address): nat {
    if txs == [] then 0 else SentBy(txs[..|txs| - 1], a) + if txs[|txs| - 1].sender == a then 1 else 0
  }

  /** A transfer is included exactly if it verifies, has its sender's next nonce, and its sender can pay
      the whole gas limit and the value; its sender's nonce is then one above its own. */
  lemma TransferIsIncludedExactly(m: Machine, p: Progress, tx: Tx)
    requires TransferAt(m, p.accounts, tx) && tx.recipient.Some?
    ensures var p', sender := AfterTx(m, p, tx), Get(p.accounts, tx.sender);
            && (p'.included == p.included + [tx] <==>
                  m.verifies(tx) && tx.nonce == sender.nonce
                  && sender.balance >= tx.gasLimit * Price(tx) % TWO_TO_64 + tx.value)
            && (p'.included == p.included + [tx] || p'.included == p.included)
            && (p'.included == p.included + [tx] ==> Get(p'.accounts, tx.sender).nonce == tx.nonce + 1)
  {
    assert p.included != p.included + [tx];
  }

  lemma TransferMovesNonce(m: Machine, p: Progress, tx: Tx, a: Address)
    requires TransferAt(m, p.accounts, tx)
    ensures var p' := AfterTx(m, p, tx);
            || (p'.included == p.included && Get(p'.accounts, a).nonce == Get(p.accounts, a).nonce)
            || (p'.included == p.included + [tx] && tx.nonce == Get(p.accounts, tx.sender).nonce
                && Get(p'.accounts, a).nonce == Get(p.accounts, a).nonce + if tx.sender == a then 1 else 0)
  {
    hide GasCost;
  }

  /** Each included transaction has the nonce that its sender had at the start, plus one for each before
      it; and so has the account for the next one. */
  ghost predicate Consecutive(start: Accounts, ledger: seq<Tx>, accounts: Accounts) {
    && (forall i | 0 <= i < |ledger| ::
          ledger[i].nonce == Get(start, ledger[i].sender).nonce + SentBy(ledger[..i], ledger[i].sender))
    && (forall a :: Get(accounts, a).nonce == Get(start, a).nonce + SentBy(ledger, a))
  }

  lemma ConsecutiveGrows(start: Accounts, ledger: seq<Tx>, accounts: Accounts, tx: Tx, after: Accounts)
    requires Consecutive(start, ledger, accounts) && tx.nonce == Get(accounts, tx.sender).nonce
    requires forall a :: Get(after, a).nonce == Get(accounts, a).nonce + if tx.sender == a then 1 else 0
    ensures Consecutive(start, ledger + [tx], after)
  {
    var grown := ledger + [tx];
    assert grown[..|ledger|] == ledger;
    assert forall i | 0 <= i < |ledger| :: grown[..i] == ledger[..i];
  }

  lemma SameNonces(start: Accounts, ledger: seq<Tx>, accounts: Accounts, after: Accounts)
    requires Consecutive(start, ledger, accounts)
    requires forall a :: Get(after, a).nonce == Get(accounts, a).nonce
    ensures Consecutive(start, ledger, after)
  {
  }

  lemma {:induction false} TransfersAreConsecutive(m: Machine, start: Accounts, ledger: seq<Tx>, accounts: Accounts,
                                                   txs: seq<Tx>)
    requires Consecutive(start, ledger, accounts) && Transfers(m, accounts, txs)
    ensures var p := AfterTxs(m, accounts, txs); Consecutive(start, ledger + p.included, p.accounts)
  {
    hide AfterTx, Transfers, TransferAt, Consecutive;
    if txs == [] {
      assert ledger + [] == ledger;
    } else {
      var tx := txs[|txs| - 1];
      var p := AfterTxs(m, accounts, txs[..|txs| - 1]);
      LastTransfer(m, accounts, txs);
      TransfersAreConsecutive(m, start, ledger, accounts, txs[..|txs| - 1]);
      forall a { TransferMovesNonce(m, p, tx, a); }
      TransferMovesNonce(m, p, tx, tx.sender);
      var p' := AfterTx(m, p, tx);
      if p'.included == p.included {
        assert p.included != p.included + [tx];
        SameNonces(start, ledger + p.included, p.accounts, p'.accounts);
      } else {
        assert ledger + p'.included == (ledger + p.included) + [tx];
        ConsecutiveGrows(start, ledger + p.included, p.accounts, tx, p'.accounts);
      }
    }
  }

  /** A block executes plain transfers only, and its settlement leaves the nonces alone. */
  ghost predicate PlainBlock(m: Machine, n: Node) {
    var txs := n.consensus[..Taken(n.consensus)];
    var done := AfterTxs(m, n.accounts, txs).accounts;
    && Transfers(m, n.accounts, txs)
    && forall a :: Get(m.settle(done, n.height + 1), a).nonce == Get(done, a).nonce
  }

  ghost predicate PlainRun(m: Machine, start: Node, actions: seq<Action>) {
    forall k | 0 <= k < |actions| && actions[k].Produce? :: PlainBlock(m, After(m, start, actions[..k]))
  }

  lemma BlockIsConsecutive(m: Machine, start: Accounts, n: Node, proposer: int)
    requires Consecutive(start, Ledger(n.blocks), n.accounts) && PlainBlock(m, n)
    ensures var n' := AfterBlock(m, n, proposer); Consecutive(start, Ledger(n'.blocks), n'.accounts)
  {
    hide AfterTxs, Consecutive, Transfers;
    var n' := AfterBlock(m, n, proposer);
    var txs := n.consensus[..Taken(n.consensus)];
    var done := AfterTxs(m, n.accounts, txs);
    TransfersAreConsecutive(m, start, Ledger(n.blocks), n.accounts, txs);
    assert n'.blocks[..|n'.blocks| - 1] == n.blocks;
    SameNonces(start, Ledger(n.blocks) + done.included, done.accounts, n'.accounts);
  }

  /** Over every run of plain transfers no nonce is skipped: the included ones of each sender count up by
      one from the nonce that it had at the start, and the account's is the next. */
  lemma {:induction false} NoncesAreConsecutive(m: Machine, start: Node, actions: seq<Action>)
    requires start.blocks == [] && PlainRun(m, start, actions)
    ensures var n := After(m, start, actions); Consecutive(start.accounts, Ledger(n.blocks), n.accounts)
  {
    hide AfterBlock, PlainBlock;
    if actions != [] {
      hide Consecutive;
      var front, last := actions[..|actions| - 1], actions[|actions| - 1];
      assert forall k | 0 <= k < |front| :: front[..k] == actions[..k] && front[k] == actions[k];
      NoncesAreConsecutive(m, start, front);
      if last.Produce? {
        assert PlainBlock(m, After(m, start, actions[..|actions| - 1]));
        BlockIsConsecutive(m, start.accounts, After(m, start, front), last.proposer);
      }
    }
  }
}
