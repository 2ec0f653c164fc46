/** The round manager and its finality engine: one node's step function, and the classes
    whose methods are proved against it. */
module Consensus {
  import opened Prelude
  import opened Selection
  import V = Validators

  type ValidatorID = V.ValidatorID
  type Transaction = nat

  /** What a 32-byte hash is a digest of, SHA-256 taken to be injective; Bits are those that are no
      block's. */
  datatype Hash =
    | Bits(bits: nat)
    | Sha256(height: nat, proposer: nat, timestamp: int, prevHash: Hash, txCount: nat, stateRoot: nat)

  datatype Block = Block(
    height: nat, proposer: ValidatorID, timestamp: int, prevHash: Hash, transactions: seq<Transaction>, stateRoot: nat)

  /** The hash that a produced block carries: over its header and the number of its transactions,
      with the proposer as it prints. */
  function BlockHash(b: Block): Hash {
    Sha256(b.height, VoterKey(b.proposer), b.timestamp, b.prevHash, |b.transactions|, b.stateRoot)
  }

  const PREVOTE := 1
  const PRECOMMIT := 2

  datatype Vote = Vote(height: nat, round: nat, blockHash: Hash, validator: ValidatorID, voteType: nat)

  datatype Phase = PhasePropose | PhasePrevote | PhasePrecommit | PhaseCommit | PhaseTimeout

  datatype RoundInfo = RoundInfo(
    height: nat, round: nat, phase: Phase, proposer: ValidatorID, proposal: Block,
    prevotes: map<nat, Vote>, precommits: map<nat, Vote>,
    prevotePower: nat, precommitPower: nat)

  /** One node: its engine's finalized blocks and its current round. */
  datatype Node = Node(totalPower: nat, currentHeight: nat, blocks: map<nat, Block>, round: Option<RoundInfo>)

  /** A validator prints as the hex of its last byte only, and that is the key of every vote map. */
  function VoterKey(v: ValidatorID): nat {
    v % 256
  }

  /** Two thirds of the power, rounded down. */
  function Threshold(totalPower: nat): nat {
    2 * totalPower / 3
  }

  /** Every node takes validator 0x01 to be itself. */
  predicate IsLocalValidator(v: ValidatorID) {
    v == 1
  }

  /** One section under the manager's lock, or one call made under it: proposing and precommitting
      take the lock twice, and others may come in between. */
  datatype Event =
    | Propose(height: nat, proposer: ValidatorID, block: Option<Block>)
    | LocalPrevote(height: nat, round: nat, blockHash: Hash, voter: ValidatorID)
    | LocalPrecommit(height: nat, round: nat, blockHash: Hash, voter: ValidatorID)
    | Check
    | Receive(vote: Vote, from: nat)
    | Timeout(height: nat, round: nat)

  function Genesis(totalPower: nat): Node {
    Node(totalPower, 0, map[], None)
  }

  function Finalize(nd: Node, b: Block): Node {
    nd.(blocks := nd.blocks[b.height := b],
        currentHeight := if b.height > nd.currentHeight then b.height else nd.currentHeight)
  }

  function CheckCommit(nd: Node): Node {
    if nd.round.Some? && nd.round.value.precommitPower >= Threshold(nd.totalPower) then
      Finalize(nd.(round := Some(nd.round.value.(phase := PhaseCommit))), nd.round.value.proposal)
    else
      nd
  }

  predicate InRound(nd: Node, height: nat, round: nat) {
    nd.round.Some? && nd.round.value.height == height && nd.round.value.round == round
  }

  function AddPrevote(nd: Node, key: nat, v: Vote): Node
    requires nd.round.Some?
  {
    var r := nd.round.value;
    nd.(round := Some(r.(prevotes := r.prevotes[key := v], prevotePower := r.prevotePower + 1)))
  }

  function AddPrecommit(nd: Node, v: Vote): Node
    requires nd.round.Some?
  {
    var r := nd.round.value;
    nd.(round := Some(r.(precommits := r.precommits[VoterKey(v.validator) := v],
                         precommitPower := r.precommitPower + 1)))
  }

  function StartRound(nd: Node, height: nat, proposer: ValidatorID, b: Block): Node {
    nd.(round := Some(RoundInfo(height, 0, PhasePropose, proposer, b, map[], map[], 0, 0)))
  }

  function PrevoteStep(nd: Node, height: nat, round: nat, blockHash: Hash, voter: ValidatorID): Node {
    if InRound(nd, height, round)
    then AddPrevote(nd, VoterKey(voter), Vote(height, round, blockHash, voter, PREVOTE))
    else nd
  }

  /** What one section does to a node. */
  function Step(nd: Node, e: Event): Node {
    match e
    case Propose(h, p, None) => nd
    case Propose(h, p, Some(b)) => StartRound(nd, h, p, b)
    case LocalPrevote(h, r, hash, voter) => PrevoteStep(nd, h, r, hash, voter)
    case LocalPrecommit(h, r, hash, voter) =>
      if InRound(nd, h, r) then AddPrecommit(nd, Vote(h, r, hash, voter, PRECOMMIT)) else nd
    case Check => CheckCommit(nd)
    case Receive(v, from) =>
      if nd.round.None? || nd.round.value.height != v.height then nd
      else if v.voteType == PREVOTE then AddPrevote(nd, from, v)
      else if v.voteType == PRECOMMIT then CheckCommit(AddPrecommit(nd, v))
      else nd
    case Timeout(h, r) =>
      if nd.round.Some? && nd.round.value.height == h
      then nd.(round := Some(nd.round.value.(phase := PhaseTimeout)))
      else nd
  }

  /** A round that has not committed commits in a step exactly when the step counts a received precommit
      of its height or checks, and its power is then more than two thirds of the total less one. */
  lemma CommitsExactly(nd: Node, e: Event)
    requires nd.round.Some? && nd.round.value.phase != PhaseCommit && !e.Propose?
    ensures var r, nd' := nd.round.value, Step(nd, e);
            var heard := e.Receive? && e.vote.voteType == PRECOMMIT && e.vote.height == r.height;
            && nd'.round.Some?
            && (nd'.round.value.phase == PhaseCommit <==>
                  (e == Check || heard)
                  && 3 * (r.precommitPower + if heard then 1 else 0) > 2 * nd.totalPower - 3)
            && nd'.blocks == if nd'.round.value.phase == PhaseCommit
                             then nd.blocks[r.proposal.height := r.proposal]
                             else nd.blocks
  {
  }

  /** A vote is counted, whoever cast it and for whatever: a local one in its own round, under the voter's
      printed key; a received prevote of the height under the number of its sender, and a received precommit
      under its validator's printed key. A vote of another height or type changes nothing. */
  lemma VotesMove(nd: Node, e: Event)
    requires nd.round.Some? && !e.Propose?
    ensures var r, nd' := nd.round.value, Step(nd, e);
            var r' := nd'.round.value;
            && nd'.round.Some? && nd'.totalPower == nd.totalPower
            && r'.height == r.height && r'.round == r.round && r'.proposer == r.proposer && r'.proposal == r.proposal
            && (match e
                case LocalPrevote(h, n, hash, voter) =>
                  if h != r.height || n != r.round then r' == r
                  else r' == r.(prevotes := r.prevotes[voter % 256 := Vote(h, n, hash, voter, 1)],
                                prevotePower := r.prevotePower + 1)
                case LocalPrecommit(h, n, hash, voter) =>
                  if h != r.height || n != r.round then r' == r
                  else r' == r.(precommits := r.precommits[voter % 256 := Vote(h, n, hash, voter, 2)],
                                precommitPower := r.precommitPower + 1)
                case Receive(v, from) =>
                  if v.height != r.height then r' == r
                  else if v.voteType == 1 then
                    r' == r.(prevotes := r.prevotes[from := v], prevotePower := r.prevotePower + 1)
                  else if v.voteType == 2 then
                    r'.(phase := r.phase) == r.(precommits := r.precommits[v.validator % 256 := v],
                                                precommitPower := r.precommitPower + 1)
                  else r' == r
                case Check => r'.(phase := r.phase) == r
                case Timeout(h, _) => r' == if h == r.height then r.(phase := PhaseTimeout) else r)
  {
  }

  /** A proposal of a block opens a round without votes, whatever the node was doing. */
  lemma ProposalOpensRound(nd: Node, height: nat, proposer: ValidatorID, b: Block)
    ensures Step(nd, Propose(height, proposer, Some(b)))
         == nd.(round := Some(RoundInfo(height, 0, PhasePropose, proposer, b, map[], map[], 0, 0)))
    ensures Step(nd, Propose(height, proposer, None)) == nd
  {
  }

  /** One unit of power under each active validator's printed key. */
  function PowerTable(active: seq<ValidatorID>): map<nat, int> {
    if active == [] then map[] else PowerTable(active[..|active| - 1])[VoterKey(active[|active| - 1]) := 1]
  }

  lemma PowerTableAppend(active: seq<ValidatorID>, v: ValidatorID)
    ensures PowerTable(active + [v]) == PowerTable(active)[VoterKey(v) := 1]
  {
  }

  lemma NobodySelected(stakes: map<ValidatorID, nat>)
    ensures IsTopByStake([], [], stakes) && PowerTable([]) == map[]
  {
  }

  predicate DistinctKeys(active: seq<ValidatorID>) {
    forall i, j | 0 <= i < j < |active| :: VoterKey(active[i]) != VoterKey(active[j])
  }

  lemma {:induction false} PowerTableKeys(active: seq<ValidatorID>)
    ensures forall i | 0 <= i < |active| :: VoterKey(active[i]) in PowerTable(active)
    ensures forall k | k in PowerTable(active) :: exists i :: 0 <= i < |active| && VoterKey(active[i]) == k
    ensures forall k | k in PowerTable(active) :: PowerTable(active)[k] == 1
  {
    if active != [] {
      var rest := active[..|active| - 1];
      PowerTableKeys(rest);
      forall k | k in PowerTable(active) ensures exists i :: 0 <= i < |active| && VoterKey(active[i]) == k {
        if k in PowerTable(rest) {
          var i :| 0 <= i < |rest| && VoterKey(rest[i]) == k;
          assert VoterKey(active[i]) == k;
        } else {
          assert VoterKey(active[|active| - 1]) == k;
        }
      }
      forall i | 0 <= i < |active| ensures VoterKey(active[i]) in PowerTable(active) {
        if i < |rest| {
          assert active[i] == rest[i];
        }
      }
    }
  }

  /** The table holds the total power exactly when no two active ids share their last byte. */
  lemma {:induction false} PowerTableSums(active: seq<ValidatorID>)
    ensures Sum(PowerTable(active)) <= |active|
    ensures Sum(PowerTable(active)) == |active| <==> DistinctKeys(active)
  {
    if active != [] {
      hide DistinctKeys, VoterKey;
      var rest := active[..|active| - 1];
      var last := active[|active| - 1];
      PowerTableSums(rest);
      PowerTableEntry(rest, VoterKey(last));
      SumUpdate(PowerTable(rest), VoterKey(last), 1);
      DistinctKeysStep(rest, last);
      assert active == rest + [last];
    }
  }

  lemma PowerTableEntry(active: seq<ValidatorID>, k: nat)
    ensures At(PowerTable(active), k) == if k in PowerTable(active) then 1 else 0
  {
    PowerTableKeys(active);
  }

  lemma DistinctKeysStep(rest: seq<ValidatorID>, last: ValidatorID)
    ensures DistinctKeys(rest + [last]) <==> DistinctKeys(rest) && VoterKey(last) !in PowerTable(rest)
  {
    PowerTableKeys(rest);
    var active := rest + [last];
    assert forall i | 0 <= i < |rest| :: active[i] == rest[i];
    if VoterKey(last) in PowerTable(rest) {
      var i :| 0 <= i < |rest| && VoterKey(rest[i]) == VoterKey(last);
      assert VoterKey(active[i]) == VoterKey(active[|rest|]);
    }
    if DistinctKeys(active) {
      forall i, j | 0 <= i < j < |rest| ensures VoterKey(rest[i]) != VoterKey(rest[j]) {
        assert VoterKey(active[i]) != VoterKey(active[j]);
      }
    }
  }

  class ConsensusEngine {
    const Validators: V.ValidatorSet
    var CurrentHeight: nat
    var ActiveSet: seq<ValidatorID>
    var VotingPower: map<nat, int>
    var TotalPower: nat
    var Blocks: map<nat, Block>

    constructor (validators: V.ValidatorSet)
      ensures Validators == validators && CurrentHeight == 0 && Blocks == map[]
      ensures IsTopByStake(ActiveSet, validators.IDs, validators.Stakes)
      ensures TotalPower == |ActiveSet| && VotingPower == PowerTable(ActiveSet)
    {
      Validators := validators;
      CurrentHeight, ActiveSet, VotingPower, TotalPower, Blocks := 0, [], map[], 0, map[];
      new;
      SelectNewEpoch();
    }

    /** Weighs every registered stake, sorts and keeps the heaviest, one unit of power each. An
        empty registry empties the active set and leaves VotingPower as it was. */
    method SelectNewEpoch()
      modifies this
      ensures CurrentHeight == old(CurrentHeight) && Blocks == old(Blocks)
      ensures IsTopByStake(ActiveSet, Validators.IDs, Validators.Stakes)
      ensures TotalPower == |ActiveSet|
      ensures VotingPower == if Validators.IDs == [] then old(VotingPower) else PowerTable(ActiveSet)
    {
      hide IsTopByStake, ByStake, PowerTable;
      NobodySelected(Validators.Stakes);
      var registered := Validators.IDs;
      if registered == [] {
        ActiveSet, TotalPower := [], 0;
        return;
      }
      var ranked := Rank(registered, Validators.Stakes);
      var n := V.MAX_VALIDATORS;
      if |ranked| < n {
        n := |ranked|;
      }
      PrefixIsTop(Validators.Stakes, registered, ranked);
      ActiveSet, VotingPower, TotalPower := [], map[], 0;
      for k := 0 to n
        invariant ActiveSet == ranked[..k] && TotalPower == k
        invariant VotingPower == PowerTable(ActiveSet)
        invariant CurrentHeight == old(CurrentHeight) && Blocks == old(Blocks)
      {
        PowerTableAppend(ActiveSet, ranked[k]);
        ActiveSet := ActiveSet + [ranked[k]];
        VotingPower := VotingPower[VoterKey(ranked[k]) := 1];
        TotalPower := TotalPower + 1;
      }
    }

    method FinalizeBlock(b: Block)
      modifies this
      ensures TotalPower == old(TotalPower) && ActiveSet == old(ActiveSet) && VotingPower == old(VotingPower)
      ensures Blocks == old(Blocks)[b.height := b]
      ensures CurrentHeight == if b.height > old(CurrentHeight) then b.height else old(CurrentHeight)
    {
      Blocks := Blocks[b.height := b];
      if b.height > CurrentHeight {
        CurrentHeight := b.height;
      }
    }

    /** Scans the finalized heights for the largest. */
    method GetQuorumHeight() returns (max: nat)
      ensures max == 0 || max in Blocks
      ensures forall h | h in Blocks :: h <= max
    {
      max := 0;
      var rest := Blocks.Keys;
      while rest != {}
        invariant rest <= Blocks.Keys
        invariant max == 0 || max in Blocks
        invariant forall h | h in Blocks && h !in rest :: h <= max
        decreases rest
      {
        var h :| h in rest;
        if h > max {
          max := h;
        }
        rest := rest - {h};
      }
    }
  }

  class RoundState {
    var Height: nat
    var Round: nat
    var Phase: Phase
    var Proposer: ValidatorID
    var Proposal: Block
    var Prevotes: map<nat, Vote>
    var Precommits: map<nat, Vote>
    var PrevotePower: nat
    var PrecommitPower: nat

    ghost function Model(): RoundInfo
      reads this
    {
      RoundInfo(Height, Round, Phase, Proposer, Proposal, Prevotes, Precommits, PrevotePower, PrecommitPower)
    }

    constructor (height: nat, proposer: ValidatorID, proposal: Block)
      ensures Model() == RoundInfo(height, 0, PhasePropose, proposer, proposal, map[], map[], 0, 0)
    {
      Height, Round, Phase, Proposer, Proposal := height, 0, PhasePropose, proposer, proposal;
      Prevotes, Precommits, PrevotePower, PrecommitPower := map[], map[], 0, 0;
    }
  }

  class ConsensusManager {
    const Engine: ConsensusEngine
    var CurrentRound: RoundState?

    ghost function Model(): Node
      reads this, Engine, CurrentRound
    {
      Node(Engine.TotalPower, Engine.CurrentHeight, Engine.Blocks,
           if CurrentRound == null then None else Some(CurrentRound.Model()))
    }

    constructor (engine: ConsensusEngine)
      ensures Engine == engine && CurrentRound == null
    {
      Engine, CurrentRound := engine, null;
    }

    method ProposeBlock(height: nat, proposer: ValidatorID, block: Option<Block>)
      modifies this, Engine, CurrentRound
      ensures var proposed := Step(old(Model()), Propose(height, proposer, block));
              Model() == if block.Some? && proposer == 1
                         then Step(proposed, LocalPrevote(height, 0, BlockHash(block.value), proposer))
                         else proposed
      ensures CurrentRound == old(CurrentRound) || fresh(CurrentRound)
    {
      if block.None? {
        return;
      }
      CurrentRound := new RoundState(height, proposer, block.value);
      if IsLocalValidator(proposer) {
        Prevote(height, 0, BlockHash(block.value), proposer);
      }
    }

    method Prevote(height: nat, round: nat, blockHash: Hash, voter: ValidatorID)
      modifies CurrentRound
      ensures Model() == Step(old(Model()), LocalPrevote(height, round, blockHash, voter))
    {
      var vote := Vote(height, round, blockHash, voter, PREVOTE);
      if CurrentRound != null && CurrentRound.Height == height && CurrentRound.Round == round {
        CurrentRound.Prevotes := CurrentRound.Prevotes[VoterKey(voter) := vote];
        CurrentRound.PrevotePower := CurrentRound.PrevotePower + 1;
      }
    }

    method Precommit(height: nat, round: nat, blockHash: Hash, voter: ValidatorID)
      modifies Engine, CurrentRound
      ensures Model() == Step(Step(old(Model()), LocalPrecommit(height, round, blockHash, voter)), Check)
    {
      var vote := Vote(height, round, blockHash, voter, PRECOMMIT);
      if CurrentRound != null && CurrentRound.Height == height && CurrentRound.Round == round {
        CurrentRound.Precommits := CurrentRound.Precommits[VoterKey(vote.validator) := vote];
        CurrentRound.PrecommitPower := CurrentRound.PrecommitPower + 1;
      }
      CheckCommitLocked();
    }

    method HandleVote(v: Vote, from: nat)
      modifies Engine, CurrentRound
      ensures Model() == Step(old(Model()), Receive(v, from))
    {
      if CurrentRound == null || CurrentRound.Height != v.height {
        return;
      }
      if v.voteType == PREVOTE {
        CurrentRound.Prevotes := CurrentRound.Prevotes[from := v];
        CurrentRound.PrevotePower := CurrentRound.PrevotePower + 1;
      } else if v.voteType == PRECOMMIT {
        CurrentRound.Precommits := CurrentRound.Precommits[VoterKey(v.validator) := v];
        CurrentRound.PrecommitPower := CurrentRound.PrecommitPower + 1;
        CheckCommitLocked();
      }
    }

    method CheckCommitLocked()
      modifies Engine, CurrentRound
      ensures Model() == Step(old(Model()), Check)
    {
      if CurrentRound == null {
        return;
      }
      if CurrentRound.PrecommitPower >= Threshold(Engine.TotalPower) {
        CurrentRound.Phase := PhaseCommit;
        Engine.FinalizeBlock(CurrentRound.Proposal);
      }
    }

    method HandleTimeout(height: nat, round: nat)
      modifies CurrentRound
      ensures Model() == Step(old(Model()), Timeout(height, round))
    {
      if CurrentRound == null || CurrentRound.Height != height {
        return;
      }
      CurrentRound.Phase := PhaseTimeout;
    }
  }
}
