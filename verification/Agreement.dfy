/** Safety of the round manager over every multi-node run: what two-thirds counting gives, for
    which validator counts, and what it needs from the votes that are counted. */
module Agreement {
  import opened Prelude
  import opened Consensus

  datatype NetEvent = NetEvent(node: nat, event: Event)

  type Trace = seq<NetEvent>

  /** Node i after the run t; every node sees the same validator set, of totalPower n. */
  function After(n: nat, t: Trace, i: nat): Node {
    if t == [] then Genesis(n) else
      var prev := After(n, t[..|t| - 1], i);
      var last := t[|t| - 1];
      if last.node == i then Step(prev, last.event) else prev
  }

  /** The precommit that e would have a node count, whatever its round. */
  function PrecommitIn(e: Event): Option<Vote> {
    match e
    case LocalPrecommit(h, r, hash, voter) => Some(Vote(h, r, hash, voter, PRECOMMIT))
    case Receive(v, _) => if v.voteType == PRECOMMIT then Some(v) else None
    case _ => None
  }

  /** The precommits added to the power of node i's current round, oldest first. */
  function Counted(n: nat, t: Trace, i: nat): seq<Vote> {
    if t == [] then [] else
      var before := t[..|t| - 1];
      var last := t[|t| - 1];
      var nd := After(n, before, i);
      if last.node != i then Counted(n, before, i)
      else if last.event.Propose? && last.event.block.Some? then []
      else if Counts(nd, last.event) then Counted(n, before, i) + [PrecommitIn(last.event).value]
      else Counted(n, before, i)
  }

  predicate Counts(nd: Node, e: Event) {
    && PrecommitIn(e).Some?
    && nd.round.Some?
    && nd.round.value.height == PrecommitIn(e).value.height
    && (e.LocalPrecommit? ==> nd.round.value.round == e.round)
  }

  // ----- what a run may be assumed to respect

  predicate DistinctVoters(votes: seq<Vote>) {
    forall a, b | 0 <= a < b < |votes| :: votes[a].validator != votes[b].validator
  }

  /** Counted precommits come from distinct active validators and name the round's proposal. */
  ghost predicate VotesAreGenuine(n: nat, active: set<ValidatorID>, t: Trace) {
    forall k, i | 0 <= k <= |t| && After(n, t[..k], i).round.Some? ::
      GenuineVotes(active, After(n, t[..k], i).round.value.proposal, Counted(n, t[..k], i))
  }

  predicate GenuineVotes(active: set<ValidatorID>, proposal: Block, votes: seq<Vote>) {
    && DistinctVoters(votes)
    && forall v | v in votes :: v.validator in active && v.blockHash == BlockHash(proposal)
  }

  ghost predicate Voted(t: Trace, validator: ValidatorID, height: nat, hash: Hash) {
    exists a | 0 <= a < |t| ::
      var p := PrecommitIn(t[a].event);
      p.Some? && p.value.validator == validator && p.value.height == height && p.value.blockHash == hash
  }

  /** No validator outside `faulty` precommits two hashes at one height. */
  ghost predicate OneHashPerHeight(t: Trace, faulty: set<ValidatorID>) {
    forall v, h, x, y | v !in faulty && Voted(t, v, h, x) && Voted(t, v, h, y) :: x == y
  }

  /** A run in which none but the faulty votes twice. */
  ghost predicate Honest(n: nat, active: set<ValidatorID>, faulty: set<ValidatorID>, t: Trace) {
    |active| == n && VotesAreGenuine(n, active, t) && OneHashPerHeight(t, faulty)
  }

  ghost predicate Proposed(t: Trace, height: nat, b: Block) {
    exists a | 0 <= a < |t| ::
      t[a].event.Propose? && t[a].event.height == height && t[a].event.block == Some(b)
  }

  /** Every proposed block has its round's height. Nothing in the source sees to it: the round takes
      the height after the last finalized block, the block that after the last produced one. */
  ghost predicate CarriesHeight(t: Trace) {
    forall h, b | Proposed(t, h, b) :: b.height == h
  }

  /** What the source's loop does see to: a round opens one above a height that its node had finalized
      when the loop looked, and a newly produced block is higher than all that its node has finalized. */
  ghost predicate Driven(n: nat, t: Trace) {
    forall k | 0 <= k < |t| && t[k].event.Propose? && t[k].event.block.Some? ::
      DrivenProposal(After(n, t[..k], t[k].node), t[k].event.height, t[k].event.block.value)
  }

  predicate DrivenProposal(nd: Node, r: nat, b: Block) {
    r > 0 && (r == 1 || r - 1 in nd.blocks) && b.height > nd.currentHeight
  }

  /** Every local check for a commit finds a precommit counted. Only with fewer than two validators,
      and so a threshold of zero, can a round commit without one. */
  ghost predicate ChecksAreEarned(n: nat, t: Trace) {
    forall k | 0 <= k < |t| && t[k].event == Check && After(n, t[..k], t[k].node).round.Some? ::
      After(n, t[..k], t[k].node).round.value.precommitPower > 0
  }

  /** Which of the three a run is assumed to respect besides honest votes. */
  datatype Rules = Rules(carried: bool, driven: bool, earned: bool)

  ghost predicate Disciplined(n: nat, active: set<ValidatorID>, faulty: set<ValidatorID>, t: Trace, rules: Rules) {
    && Honest(n, active, faulty, t)
    && (rules.carried ==> CarriesHeight(t))
    && (rules.driven ==> Driven(n, t))
    && (rules.earned ==> ChecksAreEarned(n, t))
  }

  // ----- counting

  /** PrecommitPower is the number of precommits counted since the round was proposed; each of
      them is an event of the run at the round's height. */
  lemma {:induction false} PowerIsCounted(n: nat, t: Trace, i: nat)
    ensures var nd := After(n, t, i);
            nd.totalPower == n
            && (nd.round.None? ==> Counted(n, t, i) == [])
            && (nd.round.Some? ==>
                  && nd.round.value.precommitPower == |Counted(n, t, i)|
                  && Proposed(t, nd.round.value.height, nd.round.value.proposal)
                  && forall v | v in Counted(n, t, i) :: Voted(t, v.validator, nd.round.value.height, v.blockHash))
  {
    if t != [] {
      var before := t[..|t| - 1];
      var last := t[|t| - 1];
      PowerIsCounted(n, before, i);
      RunExtends(before, last);
      assert t == before + [last];
      assert last.event.Propose? && last.event.block.Some? ==>
          Proposed(t, last.event.height, last.event.block.value) by {
        assert t[|t| - 1] == last;
      }
      var p := PrecommitIn(last.event);
      assert p.Some? ==> Voted(t, p.value.validator, p.value.height, p.value.blockHash) by {
        assert t[|t| - 1] == last;
      }
    }
  }

  /** What happened in a run has happened in every longer one. */
  lemma RunExtends(t: Trace, e: NetEvent)
    ensures forall v, h, x | Voted(t, v, h, x) :: Voted(t + [e], v, h, x)
    ensures forall h, b | Proposed(t, h, b) :: Proposed(t + [e], h, b)
  {
    assert forall a | 0 <= a < |t| :: (t + [e])[a] == t[a];
  }

  function Voters(votes: seq<Vote>): set<ValidatorID> {
    set v | v in votes :: v.validator
  }

  lemma {:induction false} DistinctVotersCount(votes: seq<Vote>)
    requires DistinctVoters(votes)
    ensures |Voters(votes)| == |votes|
  {
    if votes != [] {
      var rest := votes[..|votes| - 1];
      var last := votes[|votes| - 1];
      DistinctVotersCount(rest);
      assert Voters(votes) == Voters(rest) + {last.validator};
      assert last.validator !in Voters(rest);
    }
  }

  /** Two quorums drawn from the same validators share at least twice the threshold less n: about a
      third of the validators. */
  lemma QuorumsIntersect(active: set<ValidatorID>, s: set<ValidatorID>, u: set<ValidatorID>)
    requires s <= active && u <= active
    requires |s| >= Threshold(|active|) && |u| >= Threshold(|active|)
    ensures |s * u| >= 2 * Threshold(|active|) - |active|
    ensures 3 * |s * u| + 4 >= |active|
  {
    SubsetSize(s + u, active);
    assert |s + u| == |s| + |u| - |s * u|;
  }

  lemma {:induction false} SubsetSize<T>(s: set<T>, u: set<T>)
    requires s <= u
    ensures |s| <= |u|
  {
    if x :| x in s {
      SubsetSize(s - {x}, u - {x});
    }
  }

  /** The engine's height is always the largest finalized height, the answer of GetQuorumHeight. */
  lemma {:induction false} HeightIsQuorumHeight(n: nat, t: Trace, i: nat)
    ensures var nd := After(n, t, i);
            && (forall h | h in nd.blocks :: h <= nd.currentHeight && nd.blocks[h].height == h)
            && (nd.currentHeight == 0 || nd.currentHeight in nd.blocks)
  {
    hide Threshold;
    if t != [] {
      HeightIsQuorumHeight(n, t[..|t| - 1], i);
    }
  }

  // ----- finalized blocks carry quorums

  predicate IsQuorum(active: set<ValidatorID>, s: set<ValidatorID>, earned: bool) {
    s <= active && |s| >= Threshold(|active|) && (earned ==> s != {})
  }

  ghost predicate AllVoted(t: Trace, s: set<ValidatorID>, r: nat, hash: Hash) {
    forall v | v in s :: Voted(t, v, r, hash)
  }

  /** A quorum of active validators, not empty if checks are earned, precommitted b, a proposal of a
      round at height r. */
  ghost predicate Certified(active: set<ValidatorID>, t: Trace, r: nat, b: Block, earned: bool) {
    && Proposed(t, r, b)
    && exists s: set<ValidatorID> :: IsQuorum(active, s, earned) && AllVoted(t, s, r, BlockHash(b))
  }

  ghost predicate CertifiedSomewhere(active: set<ValidatorID>, t: Trace, b: Block, earned: bool) {
    exists r :: Certified(active, t, r, b, earned)
  }

  /** A step leaves the finalized blocks alone, or adds the proposal of a round whose power has
      reached the threshold; without a counted precommit only a local check does that. */
  lemma StepFinalizes(nd: Node, e: Event)
    ensures var nd' := Step(nd, e);
            || nd'.blocks == nd.blocks
            || (nd'.round.Some?
                && nd'.round.value.precommitPower >= Threshold(nd'.totalPower)
                && (nd'.round.value.precommitPower == 0 ==>
                      e == Check && nd.round.Some? && nd.round.value.precommitPower == 0)
                && nd'.blocks == nd.blocks[nd'.round.value.proposal.height := nd'.round.value.proposal])
  {
  }

  lemma RoundIsCertified(active: set<ValidatorID>, t: Trace, i: nat, earned: bool)
    requires VotesAreGenuine(|active|, active, t)
    requires After(|active|, t, i).round.Some?
    requires var power := After(|active|, t, i).round.value.precommitPower;
             power >= Threshold(|active|) && (earned ==> power > 0)
    ensures var r := After(|active|, t, i).round.value; Certified(active, t, r.height, r.proposal, earned)
  {
    var r := After(|active|, t, i).round.value;
    var votes := Counted(|active|, t, i);
    PowerIsCounted(|active|, t, i);
    assert t[..|t|] == t;
    assert GenuineVotes(active, r.proposal, votes);
    DistinctVotersCount(votes);
    assert IsQuorum(active, Voters(votes), earned) && AllVoted(t, Voters(votes), r.height, BlockHash(r.proposal));
  }

  lemma PrefixIsDisciplined(n: nat, active: set<ValidatorID>, t: Trace, k: nat, earned: bool)
    requires k <= |t| && VotesAreGenuine(n, active, t) && (earned ==> ChecksAreEarned(n, t))
    ensures VotesAreGenuine(n, active, t[..k]) && (earned ==> ChecksAreEarned(n, t[..k]))
  {
    forall m | 0 <= m <= k ensures t[..k][..m] == t[..m] {}
  }

  /** Every block a node has finalized lies under its own height and is certified at the height of
      some round. */
  lemma {:induction false} FinalizedIsCertified(active: set<ValidatorID>, t: Trace, i: nat, earned: bool)
    requires VotesAreGenuine(|active|, active, t) && (earned ==> ChecksAreEarned(|active|, t))
    ensures forall h | h in After(|active|, t, i).blocks ::
              After(|active|, t, i).blocks[h].height == h
              && CertifiedSomewhere(active, t, After(|active|, t, i).blocks[h], earned)
  {
    hide Step, VotesAreGenuine, AllVoted, IsQuorum;
    if t != [] {
      var n := |active|;
      var before := t[..|t| - 1];
      var last := t[|t| - 1];
      assert t == before + [last];
      PrefixIsDisciplined(n, active, t, |t| - 1, earned);
      FinalizedIsCertified(active, before, i, earned);
      var nd := After(n, before, i);
      var nd' := After(n, t, i);
      StepFinalizes(nd, last.event);
      if nd'.blocks != nd.blocks {
        PowerIsCounted(n, t, i);
        RoundIsCertified(active, t, i, earned);
      }
      forall h | h in nd.blocks ensures CertifiedSomewhere(active, t, nd.blocks[h], earned) {
        assert CertifiedSomewhere(active, before, nd.blocks[h], earned);
        var r :| Certified(active, before, r, nd.blocks[h], earned);
        CertifiedExtends(active, before, last, r, nd.blocks[h], earned);
        assert Certified(active, t, r, nd.blocks[h], earned);
      }
    }
  }

  lemma CertifiedExtends(active: set<ValidatorID>, t: Trace, e: NetEvent, r: nat, b: Block, earned: bool)
    requires Certified(active, t, r, b, earned)
    ensures Certified(active, t + [e], r, b, earned)
  {
    RunExtends(t, e);
    var s: set<ValidatorID> :| IsQuorum(active, s, earned) && AllVoted(t, s, r, BlockHash(b));
    assert AllVoted(t + [e], s, r, BlockHash(b));
  }

  lemma CertifiedLater(active: set<ValidatorID>, t: Trace, k: nat, r: nat, b: Block, earned: bool)
    requires k <= |t| && Certified(active, t[..k], r, b, earned)
    ensures Certified(active, t, r, b, earned)
  {
  }

  /** The fewest precommits that can finalize a block. */
  function LeastQuorum(n: nat, earned: bool): nat {
    if earned && Threshold(n) == 0 then 1 else Threshold(n)
  }

  /** Any two quorums share more than f validators. */
  predicate Overlap(n: nat, f: nat, earned: bool) {
    2 * LeastQuorum(n, earned) > n + f
  }

  /** Two quorums share a validator that is not faulty. */
  lemma QuorumsShare(active: set<ValidatorID>, faulty: set<ValidatorID>, s: set<ValidatorID>, u: set<ValidatorID>,
                     earned: bool) returns (v: ValidatorID)
    requires Overlap(|active|, |faulty|, earned) && IsQuorum(active, s, earned) && IsQuorum(active, u, earned)
    ensures v in s && v in u && v !in faulty
  {
    assert |s| >= LeastQuorum(|active|, earned) && |u| >= LeastQuorum(|active|, earned);
    SubsetSize(s + u, active);
    assert |s + u| == |s| + |u| - |s * u|;
    if s * u <= faulty {
      SubsetSize(s * u, faulty);
      assert false;
    }
    v :| v in s * u && v !in faulty;
  }

  /** Where quorums overlap in more validators than are faulty, a round height has one certified hash. */
  lemma CertifiedAgree(active: set<ValidatorID>, faulty: set<ValidatorID>, t: Trace, r: nat, b: Block, c: Block,
                       earned: bool)
    requires OneHashPerHeight(t, faulty) && Overlap(|active|, |faulty|, earned)
    requires Certified(active, t, r, b, earned) && Certified(active, t, r, c, earned)
    ensures BlockHash(b) == BlockHash(c)
  {
    var s: set<ValidatorID> :| IsQuorum(active, s, earned) && AllVoted(t, s, r, BlockHash(b));
    var u: set<ValidatorID> :| IsQuorum(active, u, earned) && AllVoted(t, u, r, BlockHash(c));
    var v := QuorumsShare(active, faulty, s, u, earned);
    assert Voted(t, v, r, BlockHash(b)) && Voted(t, v, r, BlockHash(c));
  }

  /** A little more than three times as many validators as are faulty. */
  predicate Tolerates(n: nat, f: nat) {
    n > 3 * f + if n % 3 == 0 then 0 else if n % 3 == 1 then 4 else 2
  }

  /** What counting to two thirds gives: any two quorums share more than f validators. */
  lemma ToleratesExactly(n: nat, f: nat)
    ensures 2 * Threshold(n) > n + f <==> Tolerates(n, f)
    ensures Tolerates(n, f) ==> Overlap(n, f, true) && Overlap(n, f, false)
  {
    var k, m := n / 3, n % 3;
    assert n == 3 * k + m && Threshold(n) == 2 * k + if m == 2 then 1 else 0;
  }

  // ----- rounds agree

  /** After k events node i is in a round at height r whose power has reached the threshold. */
  ghost predicate AtThreshold(n: nat, t: Trace, k: nat, i: nat, r: nat) {
    && k <= |t|
    && After(n, t[..k], i).round.Some?
    && After(n, t[..k], i).round.value.height == r
    && After(n, t[..k], i).round.value.precommitPower >= Threshold(n)
  }

  /** Over all runs with n validators of which at most f vote twice, rounds at one height that reach the
      threshold, at whichever nodes and moments, have the same proposal. */
  ghost predicate RoundsAgree(n: nat, f: nat) {
    forall active: set<ValidatorID>, faulty: set<ValidatorID>, t: Trace, i, j, k: nat, l: nat, r |
        |faulty| <= f && Honest(n, active, faulty, t) && AtThreshold(n, t, k, i, r) && AtThreshold(n, t, l, j, r) ::
      BlockHash(After(n, t[..k], i).round.value.proposal) == BlockHash(After(n, t[..l], j).round.value.proposal)
  }

  lemma RoundsShareHash(active: set<ValidatorID>, faulty: set<ValidatorID>, t: Trace, i: nat, j: nat,
                        k: nat, l: nat, r: nat)
    requires Tolerates(|active|, |faulty|) && Honest(|active|, active, faulty, t)
    requires AtThreshold(|active|, t, k, i, r) && AtThreshold(|active|, t, l, j, r)
    ensures BlockHash(After(|active|, t[..k], i).round.value.proposal)
         == BlockHash(After(|active|, t[..l], j).round.value.proposal)
  {
    hide Certified, VotesAreGenuine;
    var n := |active|;
    ToleratesExactly(n, |faulty|);
    PrefixIsDisciplined(n, active, t, k, false);
    PrefixIsDisciplined(n, active, t, l, false);
    RoundIsCertified(active, t[..k], i, false);
    RoundIsCertified(active, t[..l], j, false);
    var b, c := After(n, t[..k], i).round.value.proposal, After(n, t[..l], j).round.value.proposal;
    CertifiedLater(active, t, k, r, b, false);
    CertifiedLater(active, t, l, r, c, false);
    CertifiedAgree(active, faulty, t, r, b, c, false);
  }

  // ----- the loop's rounds form a chain

  /** Of blocks, p is the one before h (0 before the first), and the block at h was certified in a
      round one above p. */
  ghost predicate Link(active: set<ValidatorID>, t: Trace, blocks: map<nat, Block>, p: nat, h: nat, earned: bool) {
    && h in blocks && blocks[h].height == h
    && (p == 0 || p in blocks)
    && p < h && (forall x | x in blocks :: x <= p || h <= x)
    && Certified(active, t, p + 1, blocks[h], earned)
  }

  ghost predicate Linked(active: set<ValidatorID>, t: Trace, blocks: map<nat, Block>, h: nat, earned: bool) {
    exists p :: Link(active, t, blocks, p, h, earned)
  }

  ghost predicate Chained(active: set<ValidatorID>, t: Trace, blocks: map<nat, Block>, earned: bool) {
    forall h {:trigger Linked(active, t, blocks, h, earned)} | h in blocks :: Linked(active, t, blocks, h, earned)
  }

  /** A round stands one above a finalized height, and its proposal is either new or finalized. */
  predicate InOrder(nd: Node) {
    nd.round.Some? ==>
      var r := nd.round.value;
      && r.height > 0 && (r.height == 1 || r.height - 1 in nd.blocks)
      && (r.proposal.height > nd.currentHeight
          || (r.proposal.height in nd.blocks && nd.blocks[r.proposal.height] == r.proposal))
  }

  lemma {:induction false} LeastAbove(blocks: map<nat, Block>, p: nat, g: nat) returns (s: nat)
    requires g in blocks && p < g
    ensures s in blocks && p < s <= g && forall x | x in blocks :: x <= p || s <= x
    decreases g
  {
    if x :| x in blocks && p < x < g {
      s := LeastAbove(blocks, p, x);
    } else {
      s := g;
    }
  }

  lemma PreviousOf(active: set<ValidatorID>, t: Trace, blocks: map<nat, Block>, h: nat, earned: bool) returns (p: nat)
    requires Linked(active, t, blocks, h, earned)
    ensures Link(active, t, blocks, p, h, earned)
  {
    p :| Link(active, t, blocks, p, h, earned);
  }

  lemma ChainLink(active: set<ValidatorID>, t: Trace, blocks: map<nat, Block>, h: nat, earned: bool) returns (p: nat)
    requires Chained(active, t, blocks, earned) && h in blocks
    ensures Link(active, t, blocks, p, h, earned)
  {
    hide Linked, Link;
    p := PreviousOf(active, t, blocks, h, earned);
  }

  /** The block after p in a chain was certified in the round above p. */
  lemma SuccessorIsCertified(active: set<ValidatorID>, t: Trace, blocks: map<nat, Block>, p: nat, s: nat, earned: bool)
    requires Chained(active, t, blocks, earned)
    requires (p == 0 || p in blocks) && s in blocks && p < s && forall x | x in blocks :: x <= p || s <= x
    ensures blocks[s].height == s && Certified(active, t, p + 1, blocks[s], earned)
  {
    hide Chained, Certified;
    var q := ChainLink(active, t, blocks, s, earned);
    assert q == p;
  }

  /** Chains agree as far as both go. */
  lemma {:induction false} ChainsAgree(active: set<ValidatorID>, faulty: set<ValidatorID>, t: Trace,
                                       a: map<nat, Block>, b: map<nat, Block>, h: nat, g: nat, earned: bool)
    requires OneHashPerHeight(t, faulty) && Overlap(|active|, |faulty|, earned)
    requires Chained(active, t, a, earned) && Chained(active, t, b, earned)
    requires h in a && g in b && h <= g
    ensures h in b && BlockHash(a[h]) == BlockHash(b[h])
    decreases h
  {
    hide Chained, Certified, OneHashPerHeight, Overlap;
    var p := ChainLink(active, t, a, h, earned);
    if p != 0 {
      ChainsAgree(active, faulty, t, a, b, p, g, earned);
    }
    var s := LeastAbove(b, p, g);
    SuccessorIsCertified(active, t, b, p, s, earned);
    CertifiedAgree(active, faulty, t, p + 1, a[h], b[s], earned);
  }

  lemma LinkLater(active: set<ValidatorID>, t: Trace, k: nat, blocks: map<nat, Block>, h: nat, earned: bool)
    requires k <= |t| && Linked(active, t[..k], blocks, h, earned)
    ensures Linked(active, t, blocks, h, earned)
  {
    hide Certified;
    var p := PreviousOf(active, t[..k], blocks, h, earned);
    CertifiedLater(active, t, k, p + 1, blocks[h], earned);
    assert Link(active, t, blocks, p, h, earned);
  }

  lemma ChainedLater(active: set<ValidatorID>, t: Trace, k: nat, blocks: map<nat, Block>, earned: bool)
    requires k <= |t| && Chained(active, t[..k], blocks, earned)
    ensures Chained(active, t, blocks, earned)
  {
    hide Linked;
    forall h | h in blocks ensures Linked(active, t, blocks, h, earned) {
      LinkLater(active, t, k, blocks, h, earned);
    }
  }

  lemma LinkStays(active: set<ValidatorID>, t: Trace, blocks: map<nat, Block>, h: nat, b: Block, earned: bool)
    requires Linked(active, t, blocks, h, earned) && forall x | x in blocks :: x < b.height
    ensures Linked(active, t, blocks[b.height := b], h, earned)
  {
    hide Certified;
    var p := PreviousOf(active, t, blocks, h, earned);
    assert Link(active, t, blocks[b.height := b], p, h, earned);
  }

  /** A round below the last finalized height has a certified hash already, that of the block after
      it, so a new block can only be certified on top. */
  lemma NewIsOnTop(active: set<ValidatorID>, faulty: set<ValidatorID>, t: Trace, nd: Node, r: nat, b: Block,
                   earned: bool)
    requires OneHashPerHeight(t, faulty) && Overlap(|active|, |faulty|, earned)
    requires Chained(active, t, nd.blocks, earned)
    requires forall h | h in nd.blocks :: h <= nd.currentHeight
    requires DrivenProposal(nd, r, b) && Certified(active, t, r, b, earned)
    ensures forall x | x in nd.blocks :: x < r
  {
    hide Chained, Certified, OneHashPerHeight, Overlap;
    if x :| x in nd.blocks && x > r - 1 {
      var s := LeastAbove(nd.blocks, r - 1, x);
      SuccessorIsCertified(active, t, nd.blocks, r - 1, s, earned);
      CertifiedAgree(active, faulty, t, r, b, nd.blocks[s], earned);
    }
  }

  lemma ChainGrows(active: set<ValidatorID>, faulty: set<ValidatorID>, t: Trace, nd: Node, r: nat, b: Block,
                   earned: bool)
    requires OneHashPerHeight(t, faulty) && Overlap(|active|, |faulty|, earned)
    requires Chained(active, t, nd.blocks, earned)
    requires forall h | h in nd.blocks :: h <= nd.currentHeight
    requires DrivenProposal(nd, r, b) && r <= b.height && Certified(active, t, r, b, earned)
    ensures Chained(active, t, nd.blocks[b.height := b], earned)
  {
    hide Linked, Certified, OneHashPerHeight, Overlap;
    NewIsOnTop(active, faulty, t, nd, r, b, earned);
    forall h | h in nd.blocks ensures Linked(active, t, nd.blocks[b.height := b], h, earned) {
      LinkStays(active, t, nd.blocks, h, b, earned);
    }
    NewIsLinked(active, t, nd.blocks, r - 1, b, earned);
  }

  lemma NewIsLinked(active: set<ValidatorID>, t: Trace, blocks: map<nat, Block>, p: nat, b: Block, earned: bool)
    requires (p == 0 || p in blocks) && p < b.height && forall x | x in blocks :: x <= p
    requires Certified(active, t, p + 1, b, earned)
    ensures Linked(active, t, blocks[b.height := b], b.height, earned)
  {
    assert Link(active, t, blocks[b.height := b], p, b.height, earned);
  }

  /** A step keeps the round, or opens the proposed one. */
  lemma StepKeepsRound(nd: Node, e: Event)
    ensures var nd' := Step(nd, e);
            if e.Propose? && e.block.Some? then
              nd'.blocks == nd.blocks && nd'.currentHeight == nd.currentHeight
              && nd'.round.Some? && nd'.round.value.height == e.height && nd'.round.value.proposal == e.block.value
            else
              && nd'.round.Some? == nd.round.Some?
              && (nd.round.Some? ==> nd'.round.value.height == nd.round.value.height
                                     && nd'.round.value.proposal == nd.round.value.proposal)
              && ((nd'.blocks == nd.blocks && nd'.currentHeight == nd.currentHeight)
                  || (nd.round.Some? && nd' == Finalize(nd, nd.round.value.proposal).(round := nd'.round)))
  {
  }

  lemma {:induction false} NodeIsChained(active: set<ValidatorID>, faulty: set<ValidatorID>, t: Trace, i: nat,
                                         earned: bool)
    requires Honest(|active|, active, faulty, t) && Driven(|active|, t) && (earned ==> ChecksAreEarned(|active|, t))
    requires Overlap(|active|, |faulty|, earned)
    ensures InOrder(After(|active|, t, i)) && Chained(active, t, After(|active|, t, i).blocks, earned)
  {
    hide Step, VotesAreGenuine, Certified, Chained, Overlap;
    NothingIsChained(active, t, earned);
    if t != [] {
      var n := |active|;
      var before, last := t[..|t| - 1], t[|t| - 1];
      PrefixIsDriven(n, active, faulty, t, |t| - 1, earned);
      NodeIsChained(active, faulty, before, i, earned);
      var nd, nd' := After(n, before, i), After(n, t, i);
      ChainedLater(active, t, |t| - 1, nd.blocks, earned);
      HeightIsQuorumHeight(n, before, i);
      if last.node == i {
        StepFinalizes(nd, last.event);
        StepKeepsRound(nd, last.event);
        if last.event.Propose? && last.event.block.Some? {
          assert DrivenProposal(After(n, t[..|t| - 1], t[|t| - 1].node), last.event.height, last.event.block.value);
        }
        assert InOrder(nd');
        if nd'.blocks != nd.blocks {
          PowerIsCounted(n, t, i);
          RoundIsCertified(active, t, i, earned);
          ChainGrows(active, faulty, t, nd, nd.round.value.height, nd.round.value.proposal, earned);
        }
      }
    }
  }

  lemma NothingIsChained(active: set<ValidatorID>, t: Trace, earned: bool)
    ensures Chained(active, t, map[], earned)
  {
  }

  lemma PrefixIsDriven(n: nat, active: set<ValidatorID>, faulty: set<ValidatorID>, t: Trace, k: nat, earned: bool)
    requires k <= |t| && Honest(n, active, faulty, t) && Driven(n, t) && (earned ==> ChecksAreEarned(n, t))
    ensures Honest(n, active, faulty, t[..k]) && Driven(n, t[..k]) && (earned ==> ChecksAreEarned(n, t[..k]))
  {
    forall m | 0 <= m <= k ensures t[..k][..m] == t[..m] {}
    PrefixIsDisciplined(n, active, t, k, earned);
    assert forall v, h, x | Voted(t[..k], v, h, x) :: Voted(t, v, h, x);
  }

  /** In a run driven by the source's loop, whatever the heights of the proposals: the node that has
      finalized less has finalized a part of what the other has. */
  lemma DrivenNodesAgree(active: set<ValidatorID>, faulty: set<ValidatorID>, t: Trace, earned: bool,
                         i: nat, j: nat, k: nat, l: nat, h: nat, g: nat)
    requires Honest(|active|, active, faulty, t) && Driven(|active|, t) && (earned ==> ChecksAreEarned(|active|, t))
    requires Overlap(|active|, |faulty|, earned)
    requires k <= |t| && l <= |t|
    requires h in After(|active|, t[..k], i).blocks && g in After(|active|, t[..l], j).blocks && h <= g
    ensures h in After(|active|, t[..l], j).blocks
    ensures BlockHash(After(|active|, t[..k], i).blocks[h]) == BlockHash(After(|active|, t[..l], j).blocks[h])
  {
    hide Chained, VotesAreGenuine, Driven, ChecksAreEarned, Overlap;
    var a, b := After(|active|, t[..k], i).blocks, After(|active|, t[..l], j).blocks;
    PrefixIsDriven(|active|, active, faulty, t, k, earned);
    PrefixIsDriven(|active|, active, faulty, t, l, earned);
    NodeIsChained(active, faulty, t[..k], i, earned);
    NodeIsChained(active, faulty, t[..l], j, earned);
    ChainedLater(active, t, k, a, earned);
    ChainedLater(active, t, l, b, earned);
    ChainsAgree(active, faulty, t, a, b, h, g, earned);
  }

  // ----- finalized blocks agree

  /** With n validators of which at most f vote twice, no run under the rules ever makes two nodes finalize
      different hashes at one height. */
  ghost predicate Safe(n: nat, f: nat, rules: Rules) {
    forall active: set<ValidatorID>, faulty: set<ValidatorID>, t: Trace, i, j, h |
        |faulty| <= f && Disciplined(n, active, faulty, t, rules)
        && h in After(n, t, i).blocks && h in After(n, t, j).blocks ::
      BlockHash(After(n, t, i).blocks[h]) == BlockHash(After(n, t, j).blocks[h])
  }

  predicate Enough(n: nat, f: nat, rules: Rules) {
    || (rules.earned && n == 0)
    || ((rules.carried || rules.driven) && (Tolerates(n, f) || (rules.earned && n == 1 && f == 0)))
  }

  lemma PrefixIsCertified(active: set<ValidatorID>, t: Trace, i: nat, k: nat, h: nat, earned: bool) returns (r: nat)
    requires VotesAreGenuine(|active|, active, t) && (earned ==> ChecksAreEarned(|active|, t))
    requires k <= |t| && h in After(|active|, t[..k], i).blocks
    ensures var b := After(|active|, t[..k], i).blocks[h]; b.height == h && Certified(active, t, r, b, earned)
  {
    hide Certified, VotesAreGenuine, ChecksAreEarned;
    PrefixIsDisciplined(|active|, active, t, k, earned);
    FinalizedIsCertified(active, t[..k], i, earned);
    var b := After(|active|, t[..k], i).blocks[h];
    r :| Certified(active, t[..k], r, b, earned);
    CertifiedLater(active, t, k, r, b, earned);
  }

  /** Two nodes, at any two moments of a run under rules that are enough, never hold different hashes
      at one height; so a finalized hash is also never replaced. */
  lemma NodesAgree(active: set<ValidatorID>, faulty: set<ValidatorID>, t: Trace, rules: Rules,
                   i: nat, j: nat, k: nat, l: nat, h: nat)
    requires Enough(|active|, |faulty|, rules) && Disciplined(|active|, active, faulty, t, rules)
    requires k <= |t| && l <= |t|
    requires h in After(|active|, t[..k], i).blocks && h in After(|active|, t[..l], j).blocks
    ensures BlockHash(After(|active|, t[..k], i).blocks[h]) == BlockHash(After(|active|, t[..l], j).blocks[h])
  {
    hide VotesAreGenuine, ChecksAreEarned, OneHashPerHeight, AllVoted, Driven, Chained;
    ToleratesExactly(|active|, |faulty|);
    var b, c := After(|active|, t[..k], i).blocks[h], After(|active|, t[..l], j).blocks[h];
    if |active| == 0 {
      var r := PrefixIsCertified(active, t, i, k, h, rules.earned);
      NobodyCertifies(active, t, r, b);
    } else if rules.carried {
      var r := PrefixIsCertified(active, t, i, k, h, rules.earned);
      var q := PrefixIsCertified(active, t, j, l, h, rules.earned);
      CertifiedAgree(active, faulty, t, h, b, c, rules.earned);
    } else {
      DrivenNodesAgree(active, faulty, t, rules.earned, i, j, k, l, h, h);
    }
  }

  lemma NobodyCertifies(active: set<ValidatorID>, t: Trace, r: nat, b: Block)
    requires |active| == 0
    ensures !Certified(active, t, r, b, true)
  {
  }

  /** No validator outside `faulty` precommits two blocks of one block height, whatever the heights of the
      rounds. */
  ghost predicate OneBlockPerHeight(t: Trace, faulty: set<ValidatorID>) {
    forall v, r, q, x: Hash, y: Hash |
        v !in faulty && Voted(t, v, r, x) && Voted(t, v, q, y) && x.Sha256? && y.Sha256? && x.height == y.height ::
      x == y
  }

  /** Since a hash covers its block's height, this discipline of the voters makes up for proposals
      that do not carry their round's height. */
  lemma BlockDisciplineSuffices(active: set<ValidatorID>, faulty: set<ValidatorID>, t: Trace,
                                i: nat, j: nat, k: nat, l: nat, h: nat)
    requires Tolerates(|active|, |faulty|)
    requires VotesAreGenuine(|active|, active, t) && OneBlockPerHeight(t, faulty)
    requires k <= |t| && l <= |t|
    requires h in After(|active|, t[..k], i).blocks && h in After(|active|, t[..l], j).blocks
    ensures BlockHash(After(|active|, t[..k], i).blocks[h]) == BlockHash(After(|active|, t[..l], j).blocks[h])
  {
    hide VotesAreGenuine, Voted;
    ToleratesExactly(|active|, |faulty|);
    var b, c := After(|active|, t[..k], i).blocks[h], After(|active|, t[..l], j).blocks[h];
    var r := PrefixIsCertified(active, t, i, k, h, false);
    var q := PrefixIsCertified(active, t, j, l, h, false);
    var s: set<ValidatorID> :| IsQuorum(active, s, false) && AllVoted(t, s, r, BlockHash(b));
    var u: set<ValidatorID> :| IsQuorum(active, u, false) && AllVoted(t, u, q, BlockHash(c));
    var v := QuorumsShare(active, faulty, s, u, false);
    assert Voted(t, v, r, BlockHash(b)) && Voted(t, v, q, BlockHash(c));
  }
}
