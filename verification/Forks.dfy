/** Runs in which honest votes are not enough, and with them exactly where agreement holds. */
module Forks {
  import opened Prelude
  import opened Consensus
  import opened Agreement

  lemma Grow(n: nat, active: set<ValidatorID>, t: Trace, e: NetEvent)
    requires VotesAreGenuine(n, active, t)
    requires var nd := After(n, t + [e], e.node);
             nd.round.Some? ==> GenuineVotes(active, nd.round.value.proposal, Counted(n, t + [e], e.node))
    ensures VotesAreGenuine(n, active, t + [e])
  {
    var u := t + [e];
    forall k, i | 0 <= k <= |u| && After(n, u[..k], i).round.Some?
      ensures GenuineVotes(active, After(n, u[..k], i).round.value.proposal, Counted(n, u[..k], i))
    {
      if k <= |t| {
        assert u[..k] == t[..k];
      } else {
        assert u[..k] == u && u[..|u| - 1] == t && t[..|t|] == t;
      }
    }
  }

  lemma DrivenGrows(n: nat, t: Trace, e: NetEvent)
    requires Driven(n, t)
    requires e.event.Propose? && e.event.block.Some? ==>
               DrivenProposal(After(n, t, e.node), e.event.height, e.event.block.value)
    ensures Driven(n, t + [e])
  {
    var u := t + [e];
    forall k | 0 <= k < |u| && u[k].event.Propose? && u[k].event.block.Some?
      ensures DrivenProposal(After(n, u[..k], u[k].node), u[k].event.height, u[k].event.block.value)
    {
      assert u[..k] == t[..k];
      assert t[..|t|] == t;
    }
  }

  lemma AfterOne(n: nat, t: Trace, e: NetEvent, i: nat)
    ensures After(n, t + [e], i) == if e.node == i then Step(After(n, t, i), e.event) else After(n, t, i)
    ensures e.node != i ==> Counted(n, t + [e], i) == Counted(n, t, i)
    ensures e.node == i && e.event.Propose? && e.event.block.Some? ==> Counted(n, t + [e], i) == []
    ensures e.node == i && Counts(After(n, t, i), e.event) ==>
              Counted(n, t + [e], i) == Counted(n, t, i) + [PrecommitIn(e.event).value]
    ensures e.node == i && !e.event.Propose? && !Counts(After(n, t, i), e.event) ==>
              Counted(n, t + [e], i) == Counted(n, t, i)
  {
  }

  /** Blocks of one height that differ in their time. */
  function Rival(height: nat, i: nat): Block {
    Block(height, 0, i, Bits(0), [], 0)
  }

  type Script = (nat, ValidatorID) -> Hash

  /** How a run is staged: what each validator precommits at each height, who need not keep to it, and the
      rules. */
  datatype Play = Play(script: Script, faulty: set<ValidatorID>, rules: Rules) {
    predicate Allows(v: ValidatorID, height: nat, hash: Hash) {
      v in faulty || hash == script(height, v)
    }
  }

  function Ballot(i: nat, r: nat, b: Block, voter: ValidatorID): NetEvent {
    NetEvent(i, Receive(Vote(r, 0, BlockHash(b), voter, PRECOMMIT), 0))
  }

  /** Every precommit of the run is one that the play allows, and the proposals and checks respect the
      rules. */
  ghost predicate Scripted(t: Trace, play: Play) {
    && (forall a | 0 <= a < |t| && PrecommitIn(t[a].event).Some? ::
          var p := PrecommitIn(t[a].event).value; play.Allows(p.validator, p.height, p.blockHash))
    && (play.rules.carried ==> forall a | 0 <= a < |t| && t[a].event.Propose? && t[a].event.block.Some? ::
          t[a].event.block.value.height == t[a].event.height)
    && (play.rules.earned ==> forall a | 0 <= a < |t| :: t[a].event != Check)
  }

  /** A scripted run of genuine votes, driven if the rules say so. */
  ghost predicate Staged(active: set<ValidatorID>, t: Trace, play: Play) {
    Scripted(t, play) && VotesAreGenuine(|active|, active, t) && (play.rules.driven ==> Driven(|active|, t))
  }

  lemma NothingStaged(active: set<ValidatorID>, play: Play)
    ensures Staged(active, [], play)
  {
  }

  /** What the play asks of a node's next step. */
  ghost predicate MayFollow(nd: Node, e: Event, play: Play) {
    && (PrecommitIn(e).Some? ==> var p := PrecommitIn(e).value; play.Allows(p.validator, p.height, p.blockHash))
    && (e.Propose? && e.block.Some? ==>
          && (play.rules.carried ==> e.block.value.height == e.height)
          && (play.rules.driven ==> DrivenProposal(nd, e.height, e.block.value)))
    && (play.rules.earned ==> e != Check)
  }

  lemma ScriptGrows(t: Trace, e: NetEvent, nd: Node, play: Play)
    requires Scripted(t, play) && MayFollow(nd, e.event, play)
    ensures Scripted(t + [e], play)
  {
    hide DrivenProposal, Play.Allows;
  }

  lemma StageOne(active: set<ValidatorID>, t: Trace, e: NetEvent, play: Play)
    requires Staged(active, t, play) && MayFollow(After(|active|, t, e.node), e.event, play)
    requires var nd := After(|active|, t + [e], e.node);
             nd.round.Some? ==> GenuineVotes(active, nd.round.value.proposal, Counted(|active|, t + [e], e.node))
    ensures Staged(active, t + [e], play)
    ensures forall j | j != e.node :: After(|active|, t + [e], j) == After(|active|, t, j)
  {
    hide Step, GenuineVotes, VotesAreGenuine, Driven, DrivenProposal, Scripted, After, Counted;
    ScriptGrows(t, e, After(|active|, t, e.node), play);
    Grow(|active|, active, t, e);
    if play.rules.driven {
      DrivenGrows(|active|, t, e);
    }
    forall j | j != e.node ensures After(|active|, t + [e], j) == After(|active|, t, j) {
      AfterOne(|active|, t, e, j);
    }
  }

  lemma StagedIsDisciplined(active: set<ValidatorID>, t: Trace, play: Play)
    requires Staged(active, t, play)
    ensures Disciplined(|active|, active, play.faulty, t, play.rules)
  {
  }

  /** Where a rally leaves its node, which was at `before`. */
  ghost predicate Rallied(n: nat, before: Node, t: Trace, i: nat, r: nat, b: Block, first: nat, count: nat) {
    && InRally(n, After(n, t, i), r, b, count)
    && After(n, t, i).blocks == (if count > 0 && count >= Threshold(n)
                                 then before.blocks[b.height := b]
                                 else before.blocks)
    && Heard(Counted(n, t, i), r, b, first, count)
  }

  predicate InRally(n: nat, nd: Node, r: nat, b: Block, count: nat) {
    && nd.totalPower == n
    && nd.round.Some? && nd.round.value.height == r && nd.round.value.proposal == b
    && nd.round.value.precommitPower == count
  }

  predicate Heard(votes: seq<Vote>, r: nat, b: Block, first: nat, count: nat) {
    && |votes| == count
    && forall k | 0 <= k < count :: votes[k] == Vote(r, 0, BlockHash(b), first + k, PRECOMMIT)
  }

  lemma HearOne(n: nat, before: Node, t: Trace, i: nat, r: nat, b: Block, first: nat, count: nat)
    requires Rallied(n, before, t, i, r, b, first, count)
    ensures Rallied(n, before, t + [Ballot(i, r, b, first + count)], i, r, b, first, count + 1)
  {
  }

  /** Node i proposes b in a round at height r and hears count validators from first on. */
  lemma {:induction false} Rally(active: set<ValidatorID>, t: Trace, i: nat, r: nat, b: Block, first: nat, count: nat,
                                 play: Play)
    returns (u: Trace)
    requires Staged(active, t, play)
    requires play.rules.carried ==> b.height == r
    requires play.rules.driven ==> DrivenProposal(After(|active|, t, i), r, b)
    requires forall v | first <= v < first + count :: v in active && play.Allows(v, r, BlockHash(b))
    ensures Staged(active, u, play)
    ensures forall j | j != i :: After(|active|, u, j) == After(|active|, t, j)
    ensures Rallied(|active|, After(|active|, t, i), u, i, r, b, first, count)
  {
    hide Step, GenuineVotes, Staged, Rallied, DrivenProposal, After;
    var n := |active|;
    var e, w := NetEvent(i, Propose(r, 0, Some(b))), t;
    if count == 0 {
      RallyStarts(n, t, i, r, b, first);
    } else {
      w := Rally(active, t, i, r, b, first, count - 1, play);
      e := Ballot(i, r, b, first + count - 1);
      HearOne(n, After(n, t, i), w, i, r, b, first, count - 1);
    }
    u := w + [e];
    RallyIsGenuine(active, After(n, t, i), u, i, r, b, first, count);
    StageOne(active, w, e, play);
  }

  lemma RallyStarts(n: nat, t: Trace, i: nat, r: nat, b: Block, first: nat)
    ensures Rallied(n, After(n, t, i), t + [NetEvent(i, Propose(r, 0, Some(b)))], i, r, b, first, 0)
  {
    PowerIsCounted(n, t, i);
    AfterOne(n, t, NetEvent(i, Propose(r, 0, Some(b))), i);
  }

  lemma RallyIsGenuine(active: set<ValidatorID>, before: Node, t: Trace, i: nat, r: nat, b: Block,
                       first: nat, count: nat)
    requires Rallied(|active|, before, t, i, r, b, first, count)
    requires forall v | first <= v < first + count :: v in active
    ensures var nd := After(|active|, t, i);
            nd.round.Some? && GenuineVotes(active, nd.round.value.proposal, Counted(|active|, t, i))
  {
  }

  const ELSEWHERE := 9

  /** With a threshold of zero, a local precommit for another height is not counted, but its check
      commits the round at hand. */
  lemma Finish(active: set<ValidatorID>, t: Trace, i: nat, b: Block, play: Play) returns (u: Trace)
    requires !play.rules.earned && Threshold(|active|) == 0 && play.script(ELSEWHERE, 0) == Bits(0)
    requires Staged(active, t, play)
    requires InRally(|active|, After(|active|, t, i), 1, b, 0)
    ensures Staged(active, u, play)
    ensures forall j | j != i :: After(|active|, u, j) == After(|active|, t, j)
    ensures After(|active|, u, i).blocks == After(|active|, t, i).blocks[b.height := b]
  {
    hide Staged;
    var n := |active|;
    var e, c := NetEvent(i, LocalPrecommit(ELSEWHERE, 0, Bits(0), 0)), NetEvent(i, Check);
    PowerIsCounted(n, t, i);
    AfterOne(n, t, e, i);
    StageOne(active, t, e, play);
    AfterOne(n, t + [e], c, i);
    StageOne(active, t + [e], c, play);
    u := t + [e] + [c];
  }

  ghost function Interval(lo: nat, hi: nat): (s: set<ValidatorID>)
    ensures |s| == if lo < hi then hi - lo else 0
    ensures forall v: ValidatorID :: v in s <==> lo <= v < hi
  {
    if lo < hi then Interval(lo, hi - 1) + {hi - 1} else {}
  }

  /** The first q validators vote for one block and the last q for another; those who are among both
      are faulty. */
  ghost function SplitPlay(n: nat, q: nat, rules: Rules): Play
    requires q <= n
  {
    Play((r, v) => if r != 1 then Bits(0) else if v < q then BlockHash(Rival(1, 0)) else BlockHash(Rival(1, 1)),
         Interval(n - q, q), rules)
  }

  /** In a round at height 1 the node has heard q precommits for b, and finalized it if that is enough. */
  predicate HasHeard(n: nat, nd: Node, b: Block, q: nat) {
    InRally(n, nd, 1, b, q) && (q > 0 && q >= Threshold(n) ==> nd.blocks == map[1 := b])
  }

  lemma RallyIsHeard(n: nat, t: Trace, i: nat, b: Block, first: nat, q: nat)
    requires Rallied(n, Genesis(n), t, i, 1, b, first, q) && b.height == 1
    ensures HasHeard(n, After(n, t, i), b, q)
  {
  }

  /** Nodes 0 and 1 each propose a block in round 1 and hear q validators, from 0 and from `first` on. */
  lemma TwoRallies(n: nat, b: Block, c: Block, first: nat, q: nat, play: Play)
    returns (active: set<ValidatorID>, t: Trace)
    requires b.height == c.height == 1 && first + q <= n
    requires forall v: ValidatorID | v < q :: play.Allows(v, 1, BlockHash(b))
    requires forall v: ValidatorID | first <= v < first + q :: play.Allows(v, 1, BlockHash(c))
    ensures |active| == n && Staged(active, t, play)
    ensures HasHeard(n, After(n, t, 0), b, q) && HasHeard(n, After(n, t, 1), c, q)
  {
    active := Interval(0, n);
    NothingStaged(active, play);
    hide Staged, Step, Play.Allows, Rallied, HasHeard;
    var u := Rally(active, [], 0, 1, b, 0, q, play);
    RallyIsHeard(n, u, 0, b, 0, q);
    t := Rally(active, u, 1, 1, c, first, q, play);
    RallyIsHeard(n, t, 1, c, first, q);
  }

  /** So nodes 0 and 1 finalize different blocks at height 1 whenever two quorums can share no more
      than f validators; with fewer than two validators and none faulty, this takes a check that no
      precommit has earned. */
  lemma Fork(n: nat, f: nat, rules: Rules)
    requires !Overlap(n, f, rules.earned) && LeastQuorum(n, rules.earned) <= n
    ensures !Safe(n, f, rules)
  {
    hide Staged, Disciplined;
    var q := LeastQuorum(n, rules.earned);
    var play := SplitPlay(n, q, rules);
    var active, t := TwoRallies(n, Rival(1, 0), Rival(1, 1), n - q, q, play);
    if q == 0 {
      t := Finish(active, t, 0, Rival(1, 0), play);
      t := Finish(active, t, 1, Rival(1, 1), play);
    }
    StagedIsDisciplined(active, t, play);
    assert After(n, t, 0).blocks[1] == Rival(1, 0) && After(n, t, 1).blocks[1] == Rival(1, 1);
    assert BlockHash(Rival(1, 0)) != BlockHash(Rival(1, 1));
  }

  function DriftPlay(rules: Rules): Play {
    Play((r, v) => if r == 1 then BlockHash(Rival(2, 0)) else BlockHash(Rival(2, 1)), {}, rules)
  }

  /** If a proposal need not carry its round's height, then for any number of validators, voting once
      in each round, nodes 0 and 1 can finalize different blocks of height 2: one in a round at height
      1, the other in a round at height 2. */
  lemma DriftForks(n: nat, rules: Rules)
    requires n > 0 && !rules.carried && !rules.driven
    ensures !Safe(n, 0, rules)
  {
    var active := Interval(0, n);
    var count := if Threshold(n) == 0 then 1 else Threshold(n);
    var play := DriftPlay(rules);
    NothingStaged(active, play);
    hide Staged, Step;
    var t := Rally(active, [], 0, 1, Rival(2, 0), 0, count, play);
    t := Rally(active, t, 1, 2, Rival(2, 1), 0, count, play);
    StagedIsDisciplined(active, t, play);
    assert After(n, t, 0).blocks[2] == Rival(2, 0) && After(n, t, 1).blocks[2] == Rival(2, 1);
    assert BlockHash(Rival(2, 0)) != BlockHash(Rival(2, 1));
  }

  /** What the source's loop proposes, tick by tick, while nothing is finalized: the round's height is
      one more than the finalized height, the block's one more than the produced blocks. */
  function Ticks(n: nat, k: nat): Trace {
    if k == 0 then [] else
      var t := Ticks(n, k - 1);
      t + [NetEvent(0, Propose(After(n, t, 0).currentHeight + 1, 1, Some(Rival(k, 0))))]
  }

  function Tick(k: nat): NetEvent {
    NetEvent(0, Propose(1, 1, Some(Rival(k, 0))))
  }

  /** The loop's own runs are driven. */
  lemma {:induction false} TicksAreDriven(n: nat, k: nat)
    ensures After(n, Ticks(n, k), 0).currentHeight == 0 && Driven(n, Ticks(n, k))
    ensures k > 0 ==> Ticks(n, k) == Ticks(n, k - 1) + [Tick(k)]
  {
    hide Step, Driven, Ticks, After;
    if k == 0 {
      NoTicks(n);
    } else {
      var t := Ticks(n, k - 1);
      TicksAreDriven(n, k - 1);
      TickNext(n, k);
      AfterOne(n, t, Tick(k), 0);
      StepKeepsRound(After(n, t, 0), Tick(k).event);
      DrivenGrows(n, t, Tick(k));
    }
  }

  lemma NoTicks(n: nat)
    ensures Driven(n, Ticks(n, 0)) && After(n, Ticks(n, 0), 0).currentHeight == 0
  {
  }

  lemma TickNext(n: nat, k: nat)
    requires k > 0 && After(n, Ticks(n, k - 1), 0).currentHeight == 0
    ensures Ticks(n, k) == Ticks(n, k - 1) + [Tick(k)]
  {
  }

  /** But without a commit the k-th proposal carries its round's height exactly when it is the first. */
  lemma {:induction false} TicksDrift(n: nat, k: nat)
    ensures CarriesHeight(Ticks(n, k)) <==> k <= 1
  {
    hide After, Driven;
    if k > 0 {
      var t := Ticks(n, k - 1);
      TicksAreDriven(n, k);
      assert Ticks(n, k)[|t|] == Tick(k);
      assert Proposed(Ticks(n, k), 1, Rival(k, 0));
      if k == 1 {
        assert Ticks(n, k) == [Tick(k)];
      }
    }
  }

  // ----- agreement is on hashes

  function Twin(tx: Transaction): Block {
    Block(1, 0, 0, Bits(0), [tx], 0)
  }

  /** A block's hash fixes its transactions only where there are none: it covers their number. */
  lemma HashFixesTransactions(b: Block)
    ensures (forall c | BlockHash(c) == BlockHash(b) :: c.transactions == b.transactions) <==> b.transactions == []
  {
    if b.transactions != [] {
      var c := b.(transactions := b.transactions[0 := b.transactions[0] + 1]);
      assert BlockHash(c) == BlockHash(b);
      assert c.transactions[0] != b.transactions[0];
    }
  }

  /** Even under all the rules, two nodes can hold different blocks of one hash; without a validator this
      takes a check that no precommit has earned. */
  lemma TransactionsMayDiffer(n: nat, rules: Rules) returns (active: set<ValidatorID>, t: Trace)
    requires n > 0 || !rules.earned
    ensures Disciplined(n, active, {}, t, rules)
    ensures 1 in After(n, t, 0).blocks && After(n, t, 0).blocks[1] == Twin(0)
    ensures 1 in After(n, t, 1).blocks && After(n, t, 1).blocks[1] == Twin(1)
  {
    hide Step, Disciplined, Staged, After;
    var count := if n == 0 then 0 else if Threshold(n) == 0 then 1 else Threshold(n);
    var play := Play((r, v) => if r == ELSEWHERE then Bits(0) else BlockHash(Twin(0)), {}, rules);
    assert BlockHash(Twin(0)) == BlockHash(Twin(1));
    assert forall v: ValidatorID :: play.Allows(v, 1, BlockHash(Twin(0)));
    active, t := TwoRallies(n, Twin(0), Twin(1), 0, count, play);
    if n == 0 {
      t := Finish(active, t, 0, Twin(0), play);
      t := Finish(active, t, 1, Twin(1), play);
    }
    StagedIsDisciplined(active, t, play);
  }

  // ----- exactly where agreement holds

  /** What two thirds buys: rounds agree in spite of f validators that vote twice exactly if 3f lies far
      enough below n, whatever the proposed blocks. */
  lemma RoundsAgreeExactly(n: nat, f: nat)
    ensures RoundsAgree(n, f) <==> Tolerates(n, f)
  {
    ToleratesExactly(n, f);
    if Tolerates(n, f) {
      forall active: set<ValidatorID>, faulty: set<ValidatorID>, t: Trace, i, j, k: nat, l: nat, r |
          |faulty| <= f && Honest(n, active, faulty, t) && AtThreshold(n, t, k, i, r) && AtThreshold(n, t, l, j, r)
        ensures BlockHash(After(n, t[..k], i).round.value.proposal)
             == BlockHash(After(n, t[..l], j).round.value.proposal)
      {
        FewerFaults(n, |faulty|, f);
        RoundsShareHash(active, faulty, t, i, j, k, l, r);
      }
    } else {
      var rules := Rules(true, true, false);
      var q := Threshold(n);
      var play := SplitPlay(n, q, rules);
      var active, t := TwoRallies(n, Rival(1, 0), Rival(1, 1), n - q, q, play);
      StagedIsDisciplined(active, t, play);
      assert t[..|t|] == t;
      assert AtThreshold(n, t, |t|, 0, 1) && AtThreshold(n, t, |t|, 1, 1);
      assert BlockHash(Rival(1, 0)) != BlockHash(Rival(1, 1));
    }
  }

  lemma FewerFaults(n: nat, g: nat, f: nat)
    requires g <= f
    ensures Tolerates(n, f) ==> Tolerates(n, g)
  {
  }

  lemma EnoughForFewer(n: nat, g: nat, f: nat, rules: Rules)
    requires g <= f && Enough(n, f, rules)
    ensures Enough(n, g, rules)
  {
    FewerFaults(n, g, f);
  }

  /** Agreement on finalized hashes holds exactly where proposals carry their round's height, or come
      from the source's loop, and the validators tolerate f that vote twice; or where nothing commits
      without a precommit and there is at most one validator: none at all, or one that votes once, under
      either of those rules. */
  lemma SafeExactly(n: nat, f: nat, rules: Rules)
    ensures Safe(n, f, rules) <==> Enough(n, f, rules)
  {
    if Enough(n, f, rules) {
      forall active: set<ValidatorID>, faulty: set<ValidatorID>, t: Trace, i, j, h |
          |faulty| <= f && Disciplined(n, active, faulty, t, rules)
          && h in After(n, t, i).blocks && h in After(n, t, j).blocks
        ensures BlockHash(After(n, t, i).blocks[h]) == BlockHash(After(n, t, j).blocks[h])
      {
        assert t[..|t|] == t;
        EnoughForFewer(n, |faulty|, f, rules);
        NodesAgree(active, faulty, t, rules, i, j, |t|, |t|, h);
      }
    } else if !rules.carried && !rules.driven && n > 0 {
      DriftForks(n, rules);
      FaultsOnlyHarm(n, 0, f, rules);
    } else {
      NotEnoughIsNoOverlap(n, f, rules);
      Fork(n, f, rules);
    }
  }

  lemma NotEnoughIsNoOverlap(n: nat, f: nat, rules: Rules)
    requires !Enough(n, f, rules) && (rules.carried || rules.driven || n == 0)
    ensures !Overlap(n, f, rules.earned) && LeastQuorum(n, rules.earned) <= n
  {
    ToleratesExactly(n, f);
  }

  lemma FaultsOnlyHarm(n: nat, g: nat, f: nat, rules: Rules)
    requires g <= f && !Safe(n, g, rules)
    ensures !Safe(n, f, rules)
  {
    hide Disciplined;
  }

  /** With n validators, f of them faulty, no run under the rules ever makes two nodes finalize different
      transactions at one height. */
  ghost predicate SafeToTheLastTransaction(n: nat, f: nat, rules: Rules) {
    forall active: set<ValidatorID>, faulty: set<ValidatorID>, t: Trace, i, j, h |
        |faulty| <= f && Disciplined(n, active, faulty, t, rules)
        && h in After(n, t, i).blocks && h in After(n, t, j).blocks ::
      After(n, t, i).blocks[h].transactions == After(n, t, j).blocks[h].transactions
  }

  /** Agreement on transactions holds only where nothing can be finalized at all. */
  lemma TransactionsAgreeExactly(n: nat, f: nat, rules: Rules)
    ensures SafeToTheLastTransaction(n, f, rules) <==> n == 0 && rules.earned
  {
    if n == 0 && rules.earned {
      forall active: set<ValidatorID>, faulty: set<ValidatorID>, t: Trace, i, h |
          Disciplined(n, active, faulty, t, rules) && h in After(n, t, i).blocks
        ensures false
      {
        assert t[..|t|] == t;
        var r := PrefixIsCertified(active, t, i, |t|, h, true);
        NobodyCertifies(active, t, r, After(n, t, i).blocks[h]);
      }
    } else {
      var active, t := TransactionsMayDiffer(n, rules);
      assert After(n, t, 0).blocks[1].transactions[0] != After(n, t, 1).blocks[1].transactions[0];
    }
  }

  // ----- why the votes must be genuine

  function Repeated(e: NetEvent, k: nat): Trace {
    if k == 0 then [] else Repeated(e, k - 1) + [e]
  }

  /** The counter never looks at who votes or for what: with two or more validators, any one
      precommit of the height, received k times, finalizes the proposal exactly if k is more than two
      thirds of n less one. */
  lemma OneVoteRepeatedFinalizes(n: nat, b: Block, v: Vote, from: nat, k: nat)
    requires n >= 2 && v.voteType == PRECOMMIT
    ensures var t := [NetEvent(0, Propose(v.height, 0, Some(b)))] + Repeated(NetEvent(0, Receive(v, from)), k);
            After(n, t, 0).blocks == if 3 * k > 2 * n - 3 then map[b.height := b] else map[]
  {
    RepeatedPower(n, b, v, from, k);
  }

  ghost predicate HasCounted(nd: Node, n: nat, height: nat, b: Block, k: nat) {
    && nd.totalPower == n
    && nd.round.Some? && nd.round.value.height == height && nd.round.value.proposal == b
    && nd.round.value.precommitPower == k
    && nd.blocks == if k >= Threshold(n) then map[b.height := b] else map[]
  }

  lemma CountAgain(nd: Node, n: nat, b: Block, v: Vote, from: nat, k: nat)
    requires v.voteType == PRECOMMIT && HasCounted(nd, n, v.height, b, k)
    ensures HasCounted(Step(nd, Receive(v, from)), n, v.height, b, k + 1)
  {
  }

  lemma NoneCounted(n: nat, b: Block, height: nat)
    requires n >= 2
    ensures HasCounted(After(n, [NetEvent(0, Propose(height, 0, Some(b)))], 0), n, height, b, 0)
  {
    var start := [NetEvent(0, Propose(height, 0, Some(b)))];
    assert start == [] + start;
    AfterOne(n, [], start[0], 0);
  }

  lemma {:induction false} RepeatedPower(n: nat, b: Block, v: Vote, from: nat, k: nat)
    requires n >= 2 && v.voteType == PRECOMMIT
    ensures var t := [NetEvent(0, Propose(v.height, 0, Some(b)))] + Repeated(NetEvent(0, Receive(v, from)), k);
            HasCounted(After(n, t, 0), n, v.height, b, k)
  {
    var e := NetEvent(0, Receive(v, from));
    var start := [NetEvent(0, Propose(v.height, 0, Some(b)))];
    hide HasCounted, Step, After, Counted;
    if k == 0 {
      assert start + Repeated(e, 0) == start;
      NoneCounted(n, b, v.height);
    } else {
      var before := start + Repeated(e, k - 1);
      RepeatedPower(n, b, v, from, k - 1);
      AfterOne(n, before, e, 0);
      CountAgain(After(n, before, 0), n, b, v, from, k - 1);
      assert start + Repeated(e, k) == before + [e];
    }
  }
}
