# WayChain: what its core keeps, proved in Dafny

This project models the stateful core of a WayChain node and proves what its operations keep, over
single calls and over whole runs. Each module follows one component:

| module | component |
|---|---|
| `Consensus`, `Agreement`, `Forks` | the propose / prevote / precommit / commit round manager and its finality engine; several nodes exchanging votes: what makes them agree, and the runs in which they do not |
| `Validators`, `Selection` | the registered validator set; stake weighting by ten Newton steps and the selection of an epoch's active set |
| `Brackets`, `Staking`, `StakingRuns` | marginal reward brackets; the reward engine with fractional carry, epoch cap and floored split; runs of the engine and of the chain that drives it |
| `RateLimiter` | the per-client token bucket and its background cleanup |
| `Bytes`, `Lanes`, `Codec` | the length-prefixed transaction format, its parser and the signing hash; the transaction lanes |
| `Chain` | the transaction pool, block production and plain transfers |
| `Store`, `Accounts` | the on-disk transaction index against a scan of the blocks; the account codec |
| `TwoWay`, `TwoWayRuns`, `TwoWayLedger` | the 2WAY vault (0x18) and the stability pool (0x19), two state machines over shared storage; their invariants, and their books over every run |
| `Sway` | the SWAY supply books (0x24) |
| `TaskRegistry` | quest payouts under a cap that follows the supply, and escrowed community tasks (0x23) |
| `Scheduler` | scheduled oracle tasks |
| `Subscriptions` | the WebSocket subscription registry and its broadcasts |
| `Oracle` | the median of attested values (0x0C) |
| `Prelude`, `Sorting` | finite sums over maps; sorting as the library promises it |

Where the source updates an object in place, the model is a class whose methods change its fields
and are proved equal to a function of the old state (`After…`, `Do`, `Step`). The theorems are then
proved about those functions, over every sequence of calls; some of them say in plain arithmetic which
calls are accepted and what each moves, and what a run adds up to (`AcceptsExactly`, `AllowedExactly`,
`TxSettles`, `TaskRunsAlone`, `SubscribedExactly`). A failed call that has already written
something keeps what it wrote, as in the source. `dafny verify dfyconfig.toml` checks the whole
project.

Throughout, `big.Int` is `int` or `nat`; SHA-256, storage keys and task ids are injective; bbolt
buckets are maps; each section under a lock is one atomic step with one reading of the clock; Go's map
iteration order is arbitrary. Ed25519 verification, contract execution, the behaviour of other
goroutines, clocks and failing sends are parameters that the theorems quantify over.

## Where the code and what is written about it disagree

The model follows the code. Where a lemma is named, it states the point.

- Brackets: the comments put the first cut at 1,000 tokens, the code gives the first bracket 1,001
  (`BoundaryGap`).
- Treasury share: described as routed to the quest treasury instead of to validators; the code mints it
  on top of the validators' emission, outside the epoch cap, and pays none for payments below seven
  tokens (`TreasuryIsExtra`, `TreasuryShareNeedsSeven`).
- Stake weights: called square roots; ten Newton steps from the stake itself stay above the root, and
  far above it for large stakes (`WeightAboveRoot`, `WeightAboveLinear`).
- Finality: two thirds, rounded down, with the threshold counted in messages. The counter looks neither
  at who votes nor for what (`OneVoteRepeatedFinalizes`). With genuine votes (distinct active voters, votes
  naming the proposal) rounds at one height agree in spite of f validators that precommit two hashes
  exactly if n > 3f, n > 3f + 4 or n > 3f + 2, as n leaves 0, 1 or 2 when divided by three
  (`RoundsAgreeExactly`); with f = 0 that is n = 3 and n >= 5.
- Heights: a round takes the height after the last finalized block, its block the height after the last
  produced one, and after one tick without a commit they differ (`TicksDrift`). A block is finalized under
  its own height, so honest votes alone do not make finalized blocks agree, for any n of 1 or more
  (`DriftForks`). They do for the same n and f if proposals carry their round's height, or if rounds are
  opened as the source's loop opens them, one above a height the node had finalized, with a block higher
  than all it has finalized; `SafeExactly` gives the exact condition, and `BlockDisciplineSuffices` a
  discipline of the voters that needs neither.
- Few validators: with fewer than two the threshold is zero, and a local `precommit` for another round,
  which only tests call, commits a round nobody voted for; `SafeExactly` treats these cases apart.
- Block hash: it covers the number of a block's transactions and not the transactions, so nodes agree on
  hashes and may hold different transactions (`TransactionsAgreeExactly`).
- SWAY: the header comment gives a ceiling of ten billion, the constant is five (`CeilingComparison`
  says when its 64-bit comparison is right, `SupplyIsBounded` that it is never reached through buckets).
- Quests: described as paid once; a verified quest is paid again as often as the cap allows
  (`QuestPaysAgain`). The comment sums the rewards to 2,350; the table's values sum to 2,275.
- Community tasks: described as paid from escrow or treasury; the claimant is credited even when the
  payer cannot pay (`PayRegardlessConserves`, `ConservesExactly`).
- Vaults: a vault is mintable from 130% on but liquidatable up to 140% (`FreshMintMayBeLiquidated`), so a
  fresh debt may be liquidated at once; liquidation clears the debt that absorption would need
  (`LiquidatedCannotBeAbsorbed`), and absorption does not clear it (`AbsorbRepeats`). A mint that the
  ratio check rejects has already booked its fee (`MintBooksFeeRegardless`).
- Signing hash: it covers neither the gas price nor, of course, the signature, and of the addresses only
  their text joined by a colon, which other addresses can share (`HashCovers`, `AddressesMayShift`).
- Oracle reports: the signature is over a data hash that is not compared with the value, so which
  reports count does not depend on their values (`ValuesAreNotSigned`). Nor are keys compared: one key
  may fill most of the ten reports and then decides the aggregate (`RepeatedKeyDecides`, `SafeByKeysExactly`).
- Time tasks: block production makes a new, empty scheduler for every block, so nothing that was
  scheduled through the precompile ever runs there (`NewEngineRunsNothing`).

## Model

| member | source | states |
|---|---|---|
| `Validators.ValidatorSet.Add` | validators.go:34-52 | Accepts exactly a new id with at least the minimum stake while there is room, and then leaves the ids sorted with the new one in; otherwise nothing changes |
| `Validators.ValidatorSet.Remove` | validators.go:67-76 | Leaves the list without the id's entry and forgets its stake and misses, whether or not it was there |
| `Validators.ValidatorSet.Jail` | validators.go:79-82 | A removal plus an entry in the jail |
| `Validators.ValidatorSet.MarkMissed` | validators.go:85-93 | Counts a miss for any id and jails it exactly at the 50th |
| `Validators.ValidatorSet.TotalStake` | validators.go:96-102 | The loop over the ids adds up all stakes, because the ids of a well-formed set are exactly the keys of Stakes |
| `Validators.WithoutKeepsOrder` | validators.go:67-73 | Cutting one id out of a strictly sorted list keeps it strictly sorted |
| `Validators.WithoutDropsOne` | validators.go:67-73 | Cutting removes that id and nothing else |
| `Validators.AddKeepsOrder` | validators.go:45-50 | Appending a new id and sorting keeps the list strictly sorted, with exactly one id more |
| `Validators.RunIsWellFormed` | validators.go:16-93 | Over every run of Add, Remove, Jail and MarkMissed: ids strictly sorted, exactly the keys of Stakes, at most 200, each stake at least 100 and each active miss count below 50 |
| `Validators.StepMembership` | validators.go:34-93 | Exactly who is active, staked and jailed after each operation, and that nobody else is touched |
| `Validators.FiftyMissesJail` | validators.go:85-93 | After any history, a validator that joins survives 49 misses in a row and is gone and jailed by the 50th |
| `Validators.JailedMayReturn` | validators.go:34-43 | The jail is a record only: a jailed id is accepted again whenever there is room |
| `Selection.SqrtWeighted` | consensus.go:196-205 | The loop computes ten Newton steps from the radicand itself, and zero for nothing |
| `Selection.StepAboveRoot` | consensus.go:202 | One step never falls below the root and reaches it only from it |
| `Selection.NewtonAboveRoot` | consensus.go:200-204 | Every iterate from x >= 1 stays at or above the true root, strictly unless x is 1 |
| `Selection.NewtonIsMonotone` | consensus.go:200-204 | A larger radicand has the larger iterate, at every number of steps |
| `Selection.WeightRanksStakes` | consensus.go:110-119 | Weights order stakes strictly by size, in both directions |
| `Selection.WeightAboveRoot` | consensus.go:195-205 | The weight is the square root exactly for stakes 0 and 1, and above it for all others |
| `Selection.WeightAboveLinear` | consensus.go:195-205 | A weight is at least its stake over 1024, so large stakes weigh in proportion and not by root |
| `Selection.WeightIsNearRoot` | consensus.go:196-205 | The weight exceeds the root by at most stake / 1024: it is no more than that above any y with y * y >= stake |
| `Selection.SortByWeight` | consensus.go:116-119 | Some descending permutation by weight, ties in any order |
| `Selection.Rank` | consensus.go:110-119 | Weighing and sorting yields the same ids in descending order of stake |
| `Selection.PrefixIsTop` | consensus.go:121-135 | The first n of the ranking are the n largest stakes: none left out has more than one kept |
| `Selection.TopIsLargest` | consensus.go:96-136 | In the stakes themselves: 200 at most are selected, in descending order, and nobody left out has more than anyone selected |
| `Selection.ReachableFits` | consensus.go:121-125 | For every registry that runs can reach, the selection keeps everyone registered |
| `Consensus.ConsensusEngine.constructor` | consensus.go:83-93 | A new engine has finalized nothing and starts with the top selection, TotalPower its size and one unit in the power table under each printed id |
| `Consensus.ConsensusEngine.SelectNewEpoch` | consensus.go:96-140 | The active set is a top selection by stake and TotalPower its size; an empty registry leaves the old power table behind |
| `Consensus.PowerTableSums` | consensus.go:131-136 | The power table adds up to TotalPower exactly when no two active ids share their last byte, the only one they are printed by |
| `Consensus.PowerTableKeys` | consensus.go:131-136 | The table has one unit for each printed key of an active validator and no other |
| `Consensus.ConsensusEngine.FinalizeBlock` | consensus.go:181-188 | Records the block under its own height, replacing any other, and raises the current height |
| `Consensus.ConsensusEngine.GetQuorumHeight` | consensus.go:158-168 | The scan returns the largest finalized height, 0 if there is none |
| `Consensus.ConsensusManager.ProposeBlock` | consensus_round.go:103-140 | Two locked sections: starts a fresh round on the block, and prevotes for its hash when the proposer is validator 0x01; no block, no change |
| `Consensus.ConsensusManager.Prevote` | consensus_round.go:158-179 | Counts a local prevote in the current round only |
| `Consensus.ConsensusManager.Precommit` | consensus_round.go:182-206 | Two locked sections: counts a local precommit in the current round, then checks for a commit whichever round that is |
| `Consensus.ConsensusManager.HandleVote` | consensus_round.go:209-232 | Counts any vote of the height, whatever its round, voter or hash, and checks for a commit after a precommit |
| `Consensus.ConsensusManager.CheckCommitLocked` | consensus_round.go:235-252 | At two thirds of the power, rounded down, the round commits and its proposal is finalized |
| `Consensus.CommitsExactly` | consensus_round.go:211-252 | A round that has not committed commits in a step exactly if the step is a check or counts a received precommit of its height, and three times its power is then more than 2 * TotalPower - 3; its proposal is finalized in that case and in no other |
| `Consensus.VotesMove` | consensus_round.go:144-261 | Which vote each call counts, under which key, in which of the two counters, and that votes of other heights, rounds or types change nothing |
| `Consensus.ProposalOpensRound` | consensus_round.go:108-141 | A proposal of a block opens a round 0 without votes, whatever the node was doing |
| `Consensus.ConsensusManager.HandleTimeout` | consensus_round.go:262-272 | Marks the round of that height as timed out and changes nothing else |
| `Agreement.PowerIsCounted` | consensus_round.go:182-232 | In every run, PrecommitPower is the number of precommits counted since the proposal, each of them an event of the run at that height |
| `Agreement.QuorumsIntersect` | consensus_round.go:240-241 | Two quorums of n validators share at least 2*floor(2n/3) - n of them, which is at least (n - 4) / 3 |
| `Agreement.ToleratesExactly` | consensus_round.go:240-241 | Twice floor(2n/3) is more than n + f exactly if n > 3f + (0, 4 or 2, as n mod 3 is 0, 1 or 2) |
| `Agreement.FinalizedIsCertified` | consensus_round.go:182-252 | With genuine votes, every finalized block, at every node and time, lies under its own height and was proposed in a round, at whatever height, whose quorum of active validators precommitted its hash |
| `Agreement.CertifiedAgree` | consensus_round.go:240-249 | When two quorums share more validators than are faulty, and no other precommits two hashes at a round height, that height has one certified hash |
| `Agreement.RoundsShareHash` | consensus_round.go:182-252 | While n tolerates the validators that vote twice, two rounds at one height that reach the threshold, at any nodes and moments, have the same proposal hash |
| `Forks.RoundsAgreeExactly` | consensus_round.go:182-252 | That holds over all runs with at most f validators that vote twice if and only if n > 3f + (0, 4 or 2, as n mod 3 is 0, 1 or 2); nothing is assumed of the proposals |
| `Agreement.ChainsAgree` | consensus_round.go:83-84 | Two chains of blocks, each certified one above the block before it, agree as far as both go |
| `Agreement.NodeIsChained` | consensus_round.go:82-140 | In a run driven as the loop drives it, each node's finalized blocks form such a chain, even if a round was opened on a height read too early |
| `Agreement.DrivenNodesAgree` | consensus_round.go:82-252 | In such runs, whatever the heights of the proposals and however many vote twice within what n tolerates, the node that has finalized less has finalized a part of what the other has |
| `Agreement.NodesAgree` | consensus_round.go:182-252 | Under either rule for proposals (they carry their round's height, or the loop drives them), two nodes never hold different hashes at one height, at any two moments, while n tolerates the validators that vote twice, and for fewer than two validators where every local check for a commit finds a precommit counted and none votes twice |
| `Agreement.BlockDisciplineSuffices` | consensus_round.go:182-252 | With no rule for proposals, agreement also holds if no validator but those that n tolerates precommits two blocks of one block height, whatever the rounds |
| `Agreement.HeightIsQuorumHeight` | consensus.go:158-188 | CurrentHeight is always the largest finalized height, and each block lies under its own height |
| `Forks.Fork` | consensus_round.go:240-249 | Wherever two quorums of n validators can share no more than f, there is a run with f validators voting twice that respects both rules for proposals and makes two nodes finalize different hashes; with f = 0 that is n of 0, 1, 2 and 4, for 0 and 1 by a local check without any precommit counted |
| `Forks.DriftForks` | chain.go:437-438 | Without a rule for proposals there is such a run for every n of 1 or more: a block of height 2 in a round at height 1, another in a round at height 2 |
| `Forks.TicksDrift` | consensus_round.go:82-105 | The loop's k-th proposal without a commit carries its round's height exactly when k is 1 |
| `Forks.TicksAreDriven` | consensus_round.go:82-105 | The loop's proposals without a commit, however many, are all driven |
| `Forks.SafeExactly` | consensus_round.go:182-252 | Which of n, the number f of validators that may vote twice, proposals carrying their round's height, the loop driving them and earned checks make nodes agree on finalized hashes over all runs: an if and only if |
| `Forks.TransactionsMayDiffer` | chain.go:142-146 | Under any of these rules, for every n of 1 or more, two nodes can hold blocks of one hash with different transactions; without validators they can where checks need not be earned |
| `Forks.HashFixesTransactions` | chain.go:142-146 | A hash fixes the transactions of its block exactly when there are none |
| `Forks.TransactionsAgreeExactly` | chain.go:142-146 | Over all runs under any choice of the rules and of f, nodes agree on the transactions of finalized blocks if and only if nothing can be finalized: no validators, and checks that are earned |
| `Forks.OneVoteRepeatedFinalizes` | consensus_round.go:226-230 | Without the assumption on votes: one precommit of the height, received k times, finalizes the proposal exactly if 3k > 2n - 3 |
| `Brackets.CalculateReward` | progressive_staking.go:145-184 | The bracket loop computes the closed form with cuts at 1,001, 10,001, 100,001 and 1,000,001, in exact hundredths, floored |
| `Brackets.BracketsAddUp` | progressive_staking.go:154-181 | The first i brackets already pay everything once the stake is used up |
| `Brackets.LowerEnvelope` | progressive_staking.go:29-35 | The schedule is the lower envelope of five lines: concave |
| `Brackets.RewardIsMonotone` | progressive_staking.go:145-184 | More stake never earns less, before and after flooring |
| `Brackets.ConcaveSplits` | progressive_staking.go:145-184 | R(a+b) <= R(a) + R(b) for the schedule itself |
| `Brackets.SplittingNeverLoses` | progressive_staking.go:145-148 | With the minimum stake, splitting never earns less exactly when no part drops below a minimum that the whole meets |
| `Brackets.EffectiveRateFalls` | progressive_staking.go:145-193 | R(a)*b >= R(b)*a for a <= b exactly when a meets the minimum or b does not |
| `Brackets.BoundaryGap` | progressive_staking.go:26-35 | The code pays at most 0.14 tokens a year more than its comments, exactly from the 1,001st token on |
| `Staking.ProgressiveStaking.constructor` | progressive_staking.go:91-106 | Settings that are not positive fall back to 7% and 3 seconds; the rate is held to 3 to 9 percent; the ledger is empty |
| `Staking.SettingsAre` | progressive_staking.go:91-120 | The yearly emission for every setting: 7, 3 or 9 million at the edges and in between the set percentage of the supply, and the blocks of a year |
| `Staking.YearEmits` | progressive_staking.go:107-141 | A year's blocks emit the annual emission, and without an epoch length it is the cap |
| `Staking.ProgressiveStaking.RegisterStake` | progressive_staking.go:205-217 | Registers or replaces one stake and moves the total by the difference |
| `Staking.ProgressiveStaking.RemoveStake` | progressive_staking.go:220-225 | Removes the stake from the ledger and the total, with whatever was still unclaimed |
| `Staking.ProgressiveStaking.AnnualRewards` | progressive_staking.go:239-246 | In any iteration order: each validator's bracket reward, and their sum |
| `Staking.ProgressiveStaking.Accrue` | progressive_staking.go:252-275 | The whole tokens payable now: the carry plus this block's emission, held to what the epoch has left |
| `Staking.ProgressiveStaking.PayShares` | progressive_staking.go:281-292 | In any iteration order: each validator is paid its floored share, and paid is the sum of what was paid |
| `Staking.ProgressiveStaking.DistributeBlockReward` | progressive_staking.go:235-302 | One block: pays everyone the floored share of what is available, keeps the rest as carry, counts it in the epoch; a set that earns nothing accrues nothing |
| `Staking.ProgressiveStaking.RolloverEpoch` | progressive_staking.go:307-309 | Resets the epoch counter only |
| `Staking.ProgressiveStaking.ClaimReward` | progressive_staking.go:312-320 | Returns what was accumulated and zeroes it |
| `Staking.SplitRemainder` | progressive_staking.go:277-292 | The floored split pays at most what is available, and in units of 1/total at most total - 1 short for each validator |
| `Staking.SplitFallsShort` | progressive_staking.go:277-292 | A split falls short of what is available by fewer tokens than there are validators |
| `Staking.EachIsPaidItsShare` | progressive_staking.go:277-292 | A block pays each validator what is available in proportion to its own yearly reward, rounded down |
| `Staking.AvailableIsLargest` | progressive_staking.go:252-275 | What a block makes available is the largest whole number that neither the accrual nor what a positive cap has left stands against |
| `Staking.NothingIsHeldBack` | progressive_staking.go:248-301 | After a distribution the carry is below one token a validator, unless a positive cap has fewer tokens than that left |
| `StakingRuns.EmissionIsConserved` | progressive_staking.go:248-301 | Over every run: carry plus everything paid is the per-block emission times the blocks that had something to emit |
| `StakingRuns.PaymentsKeepUp` | progressive_staking.go:248-301 | Over every run, right after a block with something to emit: what was paid is at most the emission and short of it by fewer tokens than there are validators, unless a positive cap has fewer than that left |
| `StakingRuns.PaymentsAreConserved` | progressive_staking.go:205-320 | Over every run: what was paid is still held for validators, was claimed, or was forfeited on removal |
| `StakingRuns.StakesAreTracked` | progressive_staking.go:205-225 | Over every run TotalStaked is the sum of the registered stakes |
| `StakingRuns.CountersAreTracked` | progressive_staking.go:235-309 | Over every run the epoch counter is what was paid since the last rollover, and the current block that of the last distribution |
| `StakingRuns.RegistrationIs` | progressive_staking.go:205-217 | A newcomer starts with nothing, at the block of the last distribution; registering again changes the stake and keeps what was accumulated |
| `StakingRuns.CapIsKept` | progressive_staking.go:256-299 | The epoch counter never passes a positive cap |
| `StakingRuns.BlockStep` | chain.go:563-576 | With a positive cap and a positive epoch length, a block of the chain closes the open epoch exactly at multiples of the epoch length |
| `StakingRuns.ClosedEpochsAreCapped` | chain.go:563-576 | With a positive cap and a positive epoch length, what was paid in closed epochs is at most one cap for each |
| `StakingRuns.CapIsAbsent` | progressive_staking.go:131-141 | For positive epoch lengths the cap is zero, which the distribution reads as no cap at all, exactly when an epoch emits less than one token |
| `StakingRuns.EmissionIsCapped` | chain.go:563-599 | With a positive cap and a positive epoch length, by height h the chain has paid at most EpochCap * (floor(h/EpochLength) + 1), whatever staking calls come between |
| `StakingRuns.TreasuryShareNeedsSeven` | progressive_staking.go:123-125 | The treasury gets a share exactly of payments of seven tokens or more |
| `StakingRuns.TreasuryIsExtra` | chain.go:575-599 | The chain credits between 100% and 115% of what the supply tracker is told, more than it exactly when some block pays seven tokens or more |
| `RateLimiter.RateLimiter.Allow` | rate_limit.go:40-66 | A new client starts one below the rate and is allowed; a known one is refilled by whole intervals up to the rate, the clock restarts, and it is allowed exactly if a token is left |
| `RateLimiter.RateLimiter.Cleanup` | rate_limit.go:97-110 | One tick deletes exactly the buckets untouched for more than ten windows |
| `RateLimiter.TokensStayInRange` | rate_limit.go:44-65 | On a rising clock tokens stay within 0 and the rate, over every run |
| `RateLimiter.ForgettingIsInvisible` | rate_limit.go:44-65 | Deleting a bucket leaves its next call's answer and result as they were exactly when the pause has refilled it |
| `RateLimiter.StaleIsFull` | rate_limit.go:103-107 | A bucket that the cleanup deletes has been refilled, whatever it held |
| `RateLimiter.CleanupOnlyForgets` | rate_limit.go:97-110 | The limiter with cleanup holds the same buckets as one without, less stale ones |
| `RateLimiter.CleanupIsInvisible` | rate_limit.go:40-110 | For every interleaving of calls and ticks, each answer is that of a limiter that never cleans up |
| `RateLimiter.GrantsAreBounded` | rate_limit.go:44-65 | In every stretch of a run a client is allowed at most rate + floor((t - s) / interval) calls |
| `RateLimiter.AllowedExactly` | rate_limit.go:40-66 | The limiter without buckets, over every run on a rising clock: a call is allowed if and only if, since each earlier call of its client and itself, fewer calls were allowed than the rate and the whole intervals between the calls |
| `RateLimiter.RateIsGuaranteed` | rate_limit.go:40-66 | A client that has been allowed fewer calls than the rate is never refused, however fast it calls |
| `RateLimiter.TickKeepsRecent` | rate_limit.go:97-110 | After a tick there are buckets for exactly the clients that called within the last ten windows |
| `RateLimiter.IntervalIsLongest` | rate_limit.go:55 | The interval is the longest of which the rate fits into the window |
| `RateLimiter.QuotientIsOdd` | rate_limit.go:53-55 | A clock that steps back takes away what the same step forward gives: division is towards zero |
| `RateLimiter.SpacedCallIsAllowed` | rate_limit.go:53-64 | A client that leaves one interval between calls is never refused |
| `RateLimiter.RefusalRestartsWait` | rate_limit.go:59-65 | After a refusal the next call is allowed exactly when a whole interval has passed since the refused one |
| `Codec.SerializeTx` | serialize.go:41-63 | The appended buffer is the print of the wire fields |
| `Codec.Reader.Read` | serialize.go:197-204 | Takes the next n bytes and advances, or fails and leaves the reader as it was |
| `Codec.Reader.ReadUInt64` | serialize.go:66-134 | Reads an eight-byte number or reports the field that is cut short |
| `Codec.Reader.ReadCounted` | serialize.go:66-134 | Reads a length of its width and then that many bytes, or reports which of the two is cut short |
| `Codec.Reader.ReadPayment` | serialize.go:66-134 | Reads nonce, sender, recipient and value in order, stopping at the first that is cut short |
| `Codec.Reader.ReadExecution` | serialize.go:66-134 | Reads gas, price, lane, encrypted data, data and signature in order, stopping at the first that is cut short |
| `Codec.DeserializeTx` | serialize.go:66-134 | The reader computes the parse: fields, hash from TxHash and bytes consumed, or the first short field |
| `Bytes.NumberOfBigEndian` | serialize.go:152-189 | A number comes back from its k bytes exactly when it fits them |
| `Bytes.BigEndianOfNumber` | serialize.go:152-189 | Bytes come back from the number they encode |
| `Bytes.FirstByteWeighs` | serialize.go:152-189 | The first byte of a number is its most significant one |
| `Bytes.MagnitudeOfNumber` | serialize.go:42 | The shortest form gives the bytes back exactly when they do not start with a zero |
| `Codec.ParsePrint` | serialize.go:41-134 | Parsing undoes printing and leaves whatever follows |
| `Codec.PrintParse` | serialize.go:66-134 | Whatever parses was the print of what came out |
| `Codec.RoundTrip` | serialize.go:41-134 | For every rest: a transaction comes back, with its hash and the rest unread, exactly when its lengths fit their prefixes and its value is not negative |
| `Codec.ReEncode` | serialize.go:41-134 | Re-encoding a decoded input gives back exactly the consumed bytes exactly when the value field has no leading zero |
| `Codec.EncodingIsPrefixFree` | serialize.go:41-63 | No encoding starts another: equal streams begin with equal transactions |
| `Codec.TruncationIsNamed` | serialize.go:66-134 | The fields lie in the order of the layout, and an encoding cut anywhere is rejected with the name of the field in which it breaks off |
| `Codec.HashCovers` | chain.go:51-55 | For all transactions: equal hashes if and only if nonce, value, gas limit, lane, data and encrypted data agree and the two addresses joined by a colon do |
| `Codec.HashTextIs` | chain.go:51-55 | The hashed text part by part, with a colon between each two |
| `Bytes.HexDigitIs` | chain.go:51-55 | Hexadecimal digits in the hashed text are the lower-case ones |
| `Bytes.DecimalReads` | chain.go:51-55 | The decimal text of a number reads back as the number |
| `Codec.AddressesMayShift` | chain.go:51-55 | Any transaction whose recipient holds a colon shares its hash with another one that has other addresses |
| `Codec.AddressesAreCovered` | chain.go:51-55 | Between senders without a colon, equal hashes mean equal fields but for gas price and signature, and conversely |
| `Chain.TxPool.Add` | chain.go:73-84 | Appends to the oracle or private pool for those two lane bytes, to the consensus pool for every other byte |
| `Chain.TxPool.PopConsensus` | chain.go:87-97 | Splits off the oldest, at most as many as asked for |
| `Chain.Chain.Submit` | chain.go:73-84 | A submitted transaction ends up at the end of its lane |
| `Chain.Chain.ExecuteTx` | chain.go:451-524 | One turn of the block loop: every check, the execution, the charge and the nonce; a failed execution pays and is left out |
| `Chain.Chain.ProduceBlock` | chain.go:437-561 | One block: the first ten of the consensus lane in order, the settlement, and a block holding exactly the successful ones; the other lanes are never popped |
| `Chain.TxRaisesNonces` | chain.go:468-514 | A turn lowers no nonce, and an included transaction had its sender's nonce and used it up |
| `Chain.TxSettles` | chain.go:451-524 | A transaction that fails a check changes no account; one that is executed costs its sender exactly one nonce, the gas used and the value on top of what the execution did, touches nobody else, and is included exactly if it did not fail |
| `Chain.DefaultsAre` | chain.go:448-484 | A missing gas price counts as one, and an unknown account has no nonce, balance or level |
| `Chain.TransferIsIncludedExactly` | chain.go:451-524 | A transfer is included exactly if it verifies, has its sender's next nonce and its sender can pay the gas limit and the value; the nonce is then one above its own |
| `Chain.IncludedNoncesRise` | chain.go:437-524 | Over every run, any pool and any execution that lowers no nonce: the included transactions of each sender have strictly rising nonces |
| `Chain.NoReplay` | chain.go:468-514 | So no sender and nonce pair is ever included twice, across all blocks |
| `Chain.NoncesAreConsecutive` | chain.go:468-514 | Over every run of plain transfers no nonce is skipped: a sender's included nonces count up by one from the one it started with, and the account's is the next |
| `Chain.LanesAreQueues` | chain.go:73-97 | Over every run what was in the consensus lane and submitted to it since has been taken in that order, ten a block, or is still there; the other lanes only grow |
| `Chain.NextBlockHolds` | chain.go:437-561 | With its lane empty before, a submitted transaction that passes makes up the next block by itself |
| `Chain.BlocksAreNumbered` | chain.go:437-561 | Blocks are numbered without gaps and hold at most ten transactions |
| `Chain.TransferConserves` | evm/interpreter.go:113-120 | A plain transfer takes out of circulation its gas, and its value too when sent to oneself; one that is not executed changes nothing |
| `Chain.TransfersConserve` | chain.go:451-524 | A block whose executed transactions are plain transfers in the states it passes through lowers the sum of balances by exactly what its included ones burn |
| `Chain.CheckCoversTransfer` | chain.go:480-491 | The affordability check covers a transfer for every balance exactly when the wrapped cost of its limit is at least the cost of 21,000 gas |
| `Chain.LimitCovers` | chain.go:480-491 | A limit of 21,000 at a price that does not overflow is enough for that |
| `Chain.TransferIsSolventExactly` | chain.go:451-524 | A transfer that verifies leaves every solvent state in which it is a plain transfer solvent, on every machine, exactly when it covers its gas, wrapped as the costs are |
| `Chain.TransfersStaySolvent` | chain.go:451-524 | While every transfer that verifies covers its gas, no balance ever goes below zero, over any list of transactions that are plain transfers in the states they meet |
| `Store.TxStore.SaveTxIndex` | store/store.go:276-287 | Writes eight bytes of height and two of index under the hash |
| `Store.TxStore.LoadTxIndex` | store/store.go:290-307 | Reads both numbers back, or finds nothing |
| `Store.TxStore.SaveBlockTxs` | store/store.go:325-342 | Stores the rows under the height; no rows, no write |
| `Store.TxStore.SyncTxs` | chain.go:364-391 | Indexes every transaction of the block, later ones over earlier, with the index cut to 16 bits, and stores the rows |
| `Store.TxStore.LoadTxFromStore` | chain.go:395-421 | The lookup through index and rows |
| `Store.RowKeeps` | chain.go:369-381 | A trip to disk drops lane, encrypted payload and the value's sign, and is the identity exactly where they are consensus, empty and not negative |
| `Store.PlaceLayout` | store/store.go:276-307 | A recorded place is eight bytes of height and two of index, each most significant first |
| `Store.LookupIs` | chain.go:364-421 | For every history of synced blocks: a lookup gives the transaction at the last recorded place, modulo 65,536, of the block last stored at that height |
| `Store.LookupIsScan` | chain.go:364-421 | At rising heights and up to 65,536 transactions a block, a lookup of any hash equals a scan of all blocks for its last occurrence |
| `Store.ReplacedBlock` | chain.go:364-421 | After two blocks at one height, a hash of the first alone is answered with the second's transaction at its place |
| `Accounts.SerializeAccount` | store/store.go:383-399 | In any iteration order, the two columns list exactly the storage map |
| `Accounts.DeserializeAccount` | store/store.go:401-422 | Rebuilds the account, filling the map column by column |
| `Accounts.SaveLoad` | store/store.go:383-422 | However its storage was ordered, an account comes back exactly when balance and paid rent are not negative |
| `Accounts.AccountStore.SaveAllAccounts` | store/store.go:108-122 | Leaves a row for every account of the state and the old rows of all others |
| `Accounts.AccountStore.LoadAllAccounts` | store/store.go:125-143 | Loads every row of the bucket |
| `Accounts.RestartRestores` | store/store.go:108-143 | A restart finds the saved state again exactly when it still has every account that was ever saved and none of its accounts has a negative balance or paid rent |
| `Accounts.RestartFinds` | store/store.go:108-143 | What a restart finds account by account: those of the state without their signs, and each dropped account as it was last saved |
| `Accounts.ColumnsAreExact` | store/store.go:383-400 | The two columns have one entry for each word of the storage |
| `TwoWay.TwoWayState.GetVaultCollaterals` | evm/two_way.go:437-462 | In any slot order: the entries under the first 20 bytes of the id |
| `TwoWay.TwoWayState.FeeBps` | evm/two_way.go:194-201 | The fee of some collateral that has one, whichever is met first, else 150 |
| `TwoWay.TwoWayState.IsAboveMinCRatio` | evm/two_way.go:535-550 | The loop's sum against the debt at 130% |
| `TwoWay.TwoWayState.CollateralValueUSD` | evm/two_way.go:465-488 | The sum of the priced entries, at one dollar where no price is set |
| `TwoWay.TwoWayState.VaultDeposit` | evm/two_way.go:125-157 | An accepted deposit overwrites its entry |
| `TwoWay.TwoWayState.BookFee` | evm/two_way.go:204-213 | Splits a fee between the reward buckets and notes it for the minter |
| `TwoWay.TwoWayState.VaultMint` | evm/two_way.go:161-236 | Locks, collateral, fee, ratio and debt in the source's order; a rejection at the ratio keeps the booked fee |
| `TwoWay.TwoWayState.VaultWithdraw` | evm/two_way.go:240-288 | Writes back what is left if the entry covers it and the ratio then holds |
| `TwoWay.TwoWayState.VaultBurn` | evm/two_way.go:292-326 | Lowers the vault's debt, the caller's lock and the total, each floored at zero |
| `TwoWay.TwoWayState.VaultLiquidate` | evm/two_way.go:330-363 | Clears the debt of a vault at or below 140% and nothing else |
| `TwoWay.TwoWayState.AddTotalDebt` | evm/two_way.go:580-586 | Adds to the vault's debt and the total alike |
| `TwoWay.TwoWayState.ReduceTotalDebt` | evm/two_way.go:588-598 | Lowers the total, floored at zero |
| `TwoWay.TwoWayState.AddStabilityMintedDebt` | evm/stability_pool.go:310-315 | Raises the minter's lock |
| `TwoWay.TwoWayState.StabilityDeposit` | evm/stability_pool.go:62-102 | Accepts a positive deposit from a user without minted debt |
| `TwoWay.TwoWayState.StabilityWithdraw` | evm/stability_pool.go:105-146 | Pays out up to the deposit; a slot keeps a negative number without its sign |
| `TwoWay.TwoWayState.StabilityClaimRewards` | evm/stability_pool.go:149-179 | Pays the caller's rewards and resets everyone's totals |
| `TwoWay.TwoWayState.StabilityAbsorb` | evm/stability_pool.go:182-229 | Pays a vault's debt out of the pool if it can and books ten percent as reward |
| `TwoWay.TwoWayState.DistributeRewards` | evm/stability_pool.go:232-246 | Splits a positive reward between the buckets |
| `TwoWayRuns.EveryRunIsSound` | evm/stability_pool.go:62-246 | Over all runs of both precompiles, failed calls included: nobody has both minted debt and a deposit, the deposit total is the sum of deposits, the reward total that of its buckets, and totalDebt never exceeds the sum of vault debts |
| `TwoWayRuns.GenesisIsSound` | evm/stability_pool.go:62-246 | Empty storage is sound, whatever coins are accepted |
| `TwoWayRuns.BurnIsExact` | evm/two_way.go:304-316 | From an exact total a burn keeps it exact exactly when it is covered by the vault's debt, or nobody else owes anything |
| `TwoWayRuns.TotalDebtIsExact` | evm/two_way.go:580-598 | While every burn is covered, totalDebt equals the sum of vault debts, over all runs |
| `TwoWayRuns.EveryDebtIsBacked` | evm/two_way.go:125-363 | With ids distinct in 20 bytes and no lowering deposit, every indebted vault keeps collateral * 10000 >= 13000 * debt, over all runs |
| `TwoWayRuns.DepositIsBacked` | evm/two_way.go:143-147 | A deposit leaves its vault backed exactly when what it takes off the entry is within the slack above 130% |
| `TwoWayRuns.BackingAfterWrite` | evm/two_way.go:402-410 | Writing one entry moves the backing of its own 20 bytes by the difference and no other |
| `TwoWayRuns.LoweringDepositUnbacks` | evm/two_way.go:147 | Why no deposit may lower: a deposit of nothing ends a run unbacked |
| `TwoWayRuns.SharedPrefixUnbacks` | evm/two_way.go:402-418 | Why 20 bytes must be distinct: ids that share them share collateral but not debt |
| `TwoWayRuns.FreshMintMayBeLiquidated` | evm/two_way.go:563-574 | At default prices a fresh mint can be liquidated at once exactly below 140.01% |
| `TwoWayRuns.AbsorbRepeats` | evm/stability_pool.go:189-217 | Absorbing leaves the debt, and can be repeated exactly while the pool covers it again |
| `TwoWayRuns.PoolWithdrawBalance` | evm/stability_pool.go:134-137 | The pool's balance falls by the withdrawal exactly when it covers it |
| `TwoWayRuns.DepositIsNetFlow` | evm/stability_pool.go:62-146 | Over all runs a user's deposit is what the user put in and has not taken out; no other call touches it |
| `TwoWayRuns.FeeHalves` | evm/two_way.go:205-209 | The two halves of a fee add up to it and differ by at most one |
| `TwoWayLedger.AcceptsExactly` | evm/two_way.go:125-363 | Which calls of both precompiles are accepted in every sound state: mints and withdrawals that leave 130%, liquidations below 140.01%, deposits by users without debt, withdrawals within the deposit, claims of something, absorptions that the pool covers |
| `TwoWayLedger.CollateralMoves` | evm/two_way.go:125-288 | A deposit sets its entry, a withdrawal lowers it, and no other call touches any entry |
| `TwoWayLedger.DebtMoves` | evm/two_way.go:161-363 | Mints add to their vault's debt, burns take away at most what is owed, liquidation clears it, and no other call touches any debt |
| `TwoWayLedger.LocksMove` | evm/stability_pool.go:310-327 | Mints add to their user's lock, burns release at most what is locked, and no other call touches any lock |
| `TwoWayLedger.LockIsNetMinted` | evm/stability_pool.go:310-327 | Over all runs a user is locked for at least what the user minted and has not burned, and for exactly that while no burn exceeds the lock |
| `TwoWayLedger.PricesMove` | evm/two_way.go:651-678 | A price changes only by being set; accepted coins and fee rates never change |
| `TwoWayLedger.ClaimsAreBooked` | evm/stability_pool.go:149-179 | Over all runs what a user has claimed and can still claim is what was there at the start and the fees booked for the user's own mints |
| `TwoWayLedger.ClaimEmpties` | evm/stability_pool.go:163-168 | An accepted claim leaves its user nothing to claim |
| `TwoWayLedger.RewardsAreSinceClaim` | evm/stability_pool.go:149-246 | Over all runs the reward total is what mints and absorptions have booked since the last accepted claim, whoever made it |
| `TwoWayLedger.BalanceIsNetFlow` | evm/stability_pool.go:62-229 | Over all runs the pool's balance is what was deposited less what was withdrawn and absorbed, while every withdrawal is covered |
| `TwoWayLedger.FeeIsPositive` | evm/two_way.go:194-201 | The fee rate is positive, fits 16 bits, and is 1.5% where no coin of the vault has one of its own |
| `TwoWayLedger.FeeOfEqualSlots` | evm/two_way.go:194-201 | Where all coins of a vault have the same slot, the fee is its low 16 bits, or 1.5% if these are zero |
| `TwoWayLedger.UsdValueIsFloor` | evm/two_way.go:465-488 | An entry is worth its amount times the price in units of 1e-8, rounded down, or its amount where no price is set |
| `TwoWayLedger.ShortNamesOnly` | evm/two_way.go:402-410 | A withdrawal looks for the entry that a deposit of the same coin writes exactly if the name has at most eleven bytes |
| `TwoWayLedger.TrimTakesZeros` | evm/two_way.go:11-17 | Trimming a name takes the zero bytes at its end and nothing else |
| `Sway.SwayToken.Init` | evm/sway_token.go:81-103 | Seeds supply and buckets once and never again |
| `Sway.SwayToken.MintInternal` | evm/sway_token.go:174-206 | Mints exactly when positive, within its bucket and under the 64-bit ceiling comparison |
| `Sway.SwayToken.BurnInternal` | evm/sway_token.go:209-225 | Burns exactly what the holder covers |
| `Sway.SwayToken.BurnFromFees` | evm/sway_token.go:231-250 | Burns a fifth of the fee or what the ecosystem bucket still holds |
| `Sway.AllocationIsWhole` | evm/sway_token.go:90-102 | The three buckets hold 450, 200 and 350 million |
| `Sway.BooksBalance` | evm/sway_token.go:81-250 | Over every run: supply = balances + 1e9 - fees burned; buckets = 1e9 - minted - fees burned; balances = minted - burned |
| `Sway.SupplyIsBounded` | evm/sway_token.go:188-193 | In every reachable state supply is within 0 and 2e9, below the ceiling, and nothing is negative |
| `Sway.CeilingComparison` | evm/sway_token.go:189-193 | The low-64-bit comparison is right exactly below 2^64 or where the low bits are themselves above the ceiling |
| `Sway.BucketsAloneDecide` | evm/sway_token.go:180-193 | In every reachable state a mint is accepted exactly when its bucket covers it |
| `Sway.AccountsMatchHistory` | evm/sway_token.go:174-250 | Each balance is its own mints less burns, each bucket its allocation less its own draws |
| `Sway.FeeBurnIsFifth` | evm/sway_token.go:231-250 | Fees burn a fifth of what is paid, rounded down, while the ecosystem bucket holds that, and what it holds otherwise |
| `Sway.MintOutsideBuckets` | evm/sway_token.go:174-206 | A mint outside the buckets is accepted exactly if positive and within the 64-bit comparison with five billion |
| `Sway.BurnIsCovered` | evm/sway_token.go:209-225 | A burn takes its amount from its holder and the supply exactly if it is positive and covered |
| `TaskRegistry.Registry.VerifyAndPay` | evm/task_registry.go:576-632 | Refuses past the cap; else marks, counts and pays if the treasury can |
| `TaskRegistry.Registry.TaskVerify` | evm/task_registry.go:88-99 | Only callers of level 2 or more, under the cap |
| `TaskRegistry.Registry.TaskAutoVerify` | evm/task_registry.go:101-119 | Only the autopilot, for eligible tasks, under the cap |
| `TaskRegistry.Registry.QuestSetAutopilot` | evm/task_registry.go:121-131 | Only level 3; the zero address clears it |
| `TaskRegistry.Registry.QuestAddSupply` | evm/task_registry.go:663-672 | Raises the supply by a positive amount, else nothing |
| `TaskRegistry.Registry.CreateTask` | evm/task_registry.go:285-305 | Stores any positive reward under the two bytes; too wide a reward runs over them |
| `TaskRegistry.Registry.EscrowTask` | evm/task_registry.go:307-334 | Moves what the poster covers into the registry and the escrow slot |
| `TaskRegistry.Registry.VerifyCommunity` | evm/task_registry.go:336-400 | Marks, draws on the escrow, debits the payer if it can and credits the claimant in any case |
| `TaskRegistry.QuestsStayCapped` | evm/task_registry.go:576-681 | At every reachable state the quest counter is at most 5% of the tracked supply and bounds the WAY that verification moved out of the treasury |
| `TaskRegistry.QuestPaysAgain` | evm/task_registry.go:595-615 | The same claimant is paid for the same quest again exactly while the cap has room for both |
| `TaskRegistry.BalancesMoveExactly` | evm/task_registry.go:307-400 | Which balances each call moves, by how much, and that no other account is touched |
| `TaskRegistry.AcceptsExactly` | evm/task_registry.go:88-400 | Which calls are accepted: quests by level 2 or the autopilot within a twentieth of the supply, community tasks by whoever their mode names |
| `TaskRegistry.RefusalChangesNothing` | evm/task_registry.go:307-334 | Past the cap a verification changes nothing, and neither does funding that its caller cannot cover |
| `TaskRegistry.RecordsMove` | evm/task_registry.go:88-400 | Each verification marks its claimant; supply, autopilot and tasks change by their own calls only, levels by none |
| `TaskRegistry.EscrowIsAccounted` | evm/task_registry.go:307-399 | Over every run a task's escrow is what was paid into it less what its verifications drew: the reward, or all there was |
| `TaskRegistry.QuestsPay` | evm/task_registry.go:431-560 | Exactly the listed quests pay, and every quest that the autopilot may verify is listed |
| `TaskRegistry.RewardRunsOver` | evm/task_registry.go:285-305 | A created task keeps its two bytes exactly while its reward fits the thirty behind them; a wider reward is written over them |
| `TaskRegistry.WindowIsSlot` | evm/task_registry.go:285-305 | The reward's window and the two bytes before it make a slot of 32 bytes |
| `TaskRegistry.TransferConserves` | evm/task_registry.go:608-610 | A quest payment moves WAY and makes none |
| `TaskRegistry.PayRegardlessConserves` | evm/task_registry.go:390-399 | A community payment conserves WAY exactly when the payer covers it or it is nothing |
| `TaskRegistry.ConservesExactly` | evm/task_registry.go:307-400 | A call conserves WAY exactly unless it is a community verification that its payer cannot cover |
| `TaskRegistry.CoveredRunsConserve` | evm/task_registry.go:307-400 | While every verified reward is covered, escrows stay within the registry's balance and all WAY is conserved, over all runs |
| `TaskRegistry.BackedExactly` | evm/task_registry.go:382-399 | When the registry holds just its escrows, a payment keeps them backed exactly when the escrow covers the reward or the registry is not charged |
| `TaskRegistry.ZeroModeIsNeverPaid` | evm/task_registry.go:343-358 | Exactly when a created task can be paid by nobody: with both bytes zero, or without anyone entitled to verify it |
| `Scheduler.TimeExecution.ScheduleTask` | evm/oracle_scheduler.go:52-79 | Refuses intervals below 100, else appends a new task under the next number |
| `Scheduler.TimeExecution.CancelTask` | evm/oracle_scheduler.go:82-92 | Only a task's own caller deactivates it |
| `Scheduler.TimeExecution.ExecuteDueTasks` | evm/oracle_scheduler.go:96-126 | Runs the loop over the order and returns exactly the tasks that ran, in order |
| `Scheduler.TimeExecution.TryTask` | evm/oracle_scheduler.go:100-122 | One turn: skips the inactive, retires the exhausted, runs and pays the due |
| `Scheduler.ExecuteIs` | evm/oracle_scheduler.go:96-126 | The loop moves every task by exactly one step and reports it exactly if it ran |
| `Scheduler.RunKeepsForm` | evm/oracle_scheduler.go:52-79 | Over every run ids are never repeated and the order lists exactly the tasks |
| `Scheduler.TasksAreRegular` | evm/oracle_scheduler.go:52-126 | Over every run without wrap-around: each task runs at least its interval apart, not before its start, at most once a call, at most MaxExecutions times, and its counters are exactly what its history says |
| `Scheduler.NextIsLate` | evm/oracle_scheduler.go:109-113 | NextBlock >= start + ExecutionCount * Interval, over every such run |
| `Scheduler.WaitsExactly` | evm/oracle_scheduler.go:109-113 | A task that has just run waits out its interval exactly when block + interval < 2^64 |
| `Scheduler.InactiveIsFinal` | evm/oracle_scheduler.go:82-108 | Once inactive, a task never runs again, whatever is called |
| `Scheduler.TaskRunsAlone` | evm/oracle_scheduler.go:52-126 | Over every run a task runs at exactly the calls that its own settings, history and caller's cancellations tell, whatever happens to other tasks, and its record is that of its history |
| `Scheduler.TasksAreNumbered` | evm/oracle_scheduler.go:58-75 | Tasks are numbered consecutively in the order in which they were scheduled |
| `Scheduler.RewardsAreExact` | evm/oracle_scheduler.go:117-121 | Over every run each account's gain is exactly the sum of ExecutionCount * Reward over its tasks |
| `Subscriptions.SubscriptionManager.Subscribe` | rpc_ws.go:49-69 | Takes a new number and enters it in both maps |
| `Subscriptions.SubscriptionManager.Unsubscribe` | rpc_ws.go:72-92 | Removes one id from both maps, dropping an emptied set, and closes its channel, which is still open |
| `Subscriptions.SubscriptionManager.CleanupConn` | rpc_ws.go:95-109 | Removes all ids of a connection and closes their channels, each still open |
| `Subscriptions.SubscriptionManager.CloseAll` | rpc_ws.go:102-107 | The deletion loop, in any order, closes each channel once |
| `Subscriptions.EveryRunIsSound` | rpc_ws.go:49-109 | After any interleaving, with ids handed out before the lock: connSubs is the exact inverse of subs without empty sets, and each id is waiting, subscribed or closed, in exactly one of these |
| `Subscriptions.EmptyIsSound` | rpc_ws.go:41-46 | A new registry is sound |
| `Subscriptions.IdsAreNotReused` | rpc_ws.go:50 | Over every run the counter and the closed channels only grow and a subscribed id keeps its meaning |
| `Subscriptions.SubscribedExactly` | rpc_ws.go:49-109 | Over every run an id is subscribed to a kind on a connection if and only if it was entered so and neither it nor its connection has been removed since |
| `Subscriptions.Snapshot` | rpc_ws.go:113-120 | In any iteration order: every subscription of the kind, once |
| `Subscriptions.SnapshotIsExact` | rpc_ws.go:113-120 | A snapshot has one entry for each subscription of its kind, with its connection, and as many as there are |
| `Subscriptions.BroadcastNewHead` | rpc_ws.go:112-139 | The sending loop against the registry, with other goroutines acting between sends |
| `Subscriptions.TurnsAre` | rpc_ws.go:132-184 | Each turn skips a closed entry and sends otherwise; a send that fails removes the subscriptions of its connection, and no turn removes any other |
| `Subscriptions.NoSendAfterFailure` | rpc_ws.go:132-184 | After a failed send to a connection none of its remaining entries is sent to, whatever others do |
| `Subscriptions.QuietBroadcastReachesAll` | rpc_ws.go:132-139 | While no send fails and nobody leaves, every entry is sent to |
| `Oracle.MedianBig` | evm/crypto_verify.go:57-65 | The median of the array, 0 if it is empty; the input array is not modified |
| `Oracle.MedianIgnoresOrder` | evm/crypto_verify.go:57-65 | Reordering leaves the median unchanged |
| `Oracle.MedianExactly` | evm/crypto_verify.go:61-64 | The median without sorting: the one number with more than floor(k/2) values at most it and at least ceil(k/2) at least it |
| `Oracle.MedianIsBracketed` | evm/crypto_verify.go:57-65 | With fewer than ceil(k/2) faulty values the median lies between two honest ones |
| `Oracle.BracketNeedsMajority` | evm/crypto_verify.go:57-65 | That holds against every choice of f faulty values out of k exactly when 2f < k |
| `Oracle.VerifyReport` | evm/precompiles.go:258-267 | A report counts exactly if its key's account has level 2 and the signature over its data hash verifies |
| `Oracle.AcceptedIsAll` | evm/precompiles.go:246-271 | No report that counts is left out |
| `Oracle.Collect` | evm/precompiles.go:246-271 | The loop collects exactly the values of the reports that count, in order |
| `Oracle.Answer` | evm/precompiles.go:273-281 | One byte of confidence in percent and the median in 32 |
| `Oracle.ReadsWhatIsPrinted` | evm/precompiles.go:246-257 | The aggregator reads back exactly the reports printed as key, value, data hash and signature, whatever follows them |
| `Oracle.CountsExactly` | evm/precompiles.go:258-267 | A report counts exactly if the account named by the first 20 bytes of its key has level 2 and the signature over its data hash verifies |
| `Oracle.CountIsCapped` | evm/precompiles.go:229-245 | The count byte is taken as it is up to ten and as ten beyond |
| `Oracle.ConfidenceIsShare` | evm/precompiles.go:273-281 | The confidence is the accepted share in percent, rounded down, and 100 exactly if all count |
| `Oracle.OracleAggregator` | evm/precompiles.go:229-282 | Each of the three errors exactly where it applies; else the median of exactly the badged, correctly signed among the first ten reports, and their share in percent |
| `Oracle.AggregateIsBracketed` | evm/precompiles.go:246-279 | With fewer than half of the accepted reports faulty, counted by report, the aggregate lies between two accepted honest ones |
| `Oracle.KeysBracketAggregate` | evm/precompiles.go:246-279 | While no key has two accepted reports, fewer faulty keys than half of the accepted reports leave the aggregate between two accepted reports of other keys |
| `Oracle.SafeByKeysExactly` | evm/precompiles.go:246-279 | Over all values and all sets of faulty keys, that bound is safe if and only if no key has two accepted reports or at most two reports are accepted |
| `Oracle.RepeatedKeyDecides` | evm/precompiles.go:250-270 | An accepted report repeated more often than there are others is the aggregate |
| `Oracle.AggregateIgnoresOrder` | evm/precompiles.go:246-279 | The aggregate does not depend on the order of the reports |

## Left out

- Floating point: the commit threshold, the Newton weights, the reward brackets and the fractional carry are exact integers and reals here; rounding of float64 is not modelled.
- uint64 overflow of balances, stakes, rewards and counters is not modelled, except where named: the gas cost, the supply ceiling, the scheduler's next block and the index of a transaction.
- 256-bit slots: a value that outgrows its slot panics in the source; storage holds unbounded numbers here. Losing the sign of a negative number is modelled.
- Staking.PolicyFor: one inflation rate per run; a governance change of the rate in the middle of a run is not modelled.
- Chain: contract calls, deployments and precompile calls inside a transaction are an arbitrary execution step that lowers no nonce; the time tasks, the policy loop and the staking credits at the end of a block are an arbitrary settlement of the same kind.
- Crediting of validators: the chain credits the account that a validator id prints as, which is its last byte; the staking ledger here is kept by full id, and only the key collision in the power table is modelled.
- Proposer selection by hash or by `math/rand`, random seeds and fairness statistics.
- Peer-to-peer and WebSocket transport, HTTP, JSON, hexadecimal wrappers, logging, events and getters: input and output.
- Consensus: broadcasting, and the timer of a round; votes that a node receives and timeouts are events of the run. A received proposal never becomes a round in the source, and does not here. After a restart a node counts as a new one.
- Ed25519, SHA-256 and gob: verification is a parameter, hashes are injective, encoding is the identity on rows. Input and output errors of the database are not modelled.
- Oracle prices: SetStablecoinPrice is not reachable through the vault's selectors and is kept as a step of the environment; the price median over attestations is not modelled.
- Vault: VaultCount, GetVault, per-collateral ratios and debt floors, which no check of the modelled operations reads.
- Task registry: claims, bounties, giveaways and delegated micro-tasks, which move WAY under checks of their own; the economic health counters.
- SWAY: mints outside the buckets are in MintInternal's contract but not in the runs; the swap reward and balance selectors key balances differently and are not modelled.
- Scheduler: parsing of the precompile's input, badges and professional rewards.
- Rate limiter: how a client's address is read from a request.
- Subscriptions: delivery of pending transactions, which is the same loop over another kind.
- Faucet, state rent, stablecoin and journal stubs, locks, recovery, template registry, governance and the swap pools.
