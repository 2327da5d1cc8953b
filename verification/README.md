# Consensus core of the Lotus blockchain, in Dafny

This project models the consensus core of the Lotus full node and proves what it is for:
whatever blocks arrive, in whatever order and on whatever branch, the node ends up in the state
that a replay of the heaviest chain from genesis would give, and every fast look-up on the way
gives the answer that the block's own ancestors give.

There are four parts.

* **Blocks, fork choice and coins.** `CoinSet` says what a block adds and spends, what replaying a
  chain gives, and when a body is valid on top of its ancestors. `CoinHistory`, `Supply`,
  `ForkPoint` and `ForkCoins` prove what follows for every valid chain. `BodyLaws` says the same
  once more by the spends and the rows of the coin table, and proves that it is the same. `Generators`,
  `BodyValidation`, `NodeStores`, `Reorganisation` and `FullNode` are the program's own walks,
  stores and updates, proved against that. `ForkChoice` and `NodeRuns` are about whole runs,
  `BatchValidation` and `BatchSync` about batches of blocks, and `BlockCreation` about blocks that are
  made in two steps.
* **Sub-slots, deficit and epochs.** `HeaderRules` states the structural header rules as a step
  relation on chains. `SubEpochs`, `ChainIterations` and `Epochs` prove what every chain of such
  steps keeps, `Retargeting` what the step into a new epoch does to its parameters, and `HeaderLaws`
  that the rules are what a second reading of them, by the blocks and sub-slots below, asks for.
  `DifficultyAdjustment` and `HeaderValidation` are the program's searches and checks.
* **Signage points and back-walks.** `PotIterations`, `BlockChallenge`, `PreValidation`, `VdfInfo`.
* **Database scans.** `DbValidate` and `DbUpgrade`.

`Types`, `Chains`, `BlockTree`, `MainChain`, `SignificantBits` and `Arithmetic` hold what the others
share, and `DefaultConstants` the constants of the network.

## How things are modelled

A *chain* is the list of a block's ancestors, the newest on top. A *block tree* is a map from header
hash to record in which every block above height 0 has its parent one height below. Whatever the
program computes by following hashes, height maps, flags or cached windows is stated as a function
of a chain.

* A hash is an opaque value that names one thing. A coin is its own name: parent, puzzle hash and
  amount, with pool and farmer rewards as separate kinds of parents per height.
* A block record keeps the block itself, so that reading a full block and reading its record agree.
* Running a generator with its references is a function that is part of the constants. A result
  does not depend on the cost limit as long as the limit is not below its cost.
* Integers are unbounded. Where the program converts to an unsigned integer and would fail, the
  rule or the result says so.
* The consensus constants must satisfy `ValidConstants`: at least 2 blocks per challenge block,
  2M+1 < MAX, 2*MAX+M < S, S divides E, E >= 4*MAX+2M+6, a power of two of signage points, and at least one
  timestamp to look back for (M, MAX, S, E for the minimum per challenge block, the maximum per sub-slot,
  and the sub-epoch and epoch lengths). `DefaultConstants` proves this of the default constants and
  gives a first block that an empty node accepts.
* A set of block records may be incomplete: a window, or the tree. `Sees` says how far down a chain it
  goes, and `Suffices` what header validation needs of it. A look-up that fails is an error.
* Receiving a block is one atomic step. `FullNode.Blockchain.ReceiveBlock` takes the result of
  pre-validation from its caller. `NodeRuns.RespondBlock` and `BatchSync.ReceiveBatch` do the
  pre-validation themselves, with the windows that the program uses. They rely on unique names, and
  the batch on being contiguous and on a fork point that is common to both chains.
* Whether a proof of space answers a challenge, and whether the content of a summary is the one to be
  expected, are parameters (`proofOk`, `summaryOk`).

## Where the code does something else than one might expect

* `get_block_challenge` is the challenge of the signage point's sub-slot, except for an overflow block
  in the sub-slot of a genesis block that has exactly one finished sub-slot: there an index is out of
  range. `BlockChallenge.ChallengeIsSignagePointSlot` proves this to be the only exception, and
  `DefaultConstants.LateSecondRefused` gives such a block. It satisfies every other rule, and no node
  accepts it; `get_signage_point_vdf_info` fails for the same blocks.
* `validate_v2` goes by the heights that are stored. It accepts a database in which heights are
  missing; `DbValidate.GapAccepted` is an example, and `DbValidate.NoGaps` says when there are none.
* `convert_v1_to_v2` reports its progress at every thousandth height and divides by the height of the peak.
  A store whose peak is at height 0 therefore cannot be converted (`DbUpgrade.GenesisAloneFails`); every
  other store in order can (`DbUpgrade.ConvertBlocks`).
* `get_prev_transaction_block` returns the block it was given when the new block is not a transaction
  block, although the second result is called the previous transaction block.
* The body rules never forbid spends in the genesis block; that there are none follows from the
  other rules (`CoinHistory.GenesisSpendsNothing`).
* A fork point handed to `receive_block` need not be the last common height: every common height
  gives the same verdict and the same stores.
* The difficulty at an epoch's end is limited relative to the block before the last, the sub-slot
  length relative to the measured block. Both limits hold from each block to the next
  (`Epochs.GrowthLimited`), because an epoch always begins with a transaction block
  (`Epochs.EpochBeginsWithTx`).
* Pre-validation puts temporary records into the node's tree and takes them out again, except when it
  ends with an invalid sub-epoch summary or with an exception. Then the records of the blocks before the
  refused one stay, unless they were known before: `PreValidation.LeftBehind` is the exact condition,
  `DefaultConstants.LeftoverExample` a batch that leaves a record, and `BatchSync.ReceiveBatch` says that
  the node is inconsistent afterwards exactly when a record was left. A single block leaves none.

## Model

| member | source | states |
|---|---|---|
| `PotIterations.IpItersShape` | lotus/consensus/pot_iterations.py:25-43 | The infusion point lies strictly inside the signage-point interval that is NUM_SP_INTERVALS_EXTRA further on, wrapping around the sub-slot. |
| `PotIterations.OverflowDefinitionsAgree` | lotus/consensus/block_creation.py:338 | Calling a block overflowing because its signage point comes after its infusion point agrees with looking at the signage point index, for every placeable block. |
| `PotIterations.InfusionOffSignagePoints` | lotus/consensus/pot_iterations.py:14-43 | No infusion point falls on any signage point of its sub-slot. |
| `PotIterations.OverflowInfusedFirst` | lotus/consensus/pot_iterations.py:8-43 | In one sub-slot every overflow block is infused before every other block. |
| `SignificantBits.TruncateSpec` | lotus/util/significant_bits.py:1-15 | Truncation never grows a number, keeps its leading bit, loses less than the lowest kept bit and leaves at most the given number of significant bits. |
| `SignificantBits.RoundDownSpec` | lotus/consensus/difficulty_adjustment.py:262-268 | Rounding a truncated number down to a multiple of a power of two costs no significant bits. |
| `SubEpochs.DeficitBounded` | lotus/consensus/deficit.py:25-53 | On every valid chain the deficit is between 0 and MIN_BLOCKS_PER_CHALLENGE_BLOCK, and equals the maximum only on overflow blocks. |
| `SubEpochs.DeficitCountsDown` | lotus/consensus/deficit.py:25-53 | After a challenge block the deficit falls by one per block, and stays zero while no sub-slot ends. |
| `SubEpochs.ChallengeBlocksApart` | lotus/consensus/block_record.py:65-66 | Two challenge blocks of a chain are at least MIN_BLOCKS_PER_CHALLENGE_BLOCK heights apart, and a sub-slot ends between them. |
| `SubEpochs.DeficitRestarts` | lotus/consensus/deficit.py:41-51 | After a deficit of zero, it stays zero exactly while no sub-slot ends; an overflow block after exactly one ended sub-slot has the maximum, and the block after an ended sub-slot is a challenge block exactly otherwise. |
| `SubEpochs.DeficitWaits` | lotus/consensus/deficit.py:30-40 | After the maximum, it stays at the maximum exactly for an overflow block that ends no sub-slot; any other block is a challenge block. |
| `SubEpochs.WaitingSince` | lotus/consensus/deficit.py:25-53 | A block at the maximum overflows, and so does the first block of its sub-slot, which ended exactly one sub-slot after a deficit of zero. |
| `SubEpochs.SlotDeficit` | lotus/consensus/block_header_validation.py:356-397 | The deficit written into the sub-slots ended before a block is one more than the block's own, or equal to it where the count waits. |
| `SubEpochs.SlotBounded` | lotus/consensus/block_header_validation.py:444-463 | No sub-slot of a valid chain holds more than MAX_SUB_SLOT_BLOCKS blocks. |
| `SubEpochs.SummaryUnique` | lotus/consensus/difficulty_adjustment.py:163-189 | No sub-epoch window holds two summaries, and the first window holds none. |
| `SubEpochs.SummaryOverdue` | lotus/consensus/block_header_validation.py:388-442 | While a window has no summary, the blocks it can still have are bounded by a measure that every block without one uses up. |
| `SubEpochs.OneSummaryPerSubEpoch` | lotus/consensus/difficulty_adjustment.py:139-189 | Every window but the first that reaches 2*MAX+M-2 blocks has exactly one summary, at or before that height. |
| `ChainIterations.SlotShared` | lotus/consensus/block_header_validation.py:543-566 | All blocks of a sub-slot agree on where it starts and how long it is. |
| `ChainIterations.AncestorsEarlier` | lotus/consensus/block_header_validation.py:918 | Ancestors are infused no later, and before the start of the sub-slot if they are not in it. |
| `ChainIterations.TxWithinSlot` | lotus/consensus/block_header_validation.py:689-703 | Among the first block of a sub-slot and the next MAX_SUB_SLOT_BLOCKS there is a transaction block. |
| `ChainIterations.TimestampsGrow` | lotus/consensus/block_header_validation.py:818-823 | Timestamps grow strictly from transaction block to transaction block. |
| `ChainIterations.IterationsAccounted` | lotus/consensus/block_header_validation.py:543-566 | Total iterations less infusion iterations equal the summed length of all sub-slots finished since genesis. |
| `Epochs.EpochMeasured` | lotus/consensus/difficulty_adjustment.py:75-133 | Whenever an epoch may end, both blocks it is measured between exist, and the first is a proper ancestor of the second. |
| `Epochs.NextParamsDefined` | lotus/consensus/difficulty_adjustment.py:192-352 | For every valid chain the next sub-slot length and difficulty are defined: no assert fails and the measured time is positive. |
| `Epochs.MeasuredSpec` | lotus/consensus/difficulty_adjustment.py:245-247 | The block an epoch is measured to is a transaction block infused no later than the signage point, and no newer transaction block is. |
| `Epochs.ParamsStayGood` | lotus/consensus/difficulty_adjustment.py:250-268 | On every valid chain sub-slot lengths stay positive multiples of NUM_SPS_SUB_SLOT with at most SIGNIFICANT_BITS significant bits, and difficulties stay at least 1. |
| `Epochs.NewItersGood` | lotus/consensus/difficulty_adjustment.py:250-268 | A new sub-slot length is usable and at most the maximal factor times the measured one. |
| `Epochs.NewDifficultyGood` | lotus/consensus/difficulty_adjustment.py:335-352 | A new difficulty is at least 1, has few significant bits, and is at most the maximal factor times the old one. |
| `Epochs.ParamsKept` | lotus/consensus/difficulty_adjustment.py:219-236 | Sub-slot length and difficulty are constant throughout an epoch. |
| `Retargeting.DifficultyAdjusted` | lotus/consensus/difficulty_adjustment.py:335-352 | Within the limits the new difficulty d is measured weight times slot time over (blocks per slot times seconds), rounded down to the bits that are kept; beyond them it is the old one times the factor, or divided by it but at least 1, rounded down in the same way. |
| `Retargeting.DifficultyOnTarget` | lotus/consensus/difficulty_adjustment.py:335-352 | An epoch that was exactly on target leaves a difficulty with few bits as it is. |
| `Retargeting.LengthAdjusted` | lotus/consensus/difficulty_adjustment.py:250-268 | The same for the sub-slot length, with slot time times measured iterations over seconds, rounded down also to a multiple of the number of signage points. |
| `Retargeting.LengthOnTarget` | lotus/consensus/difficulty_adjustment.py:250-268 | Iterations exactly on target leave a usable sub-slot length as it is. |
| `Retargeting.EpochSpan` | lotus/consensus/difficulty_adjustment.py:52-132 | An ending epoch is measured from genesis, or from the transaction block with exactly one other between it and the block that began the epoch, to the newest transaction block infused no later than the signage point of its last block. |
| `Retargeting.EpochRetargets` | lotus/consensus/difficulty_adjustment.py:192-352 | On every valid chain every epoch begins with the difficulty and the sub-slot length that this measure of the one before asks for. |
| `Epochs.EpochBeginsWithTx` | lotus/consensus/block_header_validation.py:536-541 | The block with which an epoch begins is a transaction block. |
| `Epochs.GrowthLimited` | lotus/consensus/difficulty_adjustment.py:192-352 | From each block to the next both parameters grow at most by the maximal factor, and change only where an epoch begins. |
| `DifficultyAdjustment.GetBlocksAtHeight` | lotus/consensus/difficulty_adjustment.py:11-49 | The height-map path and the parent walk both return exactly the ancestors at the requested consecutive heights. |
| `DifficultyAdjustment.ScanForEpochStart` | lotus/consensus/difficulty_adjustment.py:98-123 | The scan never leaves the fetched list and stops with the parent of the block that started the epoch. |
| `DifficultyAdjustment.GetSecondToLastTransactionBlockInPreviousEpoch` | lotus/consensus/difficulty_adjustment.py:52-133 | Whenever the next block may end an epoch, no assert fails and the result is the last transaction block but one before the epoch began, or genesis for the first epoch. |
| `DifficultyAdjustment.CanFinishSubAndFullEpoch` | lotus/consensus/difficulty_adjustment.py:139-189 | With any set of records that goes down to a summary or to the start of the window, it decides whether a sub-slot ending here ends a sub-epoch and an epoch, as the step relation says. |
| `DifficultyAdjustment.FindMeasured` | lotus/consensus/difficulty_adjustment.py:238-246 | The walk stops at the newest transaction block infused no later than the signage point. |
| `DifficultyAdjustment.GetNextSubSlotIters` | lotus/consensus/difficulty_adjustment.py:192-268 | On a valid chain it returns the sub-slot length of the step relation. |
| `DifficultyAdjustment.GetNextDifficulty` | lotus/consensus/difficulty_adjustment.py:271-352 | On a valid chain it returns the difficulty of the step relation, which `Retargeting.DifficultyAdjusted` fixes. |
| `DifficultyAdjustment.GetNextSubSlotItersAndDifficulty` | lotus/consensus/difficulty_adjustment.py:355-410 | On every valid chain it succeeds and returns the values that the header rules ask for. |
| `HeaderValidation.CheckSubSlots` | lotus/consensus/block_header_validation.py:101-386 | With the current sub-slot in view it accepts exactly the finished sub-slots that satisfy rules 2a-2c, 2l-2n and 2q-2t. |
| `HeaderValidation.CheckSlotEnd` | lotus/consensus/block_header_validation.py:388-541 | With the current sub-slot in view it accepts exactly when summary, block count and overflow rules 3, 4 and 9 hold. |
| `HeaderValidation.CheckTransaction` | lotus/consensus/block_header_validation.py:689-823 | With the newest transaction block in view it accepts exactly when rules 15, 24 and 26b hold. |
| `HeaderValidation.ValidateHeader` | lotus/consensus/block_header_validation.py:827-920 | On a valid chain and with records that suffice, the verdict is exactly the step relation on the block's own ancestors together with rule 5a on the challenge, and the record is the one that relation speaks of. |
| `HeaderValidation.TreeSuffices` | lotus/consensus/block_header_validation.py:58-97 | The whole tree always suffices. |
| `HeaderLaws.DueMeans` | lotus/consensus/difficulty_adjustment.py:135-189 | A sub-slot that ends finishes a sub-epoch exactly when the deficit is zero and no block of the window of the next height includes a summary, and an epoch exactly when that window also starts at a multiple of the epoch length. |
| `HeaderLaws.HeaderMeans` | lotus/consensus/block_header_validation.py:33-820 | A record is valid on a valid chain if and only if: height, parent, weight and deficit are right; its proof of space places it; each finished sub-slot continues the last one, with its length, deficit, summary and announced parameters; its sub-slot is not full; its total iterations are all finished sub-slots and its own; and it is a transaction block exactly when its signage point comes after the newest one. |
| `BlockChallenge.GetBlockChallenge` | lotus/consensus/get_block_challenge.py:54-102 | When the records at hand reach back far enough, no look-up fails and the result depends on the block's ancestors only. |
| `BlockChallenge.ChallengeIsSignagePointSlot` | lotus/consensus/get_block_challenge.py:76-101 | On a valid block the result is the challenge of the sub-slot of the signage point, and the look-up fails if and only if an overflow block shares the sub-slot of a genesis block with exactly one finished sub-slot. |
| `BlockChallenge.OverflowAtGenesis` | lotus/consensus/get_block_challenge.py:76-101 | An overflow block in the sub-slot of genesis needs a sub-slot that ended before genesis. |
| `BlockChallenge.SkippedIsNewest` | lotus/consensus/get_block_challenge.py:62-102 | When the last sub-slot is not there yet, the challenge is the newest one for overflow blocks as well, and it is always found. |
| `PreValidation.CollectRecentBlocks` | lotus/consensus/multiprocess_validation.py:192-218 | Each window holds the chain from its top down to a block that is no later than the first of the sub-slot and the newest transaction block, with two challenges; the large one goes down to a summary or genesis. |
| `PreValidation.CoversSuffices` | lotus/consensus/multiprocess_validation.py:297-303 | On every valid chain the large window suffices for every header on top, and the small one for every header that ends no sub-slot. |
| `PreValidation.PrepareBlock` | lotus/consensus/multiprocess_validation.py:224-273 | A block passes with the right parameters and record, or is refused for the stated reason: proof of space, summary, signage point index, the one challenge that cannot be found, or ancestors that are not valid. |
| `PreValidation.LeftBehind` | lotus/consensus/multiprocess_validation.py:265-273 | A run that stops at a block and does not clean up leaves the tree as it was if and only if all blocks before it were known. |
| `PreValidation.PreValidateBlocks` | lotus/consensus/multiprocess_validation.py:192-290 | It passes all blocks of a batch, with windows that suffice for each header, or stops at a refused one; the tree is as before on success, on an invalid proof of space and on an unknown parent, and on the other exits exactly when the blocks before were all known. |
| `VdfInfo.WalkFindsStart` | lotus/consensus/vdf_info_computation.py:122-142 | The walk inside a sub-slot finds the newest block infused before the signage point, or the start of the sub-slot when there is none. |
| `VdfInfo.CollectTwoSlots` | lotus/consensus/vdf_info_computation.py:76-105 | With any set of records that goes back to the second finished sub-slot, the walk finds the hashes of the two and the newest block infused before the signage point, as far as the walk goes. |
| `VdfInfo.GetSignagePointVdfInfo` | lotus/consensus/vdf_info_computation.py:12-154 | From any set of records that suffices for the header, in all six cases: the start is the newest block infused before the signage point in the signage point's own sub-slot, or that sub-slot's start; it fails exactly for the blocks for which no challenge is found, so never for a valid header. |
| `VdfInfo.StartAddsUp` | lotus/consensus/vdf_info_computation.py:12-154 | The VDF starts at the newest block infused before the signage point if it is in the signage point's sub-slot, and at the beginning of that sub-slot otherwise, with the challenges of that place, and its iterations lead exactly to the signage point. |
| `VdfInfo.InfusedBeforeIs` | lotus/consensus/vdf_info_computation.py:76-142 | That block is infused before the signage point, and every newer one is not. |
| `CoinHistory.AddedIsNew` | lotus/consensus/block_body_validation.py:263-273 | No coin that a valid block adds has ever been in the coin table of its ancestors. |
| `CoinHistory.GenesisSpendsNothing` | lotus/consensus/block_body_validation.py:98-147 | A valid genesis block neither spends nor creates any coin. |
| `CoinHistory.ReplayExplained` | lotus/consensus/block_body_validation.py:193-220 | Every row of every valid chain is explained: a created coin by a coin spent at the same height, a reward by a height already paid. |
| `CoinHistory.AddedOnce` | lotus/consensus/block_body_validation.py:308-342 | No coin is added by two blocks of a valid chain. |
| `CoinHistory.SpentOnce` | lotus/consensus/block_body_validation.py:308-342 | No coin is spent by two blocks of a valid chain. |
| `CoinHistory.RollbackIsReplay` | lotus/full_node/coin_store.py:455-496 | Rolling the coin table of a valid chain back to any height gives the replay of the chain up to that height. |
| `BodyLaws.AdditionsExact` | lotus/util/generator_tools.py:52-70 | A coin is added by spends exactly when one of them asked for it: a child of the spent coin with that puzzle hash and amount; there are as many as asked for. |
| `BodyLaws.AdditionAt` | lotus/util/generator_tools.py:52-70 | The added coins are the outputs of the spends, in their order. |
| `BodyLaws.BodyMeans` | lotus/consensus/block_body_validation.py:35-489 | A body is valid on valid ancestors if and only if a block that is no transaction block carries nothing, and a transaction block claims exactly the unpaid rewards, refers to generators below it, runs at its declared cost, asks for no output twice, pays the declared fees, and spends each coin once, unspent in the replay of its ancestors or added by itself, with its puzzle hash, and no earlier than absolute and relative heights and times allow, counted from the row of the coin. |
| `BodyLaws.RowHistory` | lotus/full_node/coin_store.py:108-161 | The coin table of a valid chain holds exactly the coins that some block added; a row names that block and its time, whether the coin is a reward, and the block that spent it, if and only if there is one. |
| `BodyLaws.CreatedAsAsked` | lotus/util/generator_tools.py:52-70 | Every coin of the table that is no reward has the puzzle hash and amount that a spend of its parent asked for in the block that confirmed it. |
| `BodyLaws.RunMeans` | lotus/consensus/multiprocess_validation.py:81-97 | A generator is run with the generators of the block's own ancestors at the heights it refers to; a height without one is an error, and a block without a generator spends nothing. |
| `BodyLaws.ReportsSuffice` | lotus/full_node/coin_store.py:455-496 | A listener who replaces rows by the reported ones, and takes one confirmed at height 0 as gone, gets from the coins of the main chain to those at the fork. |
| `Supply.BaseReward` | lotus/consensus/block_rewards.py:8-51 | The two base rewards of every height together are eight times the farmer's. |
| `Supply.ExpectedExact` | lotus/consensus/block_body_validation.py:98-141 | The claims asked of a transaction block are exactly the rewards of the heights after the last paid one, up to the previous transaction block. |
| `Supply.RewardMeans` | lotus/consensus/block_body_validation.py:100-142 | A reward goes to the puzzle hash that the block of its height names: seven eighths of what the height issues to the pool, one eighth and the fees of the block to the farmer. |
| `Supply.RewardsPaidOnce` | lotus/consensus/block_body_validation.py:98-147 | A reward coin is in the coin table of a valid chain if and only if it is the reward, in full and to the right puzzle hash, of a height already claimed. |
| `Supply.SupplyConserved` | lotus/consensus/block_body_validation.py:413-445 | Unspent value plus the fees of the last transaction block equals the base rewards of all heights paid so far. |
| `Supply.IssuedSchedule` | lotus/consensus/block_rewards.py:4-48 | What all heights up to h issue, in closed form for each of the five periods. |
| `ForkPoint.FindForkPointInChain` | lotus/consensus/find_fork_point.py:8-33 | Terminates for all connected blocks and returns the greatest height up to which the two chains agree. |
| `ForkPoint.NoForkHeight` | lotus/consensus/find_fork_point.py:28-33 | That height is -1 exactly when the genesis blocks differ. |
| `ForkPoint.ForkHeightUnique` | lotus/consensus/find_fork_point.py:8-33 | The height is unique and does not depend on the order of the two chains. |
| `ForkCoins.SinceSplits` | lotus/consensus/block_body_validation.py:275-346 | The coin table of a chain is its table at the fork together with what the branch has added and spent since. |
| `ForkCoins.LookupSeesOwnHistory` | lotus/consensus/block_body_validation.py:348-411 | For every main chain and every branch, the look-up accepts a coin exactly when it exists and is unspent after replaying the block's own ancestors, and reports that replay's height and time. |
| `MainChain.OnMainChain` | lotus/consensus/blockchain.py:857-860 | A block is on the main chain exactly when the height map names it at its own height. |
| `Generators.GetGeneratorsAt` | lotus/full_node/block_store.py:351-380 | From the flagged rows in any order: the generators of the main chain at the given heights in the given order, or an error exactly when one is missing. |
| `Generators.GeneratorsByHash` | lotus/consensus/blockchain.py:868-879 | The same through the hash of each height. |
| `Generators.CollectReorgChain` | lotus/consensus/blockchain.py:880-910 | Holds exactly ancestors of the block, and all of them above a height up to which its ancestors are the main chain. |
| `Generators.GeneratorsInReorg` | lotus/consensus/blockchain.py:912-932 | For references below the block, the generators of its own ancestors, or an error exactly when one is missing. |
| `Generators.GetBlockGenerator` | lotus/consensus/blockchain.py:845-934 | When no reference points at the block's own height or above, every reference resolves to the block's own ancestor at that height, on and off the main chain, with and without additional blocks, for both database versions. |
| `BodyValidation.CollectRewards` | lotus/consensus/block_body_validation.py:98-141 | The walk collects exactly the rewards that the block must claim. |
| `BodyValidation.HasDuplicate` | lotus/consensus/block_body_validation.py:263-273 | Finds a repeated name exactly when there is one. |
| `BodyValidation.NewSinceFork` | lotus/consensus/block_body_validation.py:308-342 | No block of a branch adds or spends again what the branch has added or spent since the fork, so the asserts of the replay loop hold. |
| `BodyValidation.CollectReorgBlocks` | lotus/consensus/block_body_validation.py:290-304 | The collected blocks are the branch's own, and as many as the assert says. |
| `BodyValidation.DeltaSince` | lotus/consensus/block_body_validation.py:286-346 | Collected from the newest block down, the changes are those of the branch since the fork. |
| `BodyValidation.SortRemovals` | lotus/consensus/block_body_validation.py:348-373 | Splits the spent coins into those the block adds itself and those to look up, and fails exactly when the branch has spent one of the latter. |
| `BodyValidation.FindSpentCoins` | lotus/consensus/block_body_validation.py:348-411 | Succeeds exactly when every spent coin can be found, and then has height and time of each. |
| `BodyValidation.FindOrigins` | lotus/consensus/block_body_validation.py:275-411 | Succeeds exactly when every spent coin is added by the block or unspent after replaying its own ancestors. |
| `BodyValidation.CheckClaims` | lotus/consensus/block_body_validation.py:95-224 | Accepts exactly when reward claims, references and cost are right. |
| `BodyValidation.CheckFees` | lotus/consensus/block_body_validation.py:413-445 | Accepts exactly when the declared fees are what is spent less what is created, within the limits. |
| `BodyValidation.CheckTimeLocks` | lotus/full_node/mempool_check_conditions.py:88-110 | Accepts exactly when all absolute and relative height and time conditions hold; `BodyLaws.BodyMeans` spells them out on the rows of the coin table. |
| `BodyValidation.CheckSpends` | lotus/consensus/block_body_validation.py:226-463 | Accepts exactly when checks 10 and 13 to 21 hold on the coins of the block's own ancestors. |
| `BodyValidation.ValidateBlockBody` | lotus/consensus/block_body_validation.py:33-463 | Whatever the main chain is, the body is accepted exactly when it is valid on top of the block's own ancestors. |
| `NodeStores.CoinStore.InsertRows` | lotus/full_node/coin_store.py:499-543 | Succeeds exactly when no coin has a row and none is named twice, and then adds one row each. |
| `NodeStores.CoinStore.SetSpent` | lotus/full_node/coin_store.py:546-577 | Chunk by chunk, succeeds exactly when the names are distinct and every one is an unspent row, and then marks them all. |
| `NodeStores.CoinStore.NewBlock` | lotus/full_node/coin_store.py:108-161 | Succeeds exactly when the block is applicable; the new table is the block applied to the old one, or the old one. |
| `NodeStores.CoinStore.RollbackToBlock` | lotus/full_node/coin_store.py:455-496 | The new table is the old one rolled back, and exactly the changed rows are reported. |
| `NodeStores.BlockStore.SetInChain` | lotus/full_node/block_store.py:154-159 | Flags exactly the given stored rows in addition, in version 2 only. |
| `NodeStores.SummariesExact` | lotus/full_node/block_height_map.py:130-136 | The summaries of a chain are those of its blocks that include one, at their heights. |
| `Reorganisation.CollectBlocksToAdd` | lotus/consensus/blockchain.py:374-389 | The backtracking yields exactly the blocks of the branch above the fork, also when nothing is in common. |
| `Reorganisation.ValidIsApplicable` | lotus/full_node/coin_store.py:108-161 | A valid block can always be applied to the coin table of its ancestors: no insert collides, every spent row is there, and rewards are none at genesis and at least two later. |
| `Reorganisation.FlagsMoved` | lotus/consensus/blockchain.py:420-427 | Flags kept below the fork and flags set for the branch together are exactly the branch. |
| `ForkChoice.RunsAreGood` | lotus/consensus/blockchain.py:202-311 | In every state of every run all blocks are valid on top of their ancestors and none outweighs the peak. |
| `ForkChoice.RunsGrow` | lotus/consensus/blockchain.py:355-358 | Along every run no block is lost, and the peak changes only to a strictly heavier block. |
| `ForkChoice.PeakIsFirstHeaviest` | lotus/consensus/blockchain.py:355-358 | No block ever accepted outweighs a later peak, and one that is as heavy was accepted after the peak was chosen. |
| `ForkChoice.StartingWeight` | lotus/consensus/block_header_validation.py:880-895 | Every valid chain weighs at least as much as a genesis block, so a second genesis never becomes the peak. |
| `FullNode.BlockToBlockRecord` | lotus/consensus/full_block_to_block_record.py:21-60 | The record made of a block with a valid header is the one for which the header rules hold. |
| `FullNode.GetTxRemovalsAndAdditions` | lotus/consensus/blockchain.py:434-454 | What a block of the branch spends and creates, whether from the result at hand or by running its generator again. |
| `FullNode.NoSummaryAtGenesis` | lotus/consensus/block_header_validation.py:391-400 | No valid chain has a summary at height 0, so cutting the height map at 0 instead of -1 loses nothing. |
| `FullNode.RewardsSinceExact` | lotus/consensus/blockchain.py:388-432 | The rewards that are reported are those that the blocks above the fork include. |
| `FullNode.Blockchain.constructor` | lotus/consensus/blockchain.py:110-152 | An empty node with stores of its own is consistent. |
| `FullNode.Blockchain.GetPeak` | lotus/consensus/blockchain.py:181-187 | The record at the peak height is the newest block of the main chain. |
| `FullNode.Blockchain.ApplyBlocks` | lotus/consensus/blockchain.py:391-418 | Applied oldest first to the table at the fork, the branch yields the replay of the whole new chain, and no update fails. |
| `FullNode.Blockchain.MoveCoins` | lotus/consensus/blockchain.py:360-418 | Rolling back to the fork and applying the branch is the replay of the new chain. |
| `FullNode.Blockchain.Reorganise` | lotus/consensus/blockchain.py:360-432 | Coins, flags, peak, added records and reported change all belong to the new chain. |
| `FullNode.Blockchain.ReconsiderPeak` | lotus/consensus/blockchain.py:313-432 | Nothing changes unless the block outweighs the peak or is the first; then the stores move to its branch. |
| `FullNode.Blockchain.UpdateHeights` | lotus/consensus/blockchain.py:278-286 | After cut and updates the height map and its summaries are those of the new chain, also after a reorganisation to another genesis. |
| `FullNode.Blockchain.ReceiveBlock` | lotus/consensus/blockchain.py:202-311 | A block is accepted exactly when it is new, connected, pre-validated and its body is valid on top of its ancestors; it becomes the peak exactly when it outweighs it; afterwards coin table, flags, height map, summaries and peak height all describe the path to the peak; otherwise nothing changes. |
| `FullNode.Blockchain.AddValidated` | lotus/consensus/blockchain.py:246-311 | A connected block with a valid header is added exactly when its body is valid; the summary says where the main chains before and after part, which rows taking back leads to the fork, and which rewards come after it. |
| `BatchValidation.PrevBlocks` | lotus/consensus/multiprocess_validation.py:307-316 | The walk collects exactly the ancestors of a block within the batch. |
| `BatchValidation.BatchAncestry` | lotus/consensus/multiprocess_validation.py:307-322 | Tree and batch together give every block of the batch its own ancestors, to which its generator refers. |
| `BatchValidation.ValidateOne` | lotus/consensus/multiprocess_validation.py:68-121 | Validated with one window, a block on valid ancestors passes only with a valid header and the true result of its generator, and whenever its header is valid and its generator runs; if its references point below it, exactly then. |
| `BatchValidation.RunWorkers` | lotus/consensus/multiprocess_validation.py:291-361 | Part by part, each with its own window, the results of all blocks are honest; it fails only when the generator of some block cannot be run. |
| `BatchValidation.PrevalidatedFrom` | lotus/consensus/multiprocess_validation.py:223-361 | Results that are honest block by block are honest for the chain that the batch makes, as if each block before were accepted. |
| `BatchValidation.FitNotRefused` | lotus/consensus/multiprocess_validation.py:224-273 | No block of a batch with valid headers, running generators, valid proofs of space and summaries is refused, whatever else its bodies hold. |
| `BatchValidation.PreValidateBatch` | lotus/consensus/multiprocess_validation.py:163-361 | For every batch of new blocks, every part size and every tree: the results are honest; there is no error when all headers are valid, all generators run and all proofs and summaries are valid, and, if no generator refers to its own height or above, only then; and what stays in the tree is exactly stated. |
| `BatchSync.ExtensionIsHeavier` | lotus/full_node/full_node.py:1153-1154 | A valid block on top of the peak always becomes the peak. |
| `BatchSync.ReportsGrow` | lotus/full_node/full_node.py:1153-1162 | Appending the summary of a block on top to a summary, with the old fork height, is a right summary of the whole way. |
| `BatchSync.SummaryNext` | lotus/full_node/full_node.py:1140-1162 | When the peak moves in a batch it moves to the batch, from then on every block moves it one up, and the summary so far is right. |
| `BatchSync.UnknownOn` | lotus/full_node/full_node.py:1109-1115 | After the first unknown block of a batch every block is unknown. |
| `BatchSync.ForkPointKept` | lotus/full_node/full_node.py:1109-1115 | A fork point of the batch remains one after the known blocks are skipped. |
| `BatchSync.ReceiveNext` | lotus/full_node/full_node.py:1140-1167 | One block is accepted exactly when its body is valid; the fork point stays good until the peak moves, and the summary remains one of the whole way. |
| `BatchSync.TakenExact` | lotus/full_node/full_node.py:1140-1167 | Receiving new contiguous blocks up to the first invalid one adds exactly the blocks before it to the tree, which are all of them exactly when the whole batch is valid, and changes nothing that was there. |
| `BatchSync.ReceiveAll` | lotus/full_node/full_node.py:1138-1174 | New, pre-validated blocks are received with success exactly when all are valid on top of each other. In any case exactly the blocks before the first invalid one have been accepted, one after the other; after a success the last is the peak if the peak has moved; and the summary leads from the main chain before to the one after. |
| `BatchSync.ReceiveBatch` | lotus/full_node/full_node.py:1098-1174 | A contiguous batch succeeds exactly when, from its first unknown block on, it is connected, all headers and bodies are valid on top of each other and all proofs and summaries are valid; then all its blocks are accepted. A batch that passes pre-validation (valid headers, running generators, valid proofs and summaries) is accepted exactly up to its first invalid body, and one that does not changes nothing, if no generator in it refers to its own height or above. The summary leads from the main chain before to the one after, and the node stays consistent unless pre-validation left records behind. |
| `NodeRuns.RespondBlock` | lotus/full_node/full_node.py:1536-1574 | A block from a peer is accepted exactly when it is new, connected, valid in header and body on top of its own ancestors, and its proof of space and summary are valid; otherwise nothing changes, whatever pre-validation ended with. |
| `NodeRuns.RunNode` | lotus/full_node/full_node.py:1098-1574 | From an empty node on, whatever arrives, single blocks and contiguous batches in any order: its worlds form a run, each arrival meets the world that the one before left, it is accepted exactly when it is valid there, and the next world is then that one with its new blocks accepted one after the other; a refused block changes nothing, and of a refused batch nothing or the blocks before the first invalid one are accepted. In the end all stores describe the path to the peak. Only a batch that leaves records in memory stops this: it is not valid, the records are those of its new blocks before the one where pre-validation gave up, and the database is as before it. |
| `NodeRuns.LoggedAt` | lotus/full_node/full_node.py:1098-1574 | In such a run the way between two arrivals accepts blocks of the first of them only, and what this arrival did to the world that it met is as stated for `RunNode`. |
| `NodeRuns.AcceptedStays` | lotus/full_node/full_node.py:1098-1574 | All blocks of an accepted arrival are in every later world of the run. |
| `NodeRuns.NeverTwice` | lotus/full_node/full_node.py:1536-1539 | A block that was accepted, alone or in a batch, is not accepted again when it arrives alone later, and changes nothing then. |
| `BlockCreation.GetPrevTransactionBlock` | lotus/util/prev_transaction_block.py:8-21 | Decides whether a signage point comes after the newest transaction block, and returns that block if so. |
| `BlockCreation.BuildRewardClaims` | lotus/consensus/block_creation.py:149-188 | The list of claims has no duplicates and is exactly the set the validator expects. |
| `BlockCreation.CreateFoliage` | lotus/consensus/block_creation.py:77-260 | A body is made exactly for transaction blocks, with the right previous transaction block and claims. |
| `BlockCreation.CreatedIters` | lotus/consensus/block_creation.py:338-373 | The total iterations written put the signage point's sub-slot where the caller says it starts. |
| `BlockCreation.ClaimsFit` | lotus/consensus/block_creation.py:149-188 | Claims made on a chain are those expected on a chain grown from it if and only if no transaction block was added. |
| `BlockCreation.StillTransactionBlock` | lotus/consensus/block_creation.py:453-486 | On top of blocks infused since the signage point, a block is a transaction block exactly when it was made as one and none of them is one. |
| `BlockCreation.UnfinishedToFullBlock` | lotus/consensus/block_creation.py:419-521 | The finished block has the right height, weight and parent, and if it is a transaction block its claims are exactly the ones expected there. |
| `DbValidate.PathPrefix` | lotus/cmds/db_validate_func.py:96-166 | A stored path satisfies the condition of the scan on every prefix of the rows, so nothing valid is refused. |
| `DbValidate.RowDecides` | lotus/cmds/db_validate_func.py:134-166 | A row passes exactly when the condition still holds with it. |
| `DbValidate.ScanRow` | lotus/cmds/db_validate_func.py:96-166 | One row of the scan passes or raises an error as the condition says. |
| `DbValidate.ValidateV2` | lotus/cmds/db_validate_func.py:30-184 | Accepts exactly when version and peak are there and the flagged rows at or below the peak are the path of parents from the peak, one per stored height, down to a height-0 row whose parent is the genesis challenge. |
| `DbValidate.NoGaps` | lotus/cmds/db_validate_func.py:134-144 | An accepted path has consecutive heights exactly when every height up to the peak is stored. |
| `DbValidate.GapAccepted` | lotus/cmds/db_validate_func.py:134-144 | A database that lacks a height is accepted. |
| `DbUpgrade.ConvertBlocks` | lotus/cmds/db_upgrade_func.py:183-262 | The merge writes a path of parents from the peak at consecutive heights, every row a copy of a record and of a block with its hash: parent, summary and record blob from the record, height, compactness and block blob from the block. From a database in order it succeeds if and only if the peak is above height 0, and then writes the whole path, whatever the size of a batch. |
| `DbUpgrade.GenesisAloneFails` | lotus/cmds/db_upgrade_func.py:241-246 | A store in order that holds a genesis block alone cannot be converted. |
| `DbUpgrade.ConvertedIsValid` | lotus/cmds/db_upgrade_func.py:183-262 | What is written is accepted by validation exactly when the version 1 path from the peak reaches the genesis challenge and, if the blobs are looked at, those of version 1 agree with each other and with their columns. |
| `DbUpgrade.ConvertCoins` | lotus/cmds/db_upgrade_func.py:342-394 | The copied coins are the coin table rolled back to the peak's height. |
| `DbUpgrade.SnapshotIsReplay` | lotus/cmds/db_upgrade_func.py:342-394 | Whatever was added above the peak meanwhile, the copy is the replay up to the peak. |
| `DefaultConstants.DefaultsAreValid` | lotus/consensus/default_constants.py:5-54 | The default constants meet every condition used here. |
| `DefaultConstants.DefaultTimes` | lotus/consensus/default_constants.py:5-27 | At the target rate an epoch takes a day and twelve sub-epochs, and rewards halve every three times 365 epochs until the twelfth such year. |
| `DefaultConstants.FirstBlockAcceptable` | lotus/consensus/block_header_validation.py:827-920 | With the default constants an empty node accepts a first block. |
| `DefaultConstants.LateSecondRefused` | lotus/consensus/get_block_challenge.py:84-101 | A second block in the sub-slot of genesis that satisfies every other rule, for which no challenge is found. |
| `DefaultConstants.LeftoverExample` | lotus/consensus/multiprocess_validation.py:224-283 | Pre-validating a valid first block and a second one with too high a signage point index leaves the record of the first in the tree. |

## Left out

- VDF proofs, signatures, proofs of space, CLVM, Merkle roots, the BIP158 filter and hash commitments: foreign libraries; a header here is what the structural rules read, and the proof-of-space check is a parameter.
- Infused-challenge-chain rules (2e-2k, 31) and the content of sub-epoch summaries (3c, make_sub_epoch_summary): a summary is only its hash, and whether it is the right one a parameter.
- HeaderValidation.CheckSubSlots: does not model rules 2d-2k, 2o and 2p, because they are about the infused challenge chain and VDF proofs.
- HeaderValidation.CheckSlotEnd: does not model rule 3c, because it compares the content of a summary.
- HeaderValidation.CheckTransaction: does not model rules 16-23, 25 and 26a, because they compare hashes, signatures and the clock.
- HeaderValidation.ValidateHeader: does not model VDF proofs, signatures and hash commitments, and does not tell the header error codes apart, because they carry no state.
- BodyValidation.CheckClaims: does not model checks 7a and 8a, because they compare hashes.
- BodyValidation.CheckSpends: does not model checks 11 and 12, because they compare Merkle roots and the filter.
- BodyValidation.ValidateBlockBody: does not model checks 3, 4, 7a, 8a, 11, 12 and 22, because they compare hashes, filters and signatures; and does not fix which of several errors is reported, because the look-ups depend on database order.
- Block record cache eviction (clean_block_record, heights_in_cache) and warm-up: the cache holds every accepted block.
- Asyncio, locks, executors and SQLite: a transaction either happens or leaves no trace.
- FullNode.BlockToBlockRecord: does not compute the sub-epoch summary again, because its content is a parameter.
- FullNode.Blockchain.ReceiveBlock: does not return the generator results of the state change, because they are only forwarded.
- BlockCreation.CreateFoliage: does not model roots, the filter and the cost run, because they are foreign libraries.
- final_eos_is_already_included, skip_overflow_last_ss_validation and the can_finish_soon estimate: heuristics for unfinished blocks.
- BatchSync.ReceiveBatch: for a batch that fails and in which a generator refers to its own height or above, it is not fixed whether nothing or exactly the blocks before the first invalid one are accepted, because such a look-up depends on the main chain of the node and not on the ancestors of the block; and a first block that does not stand one above its known parent is refused at once, so that what pre-validation would leave behind in that case is not modelled.
- BatchValidation.ValidateOne: does not check signatures and VDF proofs, because they are foreign libraries; that the start of each VDF is found is part of it.
- BatchValidation.RunWorkers: every failed look-up of a generator is reported as one error, because the program catches the error of a bad reference only and a failed assert would propagate; the batch fails in both cases.
- NodeRuns.RespondBlock: does not use the cached pre-validation result of an unfinished block, because the store of unfinished blocks is not modelled.
- NodeRuns.RunNode: batches come without a fork point, as in the short batch sync; with one, `BatchSync.ReceiveBatch` relies on its being common to both chains.
- Range checks of fixed-width integers other than the ones named in the rules.
- DbUpgrade.ConvertBlocks: does not model sub-epoch segments and hints, which are copied row by row, nor a clock that stands still between two commits.
- The rest of the repository: wallet, daemon, data layer, plotting, networking and command line.
