/**
  Values shared by every part of the consensus model.

  Cryptographic names are modelled by their meaning: a hash is an opaque value that
  names one thing only, and a coin is its own name, so that two coins have the same
  name exactly when parent, puzzle hash and amount agree.
 */
module Types {

  datatype Option<+T> = None | Some(value: T)

  datatype Result<+T> = Ok(value: T) | Err(error: Error)

  /** The reasons for which the modelled code refuses, one per error code or failing assert. */
  datatype Error =
    | NotBlockButHasData | IsTransactionBlockButNoData
    | InvalidRewardCoins | InvalidGeneratorRefs | TooManyGeneratorRefs | FutureGeneratorRefs
    | GeneratorRefHasNoGenerator | GeneratorRuntimeError | FailedGettingGenerator
    | BlockCostExceedsMax | InvalidBlockCost | CoinAmountExceedsMaximum
    | DuplicateOutput | DoubleSpend | DoubleSpendInFork | UnknownUnspent
    | MintingCoin | ReserveFeeConditionFailed | InvalidBlockFeeAmount | WrongPuzzleHash
    | TimeLockFailed
    | InvalidPrevBlockHash | InvalidHeight | InvalidHeader | InvalidPospace | InvalidSubEpochSummary
    | AssertionFailed | MissingBlock | DivisionByZero

  /** A 32-byte identifier. */
  datatype Hash = Hash(bits: nat)

  /** A serialized generator program. */
  datatype Program = Program(code: nat)

  /** What a coin descends from: the reward of a block height, or the spend of another coin. */
  datatype Parent = PoolReward(height: nat) | FarmerReward(height: nat) | SpentCoin(coin: Coin)

  datatype Coin = Coin(parent: Parent, puzzleHash: Hash, amount: nat)

  /** A row of the coin table. A spent index of zero means unspent. */
  datatype CoinRecord = CoinRecord(confirmed: nat, spent: nat, coinbase: bool, timestamp: nat)

  datatype NewCoin = NewCoin(puzzleHash: Hash, amount: nat)

  datatype Spend = Spend(coin: Coin, puzzleHash: Hash, created: seq<NewCoin>,
                         heightRelative: Option<nat>, secondsRelative: nat)

  datatype Conditions = Conditions(spends: seq<Spend>, reserveFee: nat,
                                   heightAbsolute: nat, secondsAbsolute: nat)

  const NO_CONDITIONS := Conditions([], 0, 0, 0)

  /** What running a generator program yields. */
  datatype NpcResult = NpcError | NpcResult(conditions: Conditions, cost: nat)

  /** An end-of-sub-slot bundle, reduced to the parts the structural rules read. */
  datatype SubSlot = SubSlot(
    challenge: Hash,                 // challenge of the challenge-chain end-of-slot VDF
    iterations: nat,                 // iterations of that VDF: the length of the sub-slot
    ccHash: Hash,                    // hash of the challenge-chain sub-slot
    rcHash: Hash,                    // hash of the reward-chain sub-slot
    deficit: nat,                    // deficit written in the reward-chain sub-slot
    summary: Option<Hash>,           // sub-epoch summary hash
    newSubSlotIters: Option<nat>,
    newDifficulty: Option<nat>)

  /** The transaction-block part of the foliage. */
  datatype Foliage = Foliage(prevTransactionBlock: Hash, timestamp: nat)

  datatype TransactionsInfo = TransactionsInfo(fees: nat, cost: nat, rewardClaims: seq<Coin>)

  datatype FullBlock = FullBlock(
    headerHash: Hash,
    prevHash: Hash,
    height: nat,
    weight: nat,
    totalIters: nat,
    signagePointIndex: nat,
    posChallenge: Hash,              // challenge that the proof of space says it answers
    requiredIters: nat,              // iterations that the proof of space asks for
    finishedSubSlots: seq<SubSlot>,
    foliage: Option<Foliage>,        // present iff this is a transaction block
    info: Option<TransactionsInfo>,
    generator: Option<Program>,
    generatorRefs: seq<nat>,
    poolPuzzleHash: Hash,
    farmerPuzzleHash: Hash,
    ccOutput: Hash,                  // challenge-chain VDF output at the infusion point
    rewardChallenge: Hash)           // reward-chain challenge started by infusing this block
  {
    predicate IsTransactionBlock() { foliage.Some? }

    /** The reward coins that this block adds to the coin set. */
    function IncludedRewardCoins(): seq<Coin> {
      if IsTransactionBlock() && info.Some? then info.value.rewardClaims else []
    }
  }

  /**
    The cached record of an accepted block. The program copies the block fields that later
    code reads into the record; here the record keeps the block itself, plus the two values
    that are computed when the record is made.
   */
  datatype BlockRecord = BlockRecord(block: FullBlock, subSlotIters: nat, deficit: nat)
  {
    predicate IsTransactionBlock() { block.IsTransactionBlock() }

    /** True for the first block of a sub-slot; genesis always counts as one. */
    predicate FirstInSubSlot() { block.finishedSubSlots != [] || block.height == 0 }

    /** Whether a sub-epoch summary is included; only the first finished sub-slot can carry it. */
    predicate SummaryIncluded() {
      block.finishedSubSlots != [] && block.finishedSubSlots[0].summary.Some?
    }
  }

  /** The consensus constants, together with the program that runs generators. */
  datatype Consensus = Consensus(
    slotBlocksTarget: nat,
    minBlocksPerChallengeBlock: nat,
    maxSubSlotBlocks: nat,
    numSpsSubSlot: nat,
    numSpIntervalsExtra: nat,
    subSlotItersStarting: nat,
    difficultyStarting: nat,
    difficultyChangeMaxFactor: nat,
    subEpochBlocks: nat,
    epochBlocks: nat,
    significantBits: nat,
    subSlotTimeTarget: nat,
    numberOfTimestamps: nat,
    genesisChallenge: Hash,
    maxCoinAmount: nat,
    maxBlockCost: nat,
    maxGeneratorRefs: nat,
    run: (Program, seq<Program>) -> NpcResult)
}
