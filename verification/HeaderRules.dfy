/**
  The structural header rules as a step relation: when a record may extend a chain.
  Signatures, proofs of space and VDF proofs are not part of these rules, so every chain
  that the program accepts satisfies them.
 */
module HeaderRules {
  import opened Types
  import opened Chains
  import opened PotIterations
  import opened SignificantBits
  import Arithmetic

  /** What the proofs need of the constants. */
  ghost predicate ValidConstants(c: Consensus) {
    && c.minBlocksPerChallengeBlock >= 2
    && 2 * c.minBlocksPerChallengeBlock + 1 < c.maxSubSlotBlocks
    && 2 * c.maxSubSlotBlocks + c.minBlocksPerChallengeBlock < c.subEpochBlocks
    && c.epochBlocks % c.subEpochBlocks == 0
    && c.epochBlocks >= 4 * c.maxSubSlotBlocks + 2 * c.minBlocksPerChallengeBlock + 6
    && 0 < c.numSpIntervalsExtra < c.numSpsSubSlot
    && (exists k :: c.numSpsSubSlot == Pow2(k))
    && GoodSubSlotIters(c, c.subSlotItersStarting)
    && c.difficultyStarting > 0 && c.difficultyChangeMaxFactor > 0
    && c.significantBits > 0 && c.slotBlocksTarget > 0 && c.numberOfTimestamps > 0
  }

  /** A sub-slot length the chain may use. */
  ghost predicate GoodSubSlotIters(c: Consensus, ssi: nat) {
    && c.numSpsSubSlot > 0 && ssi > 0 && Arithmetic.Multiple(ssi, c.numSpsSubSlot)
    && CountSignificantBits(ssi) <= c.significantBits
  }

  // ---------------------------------------------------------------- iterations of a record

  predicate Overflow(c: Consensus, r: BlockRecord) {
    IsOverflowBlock(c, r.block.signagePointIndex)
  }

  /** Iterations from the start of its sub-slot to the infusion of a block. */
  function Ip(c: Consensus, r: BlockRecord): nat {
    if c.numSpsSubSlot == 0 || r.subSlotIters == 0 then 0
    else IpIters(c, r.subSlotIters, r.block.signagePointIndex, r.block.requiredIters)
  }

  /** Iterations from the start of its sub-slot to the signage point of a block. */
  function Sp(c: Consensus, r: BlockRecord): nat {
    if c.numSpsSubSlot == 0 then 0 else SpIters(c, r.subSlotIters, r.block.signagePointIndex)
  }

  /** Total iterations at the start of the sub-slot in which a block is infused. */
  function SlotStart(c: Consensus, r: BlockRecord): int {
    r.block.totalIters - Ip(c, r)
  }

  /** Total iterations at the start of the sub-slot of the signage point. */
  function SpSlotStart(c: Consensus, r: BlockRecord): int {
    SlotStart(c, r) - (if Overflow(c, r) then r.subSlotIters else 0)
  }

  /** Total iterations at the signage point. */
  function SpTotalIters(c: Consensus, r: BlockRecord): int {
    SpSlotStart(c, r) + Sp(c, r)
  }

  // ---------------------------------------------------------------- walks along a chain

  /** The chain up to the first block of the current sub-slot. */
  function FirstOfSlot(ch: Chain): Chain {
    if ch.Empty? || ch.top.FirstInSubSlot() then ch else FirstOfSlot(ch.prev)
  }

  function BlocksInSlot(ch: Chain): int {
    Height(ch) - Height(FirstOfSlot(ch)) + 1
  }

  /** The chain up to its newest transaction block. */
  function LastTx(ch: Chain): Chain {
    if ch.Empty? || ch.top.IsTransactionBlock() then ch else LastTx(ch.prev)
  }

  /** Whether some block at height h or above includes a sub-epoch summary. */
  predicate SummarySince(ch: Chain, h: int) {
    ch.Snoc? && ch.top.block.height >= h && (ch.top.SummaryIncluded() || SummarySince(ch.prev, h))
  }

  /** The hashes that end one sub-slot and start the next, on the two chains. */
  datatype SlotHashes = SlotHashes(cc: Hash, rc: Hash)

  function HashesOf(slots: seq<SubSlot>): (hs: seq<SlotHashes>)
    ensures |hs| == |slots|
    ensures forall i | 0 <= i < |slots| :: hs[i] == SlotHashes(slots[i].ccHash, slots[i].rcHash)
  {
    if slots == [] then []
    else HashesOf(slots[..|slots| - 1]) + [SlotHashes(slots[|slots| - 1].ccHash, slots[|slots| - 1].rcHash)]
  }

  /** The hashes of the sub-slots finished before a block; genesis may have none of its own. */
  function FinishedSlots(c: Consensus, r: BlockRecord): seq<SlotHashes> {
    if r.block.finishedSubSlots == [] then [SlotHashes(c.genesisChallenge, c.genesisChallenge)]
    else HashesOf(r.block.finishedSubSlots)
  }

  /** The hashes that started the current sub-slot. */
  function CurrentHashes(c: Consensus, ch: Chain): SlotHashes
    requires ch.Snoc?
  {
    var f := FirstOfSlot(ch);
    if f.Empty? then SlotHashes(c.genesisChallenge, c.genesisChallenge)
    else var hs := FinishedSlots(c, f.top); hs[|hs| - 1]
  }

  // ---------------------------------------------------------------- deficit and sub-epochs

  function CalculateDeficit(c: Consensus, height: nat, prev: Option<BlockRecord>, overflow: bool, finished: nat): int {
    if height == 0 || prev.None? then c.minBlocksPerChallengeBlock - 1
    else
      var d := prev.value.deficit;
      if d == c.minBlocksPerChallengeBlock then
        if overflow && finished == 0 then d else d - 1
      else if d == 0 then
        if finished == 0 then 0
        else if finished == 1 && overflow then c.minBlocksPerChallengeBlock
        else c.minBlocksPerChallengeBlock - 1
      else d - 1
  }

  function Top(ch: Chain): Option<BlockRecord> {
    if ch.Empty? then None else Some(ch.top)
  }

  predicate HeightCanBeFirstInEpoch(c: Consensus, height: nat)
    requires c.subEpochBlocks > 0 && c.epochBlocks > 0
  {
    (height - height % c.subEpochBlocks) % c.epochBlocks == 0
  }

  /** First height of the sub-epoch window that a height belongs to. */
  function WindowStart(c: Consensus, height: nat): nat
    requires c.subEpochBlocks > 0
  {
    height - height % c.subEpochBlocks
  }

  /** Whether a sub-slot ending after the block at the given height ends a sub-epoch. */
  predicate CanFinishSubEpoch(c: Consensus, parents: Chain, height: nat, deficit: nat, included: bool)
    requires c.subEpochBlocks > 0
  {
    && height + 1 >= c.subEpochBlocks
    && deficit == 0
    && !included
    && ((height + 1) % c.subEpochBlocks > 1 ==> !SummarySince(parents, WindowStart(c, height + 1)))
  }

  predicate FinishesSubEpoch(c: Consensus, ch: Chain)
    requires c.subEpochBlocks > 0
  {
    ch.Snoc? && CanFinishSubEpoch(c, ch.prev, ch.top.block.height, ch.top.deficit, ch.top.SummaryIncluded())
  }

  predicate FinishesEpoch(c: Consensus, ch: Chain)
    requires c.subEpochBlocks > 0 && c.epochBlocks > 0
  {
    FinishesSubEpoch(c, ch) && HeightCanBeFirstInEpoch(c, ch.top.block.height + 1)
  }

  // ---------------------------------------------------------------- difficulty and sub-slot length

  datatype Params = Params(subSlotIters: nat, difficulty: nat)

  function Root(ch: Chain): BlockRecord
    requires ch.Snoc?
  {
    if ch.prev.Empty? then ch.top else Root(ch.prev)
  }

  /** The newest transaction block but one. */
  function SecondLastTx(ch: Chain): Option<BlockRecord> {
    var t := LastTx(ch);
    if t.Empty? then None else Top(LastTx(t.prev))
  }

  /** The chain up to the first block at height h or above that includes a summary. */
  function FirstSummaryFrom(ch: Chain, h: int): Chain {
    if ch.Empty? || ch.top.block.height < h then Empty
    else
      var d := FirstSummaryFrom(ch.prev, h);
      if d.Snoc? then d else if ch.top.SummaryIncluded() then ch else Empty
  }

  /** Height at which the epoch before the one that ends near `last` was surpassed. */
  function PrevEpochSurpass(c: Consensus, last: int): int
    requires c.epochBlocks > 0
  {
    var next := last + 2 * c.maxSubSlotBlocks + c.minBlocksPerChallengeBlock + 5;
    next - next % c.epochBlocks - c.epochBlocks
  }

  /** The block from which an epoch is measured: the last transaction block but one before the
      block that started the epoch, or genesis for the first epoch. */
  function PrevEpochMark(c: Consensus, last: Chain): Option<BlockRecord>
    requires c.epochBlocks > 0
  {
    var s := PrevEpochSurpass(c, Height(last));
    if last.Empty? || s < 0 then None
    else if s == 0 then Some(Root(last))
    else
      var q := FirstSummaryFrom(last, s);
      if q.Empty? then None else SecondLastTx(q.prev)
  }

  /** The chain up to the newest transaction block infused no later than a signage point. */
  function MeasuredAt(ch: Chain, spTotalIters: int): Chain {
    if ch.Empty? || (ch.top.block.totalIters <= spTotalIters && ch.top.IsTransactionBlock()) then ch
    else MeasuredAt(ch.prev, spTotalIters)
  }

  function Min(a: nat, b: nat): nat { if a <= b then a else b }
  function Max(a: nat, b: nat): nat { if a <= b then b else a }

  /** Floor division of a product. */
  function Ratio(a: nat, b: nat, d: nat): nat
    requires d > 0
  {
    a * b / d
  }

  /** Rounds down to a multiple. */
  function RoundDown(x: nat, m: nat): nat
    requires m > 0
  {
    x - x % m
  }

  /** Limits a change to the maximal factor in either direction, and to a floor. */
  function Clip(c: Consensus, precise: nat, current: nat, floor: nat): nat
    requires c.difficultyChangeMaxFactor > 0
  {
    if precise >= current then Min(precise, c.difficultyChangeMaxFactor * current)
    else Max(floor, Max(precise, current / c.difficultyChangeMaxFactor))
  }

  function NewSubSlotIters(c: Consensus, iters: nat, seconds: nat, current: nat): nat
    requires seconds > 0 && c.difficultyChangeMaxFactor > 0 && c.numSpsSubSlot > 0
  {
    var precise := Ratio(c.subSlotTimeTarget, iters, seconds);
    RoundDown(TruncateToSignificantBits(Clip(c, precise, current, c.numSpsSubSlot), c.significantBits), c.numSpsSubSlot)
  }

  function NewDifficulty(c: Consensus, weight: nat, seconds: nat, current: nat): nat
    requires seconds > 0 && c.difficultyChangeMaxFactor > 0 && c.slotBlocksTarget * seconds > 0
  {
    var precise := Ratio(weight, c.subSlotTimeTarget, c.slotBlocksTarget * seconds);
    TruncateToSignificantBits(Clip(c, precise, current, 1), c.significantBits)
  }

  /** The two blocks an epoch is measured between; None when the program would fail an assert. */
  function EpochMeasure(c: Consensus, ch: Chain): Option<(BlockRecord, BlockRecord)>
    requires ch.Snoc? && c.epochBlocks > 0
  {
    var from := PrevEpochMark(c, ch.prev);
    var to := MeasuredAt(ch.prev, SpTotalIters(c, ch.top));
    if from.None? || to.Empty? || from.value.block.foliage.None? || to.top.block.foliage.None? then None
    else Some((from.value, to.top))
  }

  /** Difficulty of a block: the weight it adds. */
  function DifficultyOf(ch: Chain): int
    requires ch.Snoc?
  {
    ch.top.block.weight - (if ch.prev.Empty? then 0 else ch.prev.top.block.weight)
  }

  function NextSubSlotIters(c: Consensus, ch: Chain, newSlot: bool): Option<nat>
    requires ch.Snoc? && c.subEpochBlocks > 0 && c.epochBlocks > 0
    requires c.difficultyChangeMaxFactor > 0 && c.numSpsSubSlot > 0
  {
    if ch.top.block.height + 1 < c.epochBlocks then Some(c.subSlotItersStarting)
    else if ch.prev.Empty? then None
    else if !newSlot || !FinishesEpoch(c, ch) then Some(ch.top.subSlotIters)
    else
      var m := EpochMeasure(c, ch);
      if m.None? then None else ItersBetween(c, m.value.0, m.value.1)
  }

  /** Seconds between two transaction blocks. */
  function SecondsBetween(from: BlockRecord, to: BlockRecord): int {
    if from.block.foliage.None? || to.block.foliage.None? then 0
    else to.block.foliage.value.timestamp - from.block.foliage.value.timestamp
  }

  /** The sub-slot length that an epoch measured between two blocks leads to. */
  function ItersBetween(c: Consensus, from: BlockRecord, to: BlockRecord): Option<nat>
    requires c.difficultyChangeMaxFactor > 0 && c.numSpsSubSlot > 0
  {
    var iters, seconds := to.block.totalIters - from.block.totalIters, SecondsBetween(from, to);
    if iters < 0 || seconds <= 0 then None else Some(NewSubSlotIters(c, iters, seconds, to.subSlotIters))
  }

  /** The difficulty that an epoch measured between two blocks leads to. */
  function DifficultyBetween(c: Consensus, from: BlockRecord, to: BlockRecord, current: int): Option<nat>
    requires c.difficultyChangeMaxFactor > 0
  {
    var weight, seconds := to.block.weight - from.block.weight, SecondsBetween(from, to);
    if weight < 0 || seconds <= 0 || current < 0 || c.slotBlocksTarget * seconds <= 0 then None
    else Some(NewDifficulty(c, weight, seconds, current))
  }

  function NextDifficulty(c: Consensus, ch: Chain, newSlot: bool): Option<nat>
    requires ch.Snoc? && c.subEpochBlocks > 0 && c.epochBlocks > 0
    requires c.difficultyChangeMaxFactor > 0 && c.slotBlocksTarget > 0
  {
    if ch.top.block.height + 1 < c.epochBlocks - 3 * c.maxSubSlotBlocks then Some(c.difficultyStarting)
    else if ch.prev.Empty? then None
    else if !newSlot || !FinishesEpoch(c, ch) then
      if DifficultyOf(ch) < 0 then None else Some(DifficultyOf(ch))
    else
      var m := EpochMeasure(c, ch);
      if m.None? then None else DifficultyBetween(c, m.value.0, m.value.1, DifficultyOf(ch.prev))
  }

  /** Sub-slot length and difficulty of a block that extends the chain. */
  function NextParams(c: Consensus, ch: Chain, newSlot: bool): Option<Params>
    requires c.subEpochBlocks > 0 && c.epochBlocks > 0
    requires c.difficultyChangeMaxFactor > 0 && c.slotBlocksTarget > 0 && c.numSpsSubSlot > 0
  {
    if ch.Empty? then Some(Params(c.subSlotItersStarting, c.difficultyStarting))
    else if DifficultyOf(ch) < 0 then None
    else if ch.top.SummaryIncluded() then Some(Params(ch.top.subSlotIters, DifficultyOf(ch)))
    else
      var d, s := NextDifficulty(c, ch, newSlot), NextSubSlotIters(c, ch, newSlot);
      if d.None? || s.None? then None else Some(Params(s.value, d.value))
  }

  // ---------------------------------------------------------------- the step relation

  function Finished(r: BlockRecord): nat { |r.block.finishedSubSlots| }

  ghost predicate Follows(c: Consensus, ch: Chain, r: BlockRecord) {
    && r.block.height == Height(ch) + 1
    && r.block.prevHash == (if ch.Empty? then c.genesisChallenge else ch.top.block.headerHash)
  }

  /** Rules 7, 27 and 28, and the values stored in the record. */
  ghost predicate ParamsOk(c: Consensus, ch: Chain, r: BlockRecord)
    requires ValidConstants(c)
  {
    var p := NextParams(c, ch, Finished(r) > 0);
    && p.Some?
    && r.subSlotIters == p.value.subSlotIters
    && r.block.weight == (if ch.Empty? then 0 else ch.top.block.weight) + p.value.difficulty
    && r.deficit == CalculateDeficit(c, r.block.height, Top(ch), Overflow(c, r), Finished(r))
    && Placeable(c, r.subSlotIters, r.block.signagePointIndex, r.block.requiredIters)
  }

  /** Rules 2a-2c, 2l-2n and 2q-2t on the i-th finished sub-slot. */
  ghost predicate SubSlotOk(c: Consensus, ch: Chain, r: BlockRecord, i: nat)
    requires ValidConstants(c) && i < Finished(r)
  {
    var s := r.block.finishedSubSlots[i];
    && s.challenge == (if i > 0 then r.block.finishedSubSlots[i - 1].ccHash
                       else if ch.Empty? then c.genesisChallenge else CurrentHashes(c, ch).cc)
    && s.iterations == (if i == 0 && ch.Snoc? then ch.top.subSlotIters else r.subSlotIters)
    && s.deficit == (if ch.Empty? || ch.top.deficit == 0 then c.minBlocksPerChallengeBlock else ch.top.deficit)
    && (i > 0 ==> s.summary.None?)
    && var changes := s.summary.Some? && FinishesEpoch(c, ch);
    && s.newSubSlotIters == (if changes then Some(r.subSlotIters) else None)
    && s.newDifficulty == (if changes then Some(r.block.weight - ch.top.block.weight) else None)
  }

  /** Rule 3: a summary is included exactly when a sub-slot ends and the sub-epoch can finish. */
  ghost predicate SummaryOk(c: Consensus, ch: Chain, r: BlockRecord)
    requires ValidConstants(c)
  {
    r.SummaryIncluded() <==> Finished(r) > 0 && FinishesSubEpoch(c, ch)
  }

  /** Rule 4: a bounded number of blocks per sub-slot. */
  ghost predicate CountOk(c: Consensus, ch: Chain, r: BlockRecord) {
    Finished(r) == 0 && ch.Snoc? ==> BlocksInSlot(ch) + 1 <= c.maxSubSlotBlocks
  }

  /** Rule 9: no overflow block in the first sub-slot of an epoch. */
  ghost predicate OverflowOk(c: Consensus, ch: Chain, r: BlockRecord)
    requires ValidConstants(c)
  {
    Overflow(c, r) && Finished(r) > 0 && FinishesEpoch(c, ch) ==> Finished(r) >= 2
  }

  /** Rule 10: total iterations. They never decrease inside a sub-slot, and no signage point
      lies before the first iteration (both would fail a conversion to an unsigned integer). */
  ghost predicate ItersOk(c: Consensus, ch: Chain, r: BlockRecord) {
    && SlotStart(c, r) ==
         (if ch.Empty? then r.subSlotIters * Finished(r)
          else if Finished(r) == 0 then SlotStart(c, ch.top)
          else SlotStart(c, ch.top) + ch.top.subSlotIters + r.subSlotIters * (Finished(r) - 1))
    && SpTotalIters(c, r) >= 0
    && (ch.Snoc? && Finished(r) == 0 ==> r.block.totalIters >= ch.top.block.totalIters)
  }

  /** Rules 15, 24 and 26b: which blocks are transaction blocks, and what they refer to. */
  ghost predicate TransactionOk(c: Consensus, ch: Chain, r: BlockRecord) {
    if ch.Empty? then r.block.foliage.Some? && r.block.foliage.value.prevTransactionBlock == c.genesisChallenge
    else
      var t := LastTx(ch);
      && t.Snoc?
      && (r.IsTransactionBlock() <==> SpTotalIters(c, r) > t.top.block.totalIters)
      && (r.IsTransactionBlock() ==>
            && r.block.foliage.value.prevTransactionBlock == t.top.block.headerHash
            && t.top.block.foliage.Some?
            && r.block.foliage.value.timestamp > t.top.block.foliage.value.timestamp)
  }

  /** All structural rules for a record r that extends the chain ch. */
  ghost predicate StepOk(c: Consensus, ch: Chain, r: BlockRecord)
    requires ValidConstants(c)
  {
    && Follows(c, ch, r)
    && ParamsOk(c, ch, r)
    && (forall i | 0 <= i < Finished(r) :: SubSlotOk(c, ch, r, i))
    && SummaryOk(c, ch, r)
    && CountOk(c, ch, r)
    && OverflowOk(c, ch, r)
    && ItersOk(c, ch, r)
    && TransactionOk(c, ch, r)
  }

  ghost predicate ValidChain(c: Consensus, ch: Chain)
    requires ValidConstants(c)
  {
    ch.Snoc? ==> ValidChain(c, ch.prev) && StepOk(c, ch.prev, ch.top)
  }
}
