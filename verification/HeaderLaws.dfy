/**
  What the header rules ask of the next block of a valid chain, told by the blocks and sub-slots below it: which
  sub-slots have ended, which blocks carry summaries, and which block came last.
 */
module HeaderLaws {
  import opened Types
  import opened Chains
  import opened PotIterations
  import opened HeaderRules
  import opened SubEpochs
  import opened ChainIterations
  import opened BlockChallenge
  import opened Epochs
  import opened Arithmetic

  // ---------------------------------------------------------------- summaries

  /** A sub-slot that ends now ends a sub-epoch: the count is down, and the window that begins or goes on with the next
      block has no summary yet. */
  ghost predicate SummaryDue(c: Consensus, ch: Chain)
    requires c.subEpochBlocks > 0 && Numbered(ch)
  {
    && ch.Snoc? && Height(ch) + 1 >= c.subEpochBlocks && ch.top.deficit == 0
    && forall g | WindowStart(c, Height(ch) + 1) <= g <= Height(ch) :: !HasSummary(ch, g)
  }

  /** That window is the first of an epoch. */
  ghost predicate EpochDue(c: Consensus, ch: Chain)
    requires c.subEpochBlocks > 0 && c.epochBlocks > 0 && Height(ch) >= -1
  {
    StartsEpoch(c, Height(ch) + 1)
  }

  ghost predicate StartsEpoch(c: Consensus, h: nat)
    requires c.subEpochBlocks > 0 && c.epochBlocks > 0
  {
    WindowStart(c, h) % c.epochBlocks == 0
  }

  /** A window has a summary exactly when one of its blocks does. */
  lemma {:induction false} SinceMeans(ch: Chain, s: nat)
    requires Numbered(ch)
    ensures SummarySince(ch, s) <==> exists g | s <= g <= Height(ch) :: HasSummary(ch, g)
  {
    if SummarySince(ch, s) { var g := SummaryWitness(ch, s); }
    if g :| s <= g <= Height(ch) && HasSummary(ch, g) { WitnessSummary(ch, s, g); }
  }

  lemma {:induction false} SinceStep(c: Consensus, ch: Chain, s: nat)
    requires ValidConstants(c) && ValidChain(c, ch) && Numbered(ch) && ch.Snoc? && Height(ch) + 1 >= c.subEpochBlocks
    requires s == WindowStart(c, Height(ch) + 1) && s % c.subEpochBlocks == 0 && s >= c.subEpochBlocks
    ensures SummarySince(ch, s) <==>
              ch.top.SummaryIncluded()
                || ((Height(ch) + 1) % c.subEpochBlocks > 1 && SummarySince(ch.prev, s))
  {
    NumberedHeight(ch.prev);
    if s == Height(ch) + 1 { NoSummaryBeforeWindow(c, ch, s); }
  }

  /** The block before a window has no summary, so only the window itself has to be looked at. */
  lemma {:induction false} WindowMeans(c: Consensus, ch: Chain, s: nat)
    requires ValidConstants(c) && ValidChain(c, ch) && Numbered(ch) && ch.Snoc? && Height(ch) + 1 >= c.subEpochBlocks
    requires s == WindowStart(c, Height(ch) + 1) && s % c.subEpochBlocks == 0 && s >= c.subEpochBlocks
    ensures FinishesSubEpoch(c, ch) <==> SummaryDue(c, ch)
  {
    SinceMeans(ch, s);
    SinceStep(c, ch, s);
  }

  lemma {:induction false} DueMeans(c: Consensus, ch: Chain)
    requires ValidConstants(c) && ValidChain(c, ch) && Numbered(ch) && Height(ch) >= -1
    ensures FinishesSubEpoch(c, ch) <==> SummaryDue(c, ch)
    ensures FinishesEpoch(c, ch) <==> SummaryDue(c, ch) && EpochDue(c, ch)
  {
    SubDueMeans(c, ch);
    if ch.Snoc? { EpochWindow(c, Height(ch) + 1); }
  }

  lemma {:induction false} EpochWindow(c: Consensus, h: nat)
    requires c.subEpochBlocks > 0 && c.epochBlocks > 0
    ensures HeightCanBeFirstInEpoch(c, h) <==> StartsEpoch(c, h)
  {}

  lemma {:induction false} SubDueMeans(c: Consensus, ch: Chain)
    requires ValidConstants(c) && ValidChain(c, ch) && Numbered(ch) && Height(ch) >= -1
    ensures FinishesSubEpoch(c, ch) <==> SummaryDue(c, ch)
  {
    if ch.Snoc? && Height(ch) + 1 >= c.subEpochBlocks {
      MultipleFloor(Height(ch) + 1, c.subEpochBlocks);
      WindowMeans(c, ch, WindowStart(c, Height(ch) + 1));
    }
  }

  // ---------------------------------------------------------------- the parts of a header

  /** The count waits at its maximum: an overflow block belongs to the sub-slot that has just ended. */
  ghost predicate Waits(c: Consensus, d: int, overflow: bool, finished: nat) {
    overflow && ((d == c.minBlocksPerChallengeBlock && finished == 0) || (d == 0 && finished == 1))
  }

  /** What a block counts down from, and what is written into the sub-slots that end before it. */
  function CountFrom(c: Consensus, ch: Chain): nat {
    if ch.Empty? || ch.top.deficit == 0 then c.minBlocksPerChallengeBlock else ch.top.deficit
  }

  ghost predicate DeficitRight(c: Consensus, ch: Chain, r: BlockRecord) {
    r.deficit ==
      if ch.Snoc? && ch.top.deficit == 0 && Finished(r) == 0 then 0
      else CountFrom(c, ch) - (if ch.Snoc? && Waits(c, ch.top.deficit, Overflow(c, r), Finished(r)) then 0 else 1)
  }

  /** The proof of space leaves the infusion within one signage point interval. */
  ghost predicate PlacedRight(c: Consensus, r: BlockRecord) {
    r.block.signagePointIndex < c.numSpsSubSlot && 0 < r.block.requiredIters
      && r.block.requiredIters * c.numSpsSubSlot < r.subSlotIters
  }

  /** A finished sub-slot continues the one before, has the length of its time, and carries a summary if it is the first
      and one is due; if an epoch ends with it, also the parameters of the next. */
  ghost predicate SlotRight(c: Consensus, ch: Chain, r: BlockRecord, i: nat)
    requires ValidConstants(c) && Numbered(ch) && Height(ch) >= -1 && i < Finished(r)
  {
    var s, before := r.block.finishedSubSlots[i], AllSlotHashes(c, ch);
    var due := i == 0 && SummaryDue(c, ch);
    && before != []
    && s.challenge == (if i == 0 then before[|before| - 1].cc else r.block.finishedSubSlots[i - 1].ccHash)
    && s.iterations == (if i == 0 && ch.Snoc? then ch.top.subSlotIters else r.subSlotIters)
    && s.deficit == CountFrom(c, ch)
    && (s.summary.Some? <==> due)
    && s.newSubSlotIters == (if due && EpochDue(c, ch) then Some(r.subSlotIters) else None)
    && s.newDifficulty == (if due && EpochDue(c, ch) then Some(r.block.weight - ch.top.block.weight) else None)
  }

  /** The height of the block with which the current sub-slot began. */
  function SlotBegin(ch: Chain): int {
    if ch.Empty? then -1
    else if ch.top.block.finishedSubSlots != [] || ch.top.block.height == 0 then ch.top.block.height
    else SlotBegin(ch.prev)
  }

  ghost predicate IterationsRight(c: Consensus, ch: Chain, r: BlockRecord) {
    && r.block.totalIters == FinishedIterations(ch) + SlotIterations(r.block.finishedSubSlots) + Ip(c, r)
    && SpTotalIters(c, r) >= 0
    && (ch.Snoc? && Finished(r) == 0 ==> ch.top.block.totalIters <= r.block.totalIters)
  }

  /** The newest transaction block. */
  function NewestTx(ch: Chain): Option<BlockRecord> {
    if ch.Empty? then None else if ch.top.block.foliage.Some? then Some(ch.top) else NewestTx(ch.prev)
  }

  /** The first block is a transaction block, and then every block whose signage point comes after the infusion of the
      newest one. It names that one, and has a later time. */
  ghost predicate TransactionRight(c: Consensus, ch: Chain, r: BlockRecord) {
    if ch.Empty? then r.block.foliage.Some? && r.block.foliage.value.prevTransactionBlock == c.genesisChallenge
    else
      var t := NewestTx(ch);
      && t.Some? && t.value.block.foliage.Some?
      && (r.block.foliage.Some? <==> t.value.block.totalIters < SpTotalIters(c, r))
      && (r.block.foliage.Some? ==>
            && r.block.foliage.value.prevTransactionBlock == t.value.block.headerHash
            && t.value.block.foliage.value.timestamp < r.block.foliage.value.timestamp)
  }

  /** It has the sub-slot length of its time, and adds the difficulty of its time to the weight. */
  ghost predicate ParamsRight(c: Consensus, ch: Chain, r: BlockRecord)
    requires ValidConstants(c)
  {
    var gained := r.block.weight - (if ch.Empty? then 0 else ch.top.block.weight);
    gained >= 0 && NextParams(c, ch, Finished(r) > 0) == Some(Params(r.subSlotIters, gained))
  }

  /** What is asked of the next block of a chain. */
  ghost predicate HeaderRight(c: Consensus, ch: Chain, r: BlockRecord)
    requires ValidConstants(c) && Numbered(ch) && Height(ch) >= -1
  {
    && r.block.height == Height(ch) + 1
    && r.block.prevHash == (if ch.Empty? then c.genesisChallenge else ch.top.block.headerHash)
    && ParamsRight(c, ch, r) && DeficitRight(c, ch, r) && PlacedRight(c, r)
    && (forall i | 0 <= i < Finished(r) :: SlotRight(c, ch, r, i))
    && (ch.Snoc? && Finished(r) == 0 ==> r.block.height - SlotBegin(ch) < c.maxSubSlotBlocks)
    && !(Overflow(c, r) && Finished(r) == 1 && SummaryDue(c, ch) && EpochDue(c, ch))
    && IterationsRight(c, ch, r) && TransactionRight(c, ch, r)
  }

  // ---------------------------------------------------------------- and that it is what is checked

  lemma {:induction false} DeficitMeans(c: Consensus, ch: Chain, r: BlockRecord)
    requires ValidConstants(c) && ValidChain(c, ch) && Numbered(ch) && r.block.height == Height(ch) + 1
    ensures DeficitRight(c, ch, r) <==>
              r.deficit == CalculateDeficit(c, r.block.height, Top(ch), Overflow(c, r), Finished(r))
  {
    NumberedHeight(ch);
    if ch.Snoc? { DeficitBounded(c, ch); }
  }

  lemma {:induction false} PlacedMeans(c: Consensus, r: BlockRecord)
    requires ValidConstants(c) && GoodSubSlotIters(c, r.subSlotIters)
    ensures PlacedRight(c, r) <==>
              Placeable(c, r.subSlotIters, r.block.signagePointIndex, r.block.requiredIters)
  {
    var w := r.subSlotIters / c.numSpsSubSlot;
    MultipleIsModulo(r.subSlotIters, c.numSpsSubSlot);
    assert r.subSlotIters == c.numSpsSubSlot * w && c.numSpsSubSlot * w == w * c.numSpsSubSlot;
    if r.block.requiredIters < w {
      ScaleLess(r.block.requiredIters, w, c.numSpsSubSlot);
    } else {
      Distribute(r.block.requiredIters - w, w, c.numSpsSubSlot);
      NonNegative(r.block.requiredIters - w, c.numSpsSubSlot);
    }
  }

  lemma {:induction false} NewestIs(ch: Chain)
    ensures NewestTx(ch) == Top(LastTx(ch)) && (NewestTx(ch).Some? ==> NewestTx(ch).value.block.foliage.Some?)
  {
    if ch.Snoc? && !ch.top.IsTransactionBlock() { NewestIs(ch.prev); }
  }

  lemma {:induction false} TransactionMeans(c: Consensus, ch: Chain, r: BlockRecord)
    ensures TransactionRight(c, ch, r) <==> TransactionOk(c, ch, r)
  {
    NewestIs(ch);
  }

  lemma {:induction false} SlotBeginIs(ch: Chain)
    ensures SlotBegin(ch) == Height(FirstOfSlot(ch))
  {
    if ch.Snoc? && !ch.top.FirstInSubSlot() { SlotBeginIs(ch.prev); }
  }

  lemma {:induction false} CountMeans(c: Consensus, ch: Chain, r: BlockRecord)
    requires r.block.height == Height(ch) + 1
    ensures CountOk(c, ch, r) <==>
              (ch.Snoc? && Finished(r) == 0 ==> r.block.height - SlotBegin(ch) < c.maxSubSlotBlocks)
  {
    SlotBeginIs(ch);
  }

  lemma {:induction false} SlotMeans(c: Consensus, ch: Chain, r: BlockRecord, i: nat)
    requires ValidConstants(c) && ValidChain(c, ch) && Numbered(ch) && Height(ch) >= -1 && i < Finished(r)
             && SummaryOk(c, ch, r)
    ensures SlotRight(c, ch, r, i) <==> SubSlotOk(c, ch, r, i)
  {
    DueMeans(c, ch);
    AllNonEmpty(c, ch);
    if ch.Snoc? { NewestIsCurrent(c, ch); }
  }

  lemma {:induction false} SlotsMean(c: Consensus, ch: Chain, r: BlockRecord)
    requires ValidConstants(c) && ValidChain(c, ch) && Numbered(ch) && Height(ch) >= -1
    ensures (forall i | 0 <= i < Finished(r) :: SlotRight(c, ch, r, i)) <==>
              SummaryOk(c, ch, r) && forall i | 0 <= i < Finished(r) :: SubSlotOk(c, ch, r, i)
  {
    DueMeans(c, ch);
    if forall i | 0 <= i < Finished(r) :: SlotRight(c, ch, r, i) {
      if Finished(r) > 0 { assert SlotRight(c, ch, r, 0); }
      assert SummaryOk(c, ch, r);
    }
    if SummaryOk(c, ch, r) {
      forall i | 0 <= i < Finished(r) ensures SlotRight(c, ch, r, i) <==> SubSlotOk(c, ch, r, i) {
        SlotMeans(c, ch, r, i);
      }
    }
  }

  lemma {:induction false} IterationsMean(c: Consensus, ch: Chain, r: BlockRecord)
    requires ValidConstants(c) && ValidChain(c, ch) && forall i | 0 <= i < Finished(r) :: SubSlotOk(c, ch, r, i)
    ensures IterationsRight(c, ch, r) <==> ItersOk(c, ch, r)
  {
    var slots, w := r.block.finishedSubSlots, r.subSlotIters;
    if ch.Snoc? { IterationsAccounted(c, ch); }
    forall i | 0 <= i < |slots|
      ensures slots[i].iterations == (if i == 0 && ch.Snoc? then ch.top.subSlotIters else w)
    {
      assert SubSlotOk(c, ch, r, i);
    }
    SlotIterationsSum(slots, if ch.Snoc? then ch.top.subSlotIters else w, w);
    if ch.Empty? && slots != [] { OneFewer(w, |slots|); }
  }

  lemma {:induction false} OverflowMeans(c: Consensus, ch: Chain, r: BlockRecord)
    requires ValidConstants(c) && ValidChain(c, ch) && Numbered(ch) && Height(ch) >= -1
    ensures OverflowOk(c, ch, r) <==> !(Overflow(c, r) && Finished(r) == 1 && SummaryDue(c, ch) && EpochDue(c, ch))
  {
    DueMeans(c, ch);
  }

  lemma {:induction false} ParamsGood(c: Consensus, ch: Chain, r: BlockRecord)
    requires ValidConstants(c) && ValidChain(c, ch) && ParamsRight(c, ch, r)
    ensures GoodSubSlotIters(c, r.subSlotIters)
  {
    NextParamsDefined(c, ch, Finished(r) > 0);
  }

  lemma {:induction false} ParamsSplit(c: Consensus, ch: Chain, r: BlockRecord)
    requires ValidConstants(c)
    ensures ParamsOk(c, ch, r) <==>
              && ParamsRight(c, ch, r)
              && r.deficit == CalculateDeficit(c, r.block.height, Top(ch), Overflow(c, r), Finished(r))
              && Placeable(c, r.subSlotIters, r.block.signagePointIndex, r.block.requiredIters)
  {}

  lemma {:induction false} ParamsMean(c: Consensus, ch: Chain, r: BlockRecord)
    requires ValidConstants(c) && ValidChain(c, ch) && Numbered(ch) && r.block.height == Height(ch) + 1
    ensures ParamsOk(c, ch, r) <==> ParamsRight(c, ch, r) && DeficitRight(c, ch, r) && PlacedRight(c, r)
  {
    ParamsSplit(c, ch, r);
    DeficitMeans(c, ch, r);
    if ParamsRight(c, ch, r) {
      ParamsGood(c, ch, r);
      PlacedMeans(c, r);
    }
  }

  /** A record is valid on top of a valid chain if and only if its header is right. */
  lemma {:induction false} HeaderMeans(c: Consensus, ch: Chain, r: BlockRecord)
    requires ValidConstants(c) && ValidChain(c, ch) && Numbered(ch) && Height(ch) >= -1
    ensures StepOk(c, ch, r) <==> HeaderRight(c, ch, r)
  {
    if r.block.height == Height(ch) + 1 {
      ParamsMean(c, ch, r);
      CountMeans(c, ch, r);
    }
    SlotsMean(c, ch, r);
    OverflowMeans(c, ch, r);
    TransactionMeans(c, ch, r);
    if forall i | 0 <= i < Finished(r) :: SubSlotOk(c, ch, r, i) { IterationsMean(c, ch, r); }
  }
}
