/**
  The epoch adjustment on valid chains: the search for the blocks to measure between always
  succeeds, they are strictly ordered in time, and the new values stay within their limits.
 */
module Epochs {
  import opened Types
  import opened Chains
  import opened HeaderRules
  import opened SubEpochs
  import opened ChainIterations
  import opened SignificantBits
  import opened Arithmetic

  // ---------------------------------------------------------------- where an epoch ends

  /** When the next sub-slot may end an epoch, the chain is at most
      2*MAX_SUB_SLOT_BLOCKS + MIN_BLOCKS_PER_CHALLENGE_BLOCK - 3 blocks past the barrier s. */
  lemma {:induction false} EpochBarrier(c: Consensus, ch: Chain) returns (s: nat)
    requires ValidConstants(c) && ValidChain(c, ch) && FinishesEpoch(c, ch)
    ensures s == WindowStart(c, Height(ch) + 1)
    ensures s % c.subEpochBlocks == 0 && s % c.epochBlocks == 0 && s >= c.epochBlocks
    ensures s <= Height(ch) + 1 < s + c.subEpochBlocks && !SummarySince(ch, s)
    ensures Height(ch) < s + 2 * c.maxSubSlotBlocks + c.minBlocksPerChallengeBlock - 2
  {
    var x := Height(ch) + 1;
    s := WindowStart(c, x);
    MultipleFloor(x, c.subEpochBlocks);
    MultipleIsBig(s, c.epochBlocks);
    PendingSummary(c, ch, s);
    SummaryOverdue(c, ch, s);
  }

  lemma {:induction false} PendingSummary(c: Consensus, ch: Chain, s: nat)
    requires ValidConstants(c) && ValidChain(c, ch) && FinishesSubEpoch(c, ch)
    requires s == WindowStart(c, Height(ch) + 1)
    ensures !SummarySince(ch, s)
  {
    assert Follows(c, ch.prev, ch.top);
  }

  lemma {:induction false} SurpassIs(c: Consensus, last: int, s: nat)
    requires ValidConstants(c) && s % c.epochBlocks == 0
    requires s - 2 <= last < s + 2 * c.maxSubSlotBlocks + c.minBlocksPerChallengeBlock - 3
    ensures PrevEpochSurpass(c, last) == s - c.epochBlocks
  {
    var next := last + 2 * c.maxSubSlotBlocks + c.minBlocksPerChallengeBlock + 5;
    ModuloFrom(s, next, c.epochBlocks);
  }

  /** The multiples of the epoch length that a stretch of one epoch can meet. */
  lemma {:induction false} EpochMultiples(c: Consensus, w: nat, s: nat)
    requires c.epochBlocks > 0 && w % c.epochBlocks == 0 && s % c.epochBlocks == 0
    requires s - c.epochBlocks <= w <= s
    ensures w == s || w == s - c.epochBlocks
  {
    MultipleMinus(s, w, c.epochBlocks);
    if s - w > 0 { MultipleIsBig(s - w, c.epochBlocks); }
  }

  // ---------------------------------------------------------------- the start of the epoch

  lemma {:induction false} FirstSummarySpec(ch: Chain, h: int)
    requires Numbered(ch) && SummarySince(ch, h)
    ensures var q := FirstSummaryFrom(ch, h);
            && q.Snoc? && IsPrefix(q, ch) && q.top.SummaryIncluded()
            && h <= Height(q) && !SummarySince(q.prev, h)
  {
    if SummarySince(ch.prev, h) { FirstSummarySpec(ch.prev, h); } else { NoFirstSummary(ch.prev, h); }
  }

  lemma {:induction false} NoFirstSummary(ch: Chain, h: int)
    requires !SummarySince(ch, h)
    ensures FirstSummaryFrom(ch, h).Empty?
  {
    if ch.Snoc? && ch.top.block.height >= h { NoFirstSummary(ch.prev, h); }
  }

  /** The block that started the epoch which is ending at barrier s. */
  lemma {:induction false} EpochStart(c: Consensus, ch: Chain, s: nat) returns (q: Chain)
    requires ValidConstants(c) && ValidChain(c, ch)
    requires s % c.subEpochBlocks == 0 && s >= c.subEpochBlocks
    requires s + 2 * c.maxSubSlotBlocks + c.minBlocksPerChallengeBlock - 2 <= Height(ch)
    ensures q == FirstSummaryFrom(ch, s) && q.Snoc? && IsPrefix(q, ch) && q.top.SummaryIncluded()
    ensures s <= Height(q) <= s + 2 * c.maxSubSlotBlocks + c.minBlocksPerChallengeBlock - 2
  {
    ValidNumbered(c, ch);
    OneSummaryPerSubEpoch(c, ch, s);
    var h :| s <= h <= s + 2 * c.maxSubSlotBlocks + c.minBlocksPerChallengeBlock - 2 && HasSummary(ch, h);
    WitnessSummary(ch, s, h);
    FirstSummarySpec(ch, s);
    q := FirstSummaryFrom(ch, s);
    if Height(q) > h {
      PrefixIsUpTo(q, ch);
      UpToUpTo(ch, Height(q), h);
      assert At(q, h) == At(q.prev, h);
      WitnessSummary(q.prev, s, h);
    }
  }

  // ---------------------------------------------------------------- the measured blocks

  /** The block measured to is a transaction block infused no later than the signage point, and no newer one is. */
  lemma {:induction false} MeasuredSpec(ch: Chain, sp: int, a: Chain)
    requires Numbered(ch) && IsPrefix(a, ch) && a.Snoc?
    requires a.top.IsTransactionBlock() && a.top.block.totalIters <= sp
    ensures var m := MeasuredAt(ch, sp);
            && m.Snoc? && IsPrefix(m, ch) && m.top.IsTransactionBlock() && m.top.block.totalIters <= sp
            && Height(a) <= Height(m)
  {
    PrefixIsUpTo(a, ch);
    if !(ch.top.block.totalIters <= sp && ch.top.IsTransactionBlock()) { MeasuredSpec(ch.prev, sp, a); }
  }

  /** A block of an earlier sub-slot than the last one but the current is infused before the
      current signage point. */
  lemma {:induction false} InfusedBeforeSignagePoint(c: Consensus, a: Chain, ch: Chain)
    requires ValidConstants(c) && ValidChain(c, ch) && ch.Snoc? && a.Snoc? && IsPrefix(a, ch)
    requires Height(a) + 2 * c.maxSubSlotBlocks <= Height(ch)
    ensures ch.prev.Snoc? && a.top.block.totalIters <= SpTotalIters(c, ch.top)
  {
    ValidNumbered(c, ch);
    PrefixIsUpTo(a, ch);
    NumberedHeight(a);
    SlotBounded(c, ch);
    SignagePointFloor(c, ch);
    var before := FirstOfSlot(ch).prev;
    PrefixTrans(before, FirstOfSlot(ch), ch);
    SlotBounded(c, before);
    PrefixOrder(a, before, ch);
    AncestorsEarlier(c, a, before);
  }

  /** The last transaction block before an epoch began is infused before the signage point of a
      block that is at least one whole sub-slot into the epoch. */
  lemma {:induction false} BeforeEpochBeforeSignagePoint(c: Consensus, a: Chain, q: Chain, ch: Chain)
    requires ValidConstants(c) && ValidChain(c, ch) && ch.Snoc? && IsPrefix(q, ch) && IsPrefix(a, q)
    requires a.Snoc? && q.Snoc? && q.top.FirstInSubSlot() && Height(a) < Height(q)
    requires Height(q) + c.maxSubSlotBlocks <= Height(ch)
    ensures a.top.block.totalIters <= SpTotalIters(c, ch.top)
  {
    ValidNumbered(c, ch);
    SlotBounded(c, ch);
    SignagePointFloor(c, ch);
    var before := FirstOfSlot(ch).prev;
    PrefixTrans(before, FirstOfSlot(ch), ch);
    PrefixOrder(q, before, ch);
    AncestorsEarlier(c, q, before);
    PrefixValid(c, q, ch);
    AncestorsEarlier(c, a, q);
  }

  /** The block measured from, and a transaction block after it that is infused early enough to
      be measured to: in the first epoch, and in every later one. */
  lemma {:induction false} FirstEpochMark(c: Consensus, ch: Chain) returns (from: Chain, a: Chain)
    requires ValidConstants(c) && ValidChain(c, ch) && ch.Snoc? && ch.prev.Snoc?
    requires PrevEpochSurpass(c, Height(ch.prev)) == 0 && Height(ch) + 1 >= c.epochBlocks
    ensures from.Snoc? && IsPrefix(from, a) && from.top.IsTransactionBlock() && Height(from) < Height(a)
    ensures PrevEpochMark(c, ch.prev) == Some(from.top)
    ensures a.Snoc? && IsPrefix(a, ch.prev) && a.top.IsTransactionBlock()
    ensures a.top.block.totalIters <= SpTotalIters(c, ch.top)
  {
    ValidNumbered(c, ch);
    a := EarlyTx(c, ch.prev);
    from := UpTo(ch.prev, 0);
    RootIsGenesis(c, ch.prev);
    PrefixOrder(from, a, ch.prev);
    InfusedBeforeSignagePoint(c, a, ch);
  }

  lemma {:induction false} LaterEpochMark(c: Consensus, ch: Chain, s: nat) returns (from: Chain, a: Chain)
    requires ValidConstants(c) && ValidChain(c, ch) && ch.Snoc? && ch.prev.Snoc?
    requires PrevEpochSurpass(c, Height(ch.prev)) == s && s % c.subEpochBlocks == 0 && s >= c.epochBlocks
    requires Height(ch) + 1 >= s + c.epochBlocks
    ensures from.Snoc? && IsPrefix(from, a) && from.top.IsTransactionBlock() && Height(from) < Height(a)
    ensures PrevEpochMark(c, ch.prev) == Some(from.top)
    ensures a.Snoc? && IsPrefix(a, ch.prev) && a.top.IsTransactionBlock()
    ensures a.top.block.totalIters <= SpTotalIters(c, ch.top)
  {
    ValidNumbered(c, ch);
    var x := EarlyTx(c, ch.prev);
    SubEpochInEpoch(c);
    var q := EpochStart(c, ch.prev, s);
    TwoTxBefore(c, q, x, ch.prev);
    a := LastTx(q.prev);
    from := LastTx(a.prev);
    BeforeEpochBeforeSignagePoint(c, a, q, ch);
  }

  /** The chains up to the two blocks between which the epoch ending on top of ch is measured. */
  lemma {:induction false} EpochMeasured(c: Consensus, ch: Chain) returns (from: Chain, to: Chain)
    requires ValidConstants(c) && ValidChain(c, ch) && FinishesEpoch(c, ch)
    ensures from.Snoc? && to.Snoc? && ch.prev.Snoc?
    ensures EpochMeasure(c, ch) == Some((from.top, to.top))
    ensures IsPrefix(from, to) && IsPrefix(to, ch.prev) && Height(from) < Height(to)
    ensures from.top.IsTransactionBlock() && to.top.IsTransactionBlock()
  {
    var s := EpochBarrier(c, ch);
    ValidNumbered(c, ch);
    NumberedHeight(ch.prev);
    SurpassIs(c, Height(ch.prev), s);
    var a: Chain;
    if s == c.epochBlocks {
      from, a := FirstEpochMark(c, ch);
    } else {
      PreviousEpoch(c, s);
      from, a := LaterEpochMark(c, ch, s - c.epochBlocks);
    }
    to := MeasuredAt(ch.prev, SpTotalIters(c, ch.top));
    MeasuredSpec(ch.prev, SpTotalIters(c, ch.top), a);
    PrefixOrder(a, to, ch.prev);
    PrefixTrans(from, a, to);
  }

  lemma {:induction false} SubEpochInEpoch(c: Consensus)
    requires ValidConstants(c)
    ensures c.subEpochBlocks <= c.epochBlocks
  {
    MultipleIsBig(c.epochBlocks, c.subEpochBlocks);
  }

  lemma {:induction false} PreviousEpoch(c: Consensus, s: nat)
    requires ValidConstants(c) && s % c.epochBlocks == 0 && s % c.subEpochBlocks == 0 && s > c.epochBlocks
    ensures s - c.epochBlocks >= c.epochBlocks && (s - c.epochBlocks) % c.subEpochBlocks == 0
    ensures (s - c.epochBlocks) % c.epochBlocks == 0
  {
    MultipleMinus(s, c.epochBlocks, c.epochBlocks);
    MultipleIsBig(s - c.epochBlocks, c.epochBlocks);
    MultipleMinus(s, c.epochBlocks, c.subEpochBlocks);
  }

  lemma {:induction false} RootIsGenesis(c: Consensus, ch: Chain)
    requires ValidConstants(c) && ValidChain(c, ch) && ch.Snoc? && Numbered(ch)
    ensures UpTo(ch, 0).Snoc? && UpTo(ch, 0).top == Root(ch) && Height(UpTo(ch, 0)) == 0
    ensures IsPrefix(UpTo(ch, 0), ch) && Root(ch).IsTransactionBlock()
  {
    if ch.prev.Snoc? {
      NumberedHeight(ch.prev);
      RootIsGenesis(c, ch.prev);
    } else {
      assert TransactionOk(c, ch.prev, ch.top);
    }
  }

  /** Before the start q of an epoch there are two transaction blocks, x being one. */
  lemma {:induction false} TwoTxBefore(c: Consensus, q: Chain, x: Chain, ch: Chain)
    requires ValidConstants(c) && ValidChain(c, ch) && IsPrefix(q, ch) && IsPrefix(x, ch)
    requires q.Snoc? && x.Snoc? && x.top.IsTransactionBlock() && 0 < Height(x) < Height(q)
    ensures var a := LastTx(q.prev);
            && a.Snoc? && a.top.IsTransactionBlock() && IsPrefix(a, q) && IsPrefix(a, ch) && Height(a) < Height(q)
            && var from := LastTx(a.prev);
            && from.Snoc? && from.top.IsTransactionBlock() && IsPrefix(from, a) && Height(from) < Height(a)
            && SecondLastTx(q.prev) == Some(from.top)
  {
    ValidNumbered(c, ch);
    PrefixIsUpTo(q, ch);
    PrefixValid(c, q, ch);
    PrefixOrder(x, q, ch);
    LastTxExists(c, q.prev);
    LastTxIsLast(x, q.prev);
    var a := LastTx(q.prev);
    PrefixTrans(a, q, ch);
    PrefixValid(c, a, ch);
    PrefixIsUpTo(a, ch);
    NumberedHeight(a.prev);
    LastTxExists(c, a.prev);
  }

  // ---------------------------------------------------------------- limits of the new values

  /** A new sub-slot length is again usable and grows by at most the maximal factor. */
  lemma {:induction false} NewItersGood(c: Consensus, iters: nat, seconds: nat, current: nat)
    requires ValidConstants(c) && seconds > 0 && GoodSubSlotIters(c, current)
    ensures GoodSubSlotIters(c, NewSubSlotIters(c, iters, seconds, current))
    ensures NewSubSlotIters(c, iters, seconds, current) <= c.difficultyChangeMaxFactor * current
  {
    var precise := Ratio(c.subSlotTimeTarget, iters, seconds);
    var clipped := Clip(c, precise, current, c.numSpsSubSlot);
    ClipBounds(c, precise, current, c.numSpsSubSlot);
    var k :| c.numSpsSubSlot == Pow2(k);
    TruncateSpec(clipped, c.significantBits);
    var t := TruncateToSignificantBits(clipped, c.significantBits);
    SameLengthKeepsPower(clipped, t, k);
    RoundDownSpec(t, c.significantBits, k);
    ClearLowIsMultiple(t, k);
    MultipleIsModulo(RoundDown(t, c.numSpsSubSlot), c.numSpsSubSlot);
  }

  /** The adjusted value stays between the floor and the maximal growth. */
  lemma {:induction false} ClipBounds(c: Consensus, precise: nat, current: nat, floor: nat)
    requires c.difficultyChangeMaxFactor > 0 && floor <= current
    ensures floor <= Clip(c, precise, current, floor) <= c.difficultyChangeMaxFactor * current
  {
    AtLeastOnce(current, c.difficultyChangeMaxFactor);
    QuotientSmaller(current, c.difficultyChangeMaxFactor);
  }

  lemma {:induction false} SameLengthKeepsPower(x: nat, t: nat, k: nat)
    requires Pow2(k) <= x && BitLength(x) == BitLength(t)
    ensures Pow2(k) <= t
  {
    BitLengthBounds(x);
    BitLengthBounds(t);
    if BitLength(x) - 1 < k { Pow2Monotone(BitLength(x), k); }
    Pow2Monotone(k, BitLength(x) - 1);
  }

  /** A new difficulty is at least 1, has few significant bits, and grows by at most the factor. */
  lemma {:induction false} NewDifficultyGood(c: Consensus, weight: nat, seconds: nat, current: nat)
    requires ValidConstants(c) && seconds > 0 && c.slotBlocksTarget * seconds > 0 && current > 0
    ensures 1 <= NewDifficulty(c, weight, seconds, current) <= c.difficultyChangeMaxFactor * current
    ensures CountSignificantBits(NewDifficulty(c, weight, seconds, current)) <= c.significantBits
  {
    var precise := Ratio(weight, c.subSlotTimeTarget, c.slotBlocksTarget * seconds);
    var clipped := Clip(c, precise, current, 1);
    ClipBounds(c, precise, current, 1);
    TruncateSpec(clipped, c.significantBits);
    SameLengthKeepsPower(clipped, TruncateToSignificantBits(clipped, c.significantBits), 0);
  }

  // ---------------------------------------------------------------- every run of epochs

  /** On every valid chain sub-slot lengths stay usable and difficulties positive. */
  lemma {:induction false} ParamsStayGood(c: Consensus, ch: Chain)
    requires ValidConstants(c) && ValidChain(c, ch) && ch.Snoc?
    ensures GoodSubSlotIters(c, ch.top.subSlotIters)
    ensures DifficultyOf(ch) >= 1
    decreases ch, 0
  {
    assert ParamsOk(c, ch.prev, ch.top);
    if ch.prev.Snoc? { NextParamsDefined(c, ch.prev, Finished(ch.top) > 0); }
  }

  lemma {:induction false} PrefixParamsGood(c: Consensus, a: Chain, b: Chain, ch: Chain)
    requires ValidConstants(c) && ValidChain(c, ch) && IsPrefix(a, b) && IsPrefix(b, ch) && a.Snoc?
    ensures GoodSubSlotIters(c, a.top.subSlotIters) && DifficultyOf(a) >= 1
    ensures b.Snoc? && a.top.block.weight <= b.top.block.weight
    decreases ch, 1
  {
    if b != ch {
      PrefixParamsGood(c, a, b, ch.prev);
    } else {
      ParamsStayGood(c, ch);
      if a != b { PrefixParamsGood(c, a, b.prev, ch.prev); }
    }
  }

  /** The parameters of the next block are always defined: no assert on the way can fail, the
      divisor is positive, and the results are usable. */
  lemma {:induction false} NextParamsDefined(c: Consensus, ch: Chain, newSlot: bool)
    requires ValidConstants(c) && ValidChain(c, ch)
    ensures var p := NextParams(c, ch, newSlot);
            && p.Some?
            && GoodSubSlotIters(c, p.value.subSlotIters) && p.value.difficulty >= 1
    decreases ch, 2
  {
    if ch.Snoc? {
      ValidNumbered(c, ch);
      NumberedHeight(ch.prev);
      ParamsStayGood(c, ch);
      if newSlot && FinishesEpoch(c, ch) && !ch.top.SummaryIncluded() {
        var from, to := EpochMeasured(c, ch);
        EpochParamsDefined(c, ch, from, to);
      } else {
        ParamsCarriedOn(c, ch, newSlot);
      }
    }
  }

  /** Where no epoch ends, the parameters are those of the newest block or the starting ones. */
  lemma {:induction false} ParamsCarriedOn(c: Consensus, ch: Chain, newSlot: bool)
    requires ValidConstants(c) && ch.Snoc? && Numbered(ch) && GoodSubSlotIters(c, ch.top.subSlotIters)
             && DifficultyOf(ch) >= 1
    requires !(newSlot && FinishesEpoch(c, ch) && !ch.top.SummaryIncluded())
    ensures var p := NextParams(c, ch, newSlot);
            && p.Some?
            && GoodSubSlotIters(c, p.value.subSlotIters) && p.value.difficulty >= 1
  {
    NumberedHeight(ch.prev);
  }

  /** The measured time is positive, and the new values are usable and limited. */
  lemma {:induction false} EpochParamsDefined(c: Consensus, ch: Chain, from: Chain, to: Chain)
    requires ValidConstants(c) && ValidChain(c, ch) && FinishesEpoch(c, ch) && ch.prev.Snoc?
    requires from.Snoc? && to.Snoc? && IsPrefix(from, to) && IsPrefix(to, ch.prev) && Height(from) < Height(to)
    requires from.top.IsTransactionBlock() && to.top.IsTransactionBlock()
    requires EpochMeasure(c, ch) == Some((from.top, to.top))
    ensures from.top.block.foliage.value.timestamp < to.top.block.foliage.value.timestamp
    ensures DifficultyOf(ch.prev) >= 1
    ensures var s := NextSubSlotIters(c, ch, true);
            s.Some? && GoodSubSlotIters(c, s.value) && s.value <= c.difficultyChangeMaxFactor * to.top.subSlotIters
    ensures var d := NextDifficulty(c, ch, true);
            d.Some? && 1 <= d.value <= c.difficultyChangeMaxFactor * DifficultyOf(ch.prev)
    decreases ch, 1
  {
    var barrier := EpochBarrier(c, ch);
    PrefixValid(c, to, ch.prev);
    TimestampsGrow(c, from, to);
    AncestorsEarlier(c, from, to);
    PrefixParamsGood(c, to, to, ch.prev);
    PrefixParamsGood(c, from, to, ch.prev);
    ParamsStayGood(c, ch.prev);
    EpochParamsFrom(c, ch, from.top, to.top);
  }

  lemma {:induction false} EpochParamsFrom(c: Consensus, ch: Chain, from: BlockRecord, to: BlockRecord)
    requires ValidConstants(c) && FinishesEpoch(c, ch) && ch.prev.Snoc? && Height(ch) + 1 >= c.epochBlocks
    requires EpochMeasure(c, ch) == Some((from, to))
    requires from.IsTransactionBlock() && to.IsTransactionBlock()
    requires from.block.foliage.value.timestamp < to.block.foliage.value.timestamp
    requires from.block.totalIters <= to.block.totalIters && from.block.weight <= to.block.weight
    requires GoodSubSlotIters(c, to.subSlotIters) && DifficultyOf(ch.prev) >= 1
    ensures var s := NextSubSlotIters(c, ch, true);
            s.Some? && GoodSubSlotIters(c, s.value) && s.value <= c.difficultyChangeMaxFactor * to.subSlotIters
    ensures var d := NextDifficulty(c, ch, true);
            d.Some? && 1 <= d.value <= c.difficultyChangeMaxFactor * DifficultyOf(ch.prev)
  {
    NewValuesGood(c, from, to, DifficultyOf(ch.prev));
  }

  lemma {:induction false} NewValuesGood(c: Consensus, from: BlockRecord, to: BlockRecord, difficulty: nat)
    requires ValidConstants(c) && from.IsTransactionBlock() && to.IsTransactionBlock()
    requires from.block.foliage.value.timestamp < to.block.foliage.value.timestamp
    requires from.block.totalIters <= to.block.totalIters && from.block.weight <= to.block.weight
    requires GoodSubSlotIters(c, to.subSlotIters) && difficulty > 0
    ensures var seconds := to.block.foliage.value.timestamp - from.block.foliage.value.timestamp;
            && c.slotBlocksTarget * seconds > 0
            && var s := NewSubSlotIters(c, to.block.totalIters - from.block.totalIters, seconds, to.subSlotIters);
            && var d := NewDifficulty(c, to.block.weight - from.block.weight, seconds, difficulty);
            && GoodSubSlotIters(c, s) && s <= c.difficultyChangeMaxFactor * to.subSlotIters
            && 1 <= d <= c.difficultyChangeMaxFactor * difficulty
  {
    var seconds := to.block.foliage.value.timestamp - from.block.foliage.value.timestamp;
    AtLeastOnce(c.slotBlocksTarget, seconds);
    NewItersGood(c, to.block.totalIters - from.block.totalIters, seconds, to.subSlotIters);
    NewDifficultyGood(c, to.block.weight - from.block.weight, seconds, difficulty);
  }

  // ---------------------------------------------------------------- growth from block to block

  /** Whether the newest block begins an epoch. */
  ghost predicate BeginsEpoch(c: Consensus, ch: Chain)
    requires ValidConstants(c)
  {
    ch.Snoc? && Finished(ch.top) > 0 && FinishesEpoch(c, ch.prev)
  }

  lemma {:induction false} FirstEpochDifficulty(c: Consensus, ch: Chain)
    requires ValidConstants(c) && ValidChain(c, ch) && ch.Snoc? && Height(ch) < c.epochBlocks
    ensures DifficultyOf(ch) == c.difficultyStarting
  {
    assert ParamsOk(c, ch.prev, ch.top) && Follows(c, ch.prev, ch.top);
    if ch.prev.Snoc? {
      FirstEpochDifficulty(c, ch.prev);
      if FinishesEpoch(c, ch.prev) { var s := EpochBarrier(c, ch.prev); }
    }
  }

  lemma {:induction false} DifficultyKept(c: Consensus, ch: Chain)
    requires ValidConstants(c) && ValidChain(c, ch) && ch.Snoc? && ch.prev.Snoc? && !BeginsEpoch(c, ch)
    ensures DifficultyOf(ch) == DifficultyOf(ch.prev)
  {
    assert ParamsOk(c, ch.prev, ch.top) && Follows(c, ch.prev, ch.top);
    if Height(ch) < c.epochBlocks { FirstEpochDifficulty(c, ch.prev); }
  }

  /** Between the start q of an epoch and its end at barrier s no other epoch begins. */
  lemma {:induction false} NoOtherEpoch(c: Consensus, q: Chain, b: Chain, ch: Chain, s: nat)
    requires ValidConstants(c) && ValidChain(c, ch) && IsPrefix(b, ch) && IsPrefix(q, ch)
    requires q.Snoc? && b.Snoc? && Height(q) < Height(b) && s >= c.epochBlocks
    requires s % c.epochBlocks == 0 && s % c.subEpochBlocks == 0
    requires !SummarySince(ch, s) && Height(ch) < s + c.subEpochBlocks
    requires if s == c.epochBlocks then Height(q) == 0
             else q.top.SummaryIncluded() && s - c.epochBlocks <= Height(q) < s - c.epochBlocks + c.subEpochBlocks
    ensures !BeginsEpoch(c, b)
  {
    if BeginsEpoch(c, b) {
      ValidNumbered(c, ch);
      PrefixIsUpTo(q, ch);
      NumberedHeight(q);
      BeginsAt(c, b, ch);
      if Height(b) >= s { WitnessSummary(ch, s, Height(b)); }
      OnlyWindow(c, Height(b), s);
      var w := s - c.epochBlocks;
      SummaryUnique(c, ch, w, Height(b), Height(b));
      assert HasSummary(ch, Height(q));
      SummaryUnique(c, ch, w, Height(q), Height(b));
    }
  }

  /** A block that begins an epoch shows as a summary of every chain above it. */
  lemma {:induction false} BeginsAt(c: Consensus, b: Chain, ch: Chain)
    requires ValidConstants(c) && ValidChain(c, ch) && IsPrefix(b, ch) && b.Snoc? && BeginsEpoch(c, b)
    ensures Numbered(ch) && HasSummary(ch, Height(b)) && 0 <= Height(b) <= Height(ch)
    ensures WindowStart(c, Height(b)) % c.epochBlocks == 0
  {
    ValidNumbered(c, ch);
    PrefixIsUpTo(b, ch);
    PrefixValid(c, b, ch);
    EpochBeginsInWindow(c, b);
  }

  lemma {:induction false} EpochBeginsInWindow(c: Consensus, b: Chain)
    requires ValidConstants(c) && ValidChain(c, b) && BeginsEpoch(c, b)
    ensures b.top.SummaryIncluded() && Height(b) >= 0 && WindowStart(c, Height(b)) % c.epochBlocks == 0
  {
    assert SummaryOk(c, b.prev, b.top) && Follows(c, b.prev, b.top);
  }

  /** The one window of an epoch in which the epoch can begin. */
  lemma {:induction false} OnlyWindow(c: Consensus, h: nat, s: nat)
    requires ValidConstants(c) && s % c.epochBlocks == 0 && s % c.subEpochBlocks == 0
    requires s >= c.epochBlocks && s - c.epochBlocks <= h < s && WindowStart(c, h) % c.epochBlocks == 0
    ensures (s - c.epochBlocks) % c.subEpochBlocks == 0 && h < s - c.epochBlocks + c.subEpochBlocks
  {
    MultipleMinus(s, c.epochBlocks, c.subEpochBlocks);
    WindowFloor(c, s - c.epochBlocks, h);
    EpochMultiples(c, WindowStart(c, h), s);
  }

  /** A window boundary at or below a height is at or below the start of the height's window. */
  lemma {:induction false} WindowFloor(c: Consensus, p: nat, h: nat)
    requires c.subEpochBlocks > 0 && p % c.subEpochBlocks == 0 && p <= h
    ensures p <= WindowStart(c, h)
  {
    var w := WindowStart(c, h);
    MultipleFloor(h, c.subEpochBlocks);
    if w < p {
      MultipleMinus(p, w, c.subEpochBlocks);
      MultipleIsBig(p - w, c.subEpochBlocks);
    }
  }

  /** Sub-slot length and difficulty are constant throughout an epoch. */
  lemma {:induction false} ParamsKept(c: Consensus, q: Chain, b: Chain, ch: Chain, s: nat)
    requires ValidConstants(c) && ValidChain(c, ch) && IsPrefix(b, ch) && IsPrefix(q, b)
    requires q.Snoc? && s >= c.epochBlocks
    requires s % c.epochBlocks == 0 && s % c.subEpochBlocks == 0
    requires !SummarySince(ch, s) && Height(ch) < s + c.subEpochBlocks
    requires if s == c.epochBlocks then Height(q) == 0
             else q.top.SummaryIncluded() && s - c.epochBlocks <= Height(q) < s - c.epochBlocks + c.subEpochBlocks
    ensures b.Snoc? && b.top.subSlotIters == q.top.subSlotIters && DifficultyOf(b) == DifficultyOf(q)
  {
    if b != q {
      PrefixTrans(q, b, ch);
      PrefixTrans(b.prev, b, ch);
      PrefixValid(c, b, ch);
      ValidNumbered(c, b);
      PrefixIsUpTo(q, b.prev);
      ParamsKept(c, q, b.prev, ch, s);
      NoOtherEpoch(c, q, b, ch, s);
      ItersKept(c, b);
      DifficultyKept(c, b);
    }
  }

  /** The chain up to the block with which the epoch ending on top of ch began. */
  lemma {:induction false} CurrentEpoch(c: Consensus, ch: Chain, s: nat) returns (q: Chain)
    requires ValidConstants(c) && ValidChain(c, ch) && FinishesEpoch(c, ch) && ch.prev.Snoc?
    requires s == WindowStart(c, Height(ch) + 1)
    requires s % c.epochBlocks == 0 && s % c.subEpochBlocks == 0 && s >= c.epochBlocks && s <= Height(ch) + 1
    ensures q.Snoc? && IsPrefix(q, ch.prev) && q.top.IsTransactionBlock()
    ensures if s == c.epochBlocks then Height(q) == 0
            else q.top.SummaryIncluded() && s - c.epochBlocks <= Height(q) < s - c.epochBlocks + c.subEpochBlocks
    ensures Height(q) <= s - c.epochBlocks + 2 * c.maxSubSlotBlocks + c.minBlocksPerChallengeBlock - 2
  {
    ValidNumbered(c, ch);
    if s == c.epochBlocks {
      RootIsGenesis(c, ch.prev);
      q := UpTo(ch.prev, 0);
    } else {
      PreviousEpoch(c, s);
      q := LaterEpoch(c, ch.prev, s - c.epochBlocks);
    }
  }

  /** The block with which the epoch at barrier w began, a later one than the first. */
  lemma {:induction false} LaterEpoch(c: Consensus, ch: Chain, w: nat) returns (q: Chain)
    requires ValidConstants(c) && ValidChain(c, ch)
    requires w % c.epochBlocks == 0 && w % c.subEpochBlocks == 0 && w >= c.epochBlocks
             && w + c.epochBlocks <= Height(ch) + 2
    ensures q.Snoc? && IsPrefix(q, ch) && q.top.SummaryIncluded() && q.top.IsTransactionBlock()
    ensures w <= Height(q) <= w + 2 * c.maxSubSlotBlocks + c.minBlocksPerChallengeBlock - 2
  {
    SubEpochInEpoch(c);
    q := EpochStart(c, ch, w);
    PrefixValid(c, q, ch);
    SummaryBeginsEpoch(c, q, w);
    EpochBeginsWithTx(c, q);
  }

  /** A block with which an epoch begins is a transaction block: its signage point comes after the
      block before it, since rule 9 keeps an overflow block out of the first sub-slot. */
  lemma {:induction false} EpochBeginsWithTx(c: Consensus, q: Chain)
    requires ValidConstants(c) && ValidChain(c, q) && BeginsEpoch(c, q)
    ensures q.top.IsTransactionBlock()
  {
    var t := LastTx(q.prev);
    assert OverflowOk(c, q.prev, q.top) && TransactionOk(c, q.prev, q.top);
    LastTxExists(c, q.prev);
    AncestorsEarlier(c, t, q.prev);
    InfusedInSlot(c, q.prev);
    SignagePointInSlot(c, q);
    NextBlockIters(c, q);
    if Overflow(c, q.top) { EmptySlotBetween(c, q); }
  }

  /** A block with a summary in the window that starts with an epoch begins that epoch. */
  lemma {:induction false} SummaryBeginsEpoch(c: Consensus, q: Chain, s: nat)
    requires ValidConstants(c) && ValidChain(c, q) && q.Snoc? && q.top.SummaryIncluded()
    requires s % c.epochBlocks == 0 && s % c.subEpochBlocks == 0 && s <= Height(q) < s + c.subEpochBlocks
    ensures BeginsEpoch(c, q)
  {
    assert SummaryOk(c, q.prev, q.top) && Follows(c, q.prev, q.top);
    WindowOf(c, s, Height(q));
  }

  /** The measured block belongs to the ending epoch. */
  lemma {:induction false} MeasuredInEpoch(c: Consensus, q: Chain, ch: Chain)
    requires ValidConstants(c) && ValidChain(c, ch) && ch.Snoc? && ch.prev.Snoc? && IsPrefix(q, ch.prev)
    requires q.Snoc? && q.top.IsTransactionBlock() && Height(q) + 2 * c.maxSubSlotBlocks <= Height(ch)
    ensures var to := MeasuredAt(ch.prev, SpTotalIters(c, ch.top));
            to.Snoc? && IsPrefix(to, ch.prev) && Height(q) <= Height(to)
  {
    ValidNumbered(c, ch);
    InfusedBeforeSignagePoint(c, q, ch);
    MeasuredSpec(ch.prev, SpTotalIters(c, ch.top), q);
  }

  /** From each block to the next, the sub-slot length and the difficulty grow at most by the
      maximal factor, and they change only where an epoch begins. */
  lemma {:induction false} GrowthLimited(c: Consensus, ch: Chain)
    requires ValidConstants(c) && ValidChain(c, ch) && ch.Snoc? && ch.prev.Snoc?
    ensures ch.top.subSlotIters <= c.difficultyChangeMaxFactor * ch.prev.top.subSlotIters
    ensures DifficultyOf(ch) <= c.difficultyChangeMaxFactor * DifficultyOf(ch.prev)
    ensures !BeginsEpoch(c, ch) ==> ch.top.subSlotIters == ch.prev.top.subSlotIters
    ensures !BeginsEpoch(c, ch) ==> DifficultyOf(ch) == DifficultyOf(ch.prev)
  {
    if BeginsEpoch(c, ch) {
      var p := ch.prev;
      var from, to := EpochMeasured(c, p);
      EpochParamsDefined(c, p, from, to);
      var s := EpochBarrier(c, p);
      var q := CurrentEpoch(c, p, s);
      MeasuredInEpoch(c, q, p);
      ValidNumbered(c, p);
      PrefixOrder(q, to, p.prev);
      PrefixTrans(q, p.prev, p);
      ParamsKept(c, q, to, p, s);
      ParamsKept(c, q, p.prev, p, s);
      ParamsKept(c, q, p, p, s);
      assert ParamsOk(c, p, ch.top);
    } else {
      ItersKept(c, ch);
      DifficultyKept(c, ch);
      ParamsStayGood(c, ch.prev);
      AtLeastOnce(ch.prev.top.subSlotIters, c.difficultyChangeMaxFactor);
      AtLeastOnce(DifficultyOf(ch.prev), c.difficultyChangeMaxFactor);
    }
  }
}
