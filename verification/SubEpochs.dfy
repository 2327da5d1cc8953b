/**
  What the local header rules force along every chain: deficits, challenge blocks, and one
  sub-epoch summary per sub-epoch within a bounded number of blocks.
 */
module SubEpochs {
  import opened Types
  import opened Chains
  import opened HeaderRules
  import opened Arithmetic

  lemma {:induction false} ValidNumbered(c: Consensus, ch: Chain)
    requires ValidConstants(c) && ValidChain(c, ch)
    ensures Numbered(ch)
  {
    if ch.Snoc? { ValidNumbered(c, ch.prev); }
  }

  lemma {:induction false} PrefixValid(c: Consensus, a: Chain, ch: Chain)
    requires ValidConstants(c) && ValidChain(c, ch) && IsPrefix(a, ch)
    ensures ValidChain(c, a)
  {
    if a != ch { PrefixValid(c, a, ch.prev); }
  }

  lemma {:induction false} CutValid(c: Consensus, ch: Chain, h: int)
    requires ValidConstants(c) && ValidChain(c, ch) && -1 <= h <= Height(ch)
    ensures Numbered(ch) && Numbered(UpTo(ch, h)) && Height(UpTo(ch, h)) == h
    ensures ValidChain(c, UpTo(ch, h))
  {
    ValidNumbered(c, ch);
    UpToReaches(ch, h);
    PrefixValid(c, UpTo(ch, h), ch);
  }

  // ---------------------------------------------------------------- deficits and challenge blocks

  ghost predicate IsChallengeBlock(c: Consensus, r: BlockRecord) {
    r.deficit == c.minBlocksPerChallengeBlock - 1
  }

  /** The deficit stays within bounds, and is at its maximum only on overflow blocks. */
  lemma {:induction false} DeficitBounded(c: Consensus, ch: Chain)
    requires ValidConstants(c) && ValidChain(c, ch) && ch.Snoc?
    ensures 0 <= ch.top.deficit <= c.minBlocksPerChallengeBlock
    ensures ch.top.deficit == c.minBlocksPerChallengeBlock ==> Overflow(c, ch.top)
  {
    if ch.prev.Snoc? { DeficitBounded(c, ch.prev); }
  }

  /** After a challenge block the deficit counts down, and no longer than that while no
      sub-slot ends. */
  lemma {:induction false} DeficitCountsDown(c: Consensus, ch: Chain, h: int)
    requires ValidConstants(c) && ValidChain(c, ch) && 0 <= h <= Height(ch)
    requires Numbered(ch) && IsChallengeBlock(c, At(ch, h))
    ensures var d := c.minBlocksPerChallengeBlock - 1 - (Height(ch) - h);
            && (d >= 0 ==> ch.top.deficit == d)
            && (d < 0 && Height(FirstOfSlot(ch)) <= h ==> ch.top.deficit == 0)
  {
    if h < Height(ch) {
      assert At(ch.prev, h) == At(ch, h);
      DeficitCountsDown(c, ch.prev, h);
    }
  }

  /** Two challenge blocks of one chain are at least the minimum number of blocks apart, and a
      sub-slot ends between them. */
  lemma {:induction false} ChallengeBlocksApart(c: Consensus, ch: Chain, i: int, j: int)
    requires ValidConstants(c) && ValidChain(c, ch) && Numbered(ch) && 0 <= i < j <= Height(ch)
    requires IsChallengeBlock(c, At(ch, i)) && IsChallengeBlock(c, At(ch, j))
    ensures j - i >= c.minBlocksPerChallengeBlock
    ensures i < Height(FirstOfSlot(UpTo(ch, j)))
  {
    CutValid(c, ch, j);
    UpToUpTo(ch, j, i);
    DeficitCountsDown(c, UpTo(ch, j), i);
  }

  /** Once the count has run down, it stays at zero until a sub-slot ends. The block after that is a challenge block,
      unless its signage point lies in the sub-slot that has just ended: then the count waits at its maximum. */
  lemma {:induction false} DeficitRestarts(c: Consensus, ch: Chain)
    requires ValidConstants(c) && ValidChain(c, ch) && ch.Snoc? && ch.prev.Snoc? && ch.prev.top.deficit == 0
    ensures ch.top.deficit == 0 <==> Finished(ch.top) == 0
    ensures ch.top.deficit == c.minBlocksPerChallengeBlock <==> Overflow(c, ch.top) && Finished(ch.top) == 1
    ensures IsChallengeBlock(c, ch.top) <==> Finished(ch.top) > 0 && (Overflow(c, ch.top) ==> Finished(ch.top) >= 2)
  {
    assert ParamsOk(c, ch.prev, ch.top) && Follows(c, ch.prev, ch.top);
    ValidNumbered(c, ch.prev);
    NumberedHeight(ch.prev);
  }

  /** The count waits exactly while overflow blocks follow within the sub-slot; the next block is a challenge block. */
  lemma {:induction false} DeficitWaits(c: Consensus, ch: Chain)
    requires ValidConstants(c) && ValidChain(c, ch) && ch.Snoc? && ch.prev.Snoc?
             && ch.prev.top.deficit == c.minBlocksPerChallengeBlock
    ensures ch.top.deficit == c.minBlocksPerChallengeBlock <==> Overflow(c, ch.top) && Finished(ch.top) == 0
    ensures ch.top.deficit != c.minBlocksPerChallengeBlock <==> IsChallengeBlock(c, ch.top)
  {
    assert ParamsOk(c, ch.prev, ch.top) && Follows(c, ch.prev, ch.top);
    ValidNumbered(c, ch.prev);
    NumberedHeight(ch.prev);
  }

  /** A count that waits has been waiting since its sub-slot began, one sub-slot after a count of zero, and all blocks
      since then overflow. */
  lemma {:induction false} WaitingSince(c: Consensus, ch: Chain)
    requires ValidConstants(c) && ValidChain(c, ch) && ch.Snoc? && ch.top.deficit == c.minBlocksPerChallengeBlock
    ensures var f := FirstOfSlot(ch);
            && f.Snoc? && f.prev.Snoc? && f.prev.top.deficit == 0 && Finished(f.top) == 1
            && f.top.deficit == c.minBlocksPerChallengeBlock && Overflow(c, f.top) && Overflow(c, ch.top)
  {
    assert ParamsOk(c, ch.prev, ch.top) && Follows(c, ch.prev, ch.top);
    ValidNumbered(c, ch.prev);
    NumberedHeight(ch.prev);
    if ch.prev.top.deficit == 0 {
      DeficitRestarts(c, ch);
    } else {
      DeficitBounded(c, ch.prev);
      DeficitWaits(c, ch);
      WaitingSince(c, ch.prev);
    }
  }

  /** The deficit written into the sub-slots that end before a block is what the block counts down from. */
  lemma {:induction false} SlotDeficit(c: Consensus, ch: Chain, i: nat)
    requires ValidConstants(c) && ValidChain(c, ch) && ch.Snoc? && i < Finished(ch.top)
    ensures var d := ch.top.block.finishedSubSlots[i].deficit;
            && 0 < d <= c.minBlocksPerChallengeBlock
            && ch.top.deficit ==
               if ch.prev.Snoc? && ch.prev.top.deficit == 0 && Overflow(c, ch.top) && Finished(ch.top) == 1 then d
               else d - 1
  {
    assert ParamsOk(c, ch.prev, ch.top) && Follows(c, ch.prev, ch.top) && SubSlotOk(c, ch.prev, ch.top, i);
    ValidNumbered(c, ch.prev);
    NumberedHeight(ch.prev);
    if ch.prev.Snoc? { DeficitBounded(c, ch.prev); }
  }

  // ---------------------------------------------------------------- sub-slots

  lemma {:induction false} SlotBounded(c: Consensus, ch: Chain)
    requires ValidConstants(c) && ValidChain(c, ch) && ch.Snoc?
    ensures FirstOfSlot(ch).Snoc? && FirstOfSlot(ch).top.FirstInSubSlot()
    ensures IsPrefix(FirstOfSlot(ch), ch) && ValidChain(c, FirstOfSlot(ch))
    ensures 0 <= Height(FirstOfSlot(ch)) <= Height(ch)
    ensures 1 <= BlocksInSlot(ch) <= c.maxSubSlotBlocks
  {
    if !ch.top.FirstInSubSlot() { SlotBounded(c, ch.prev); }
  }

  // ---------------------------------------------------------------- sub-epoch summaries

  lemma {:induction false} WindowOf(c: Consensus, s: nat, h: nat)
    requires c.subEpochBlocks > 0 && s % c.subEpochBlocks == 0 && s <= h < s + c.subEpochBlocks
    ensures h % c.subEpochBlocks == h - s && WindowStart(c, h) == s
  {
    ModuloFrom(s, h, c.subEpochBlocks);
  }

  /** A summary in a window excludes earlier ones in the same window. */
  lemma {:induction false} SummaryIsFirst(c: Consensus, ch: Chain, s: nat)
    requires ValidConstants(c) && ValidChain(c, ch) && ch.Snoc? && ch.top.SummaryIncluded()
    requires s % c.subEpochBlocks == 0 && s <= Height(ch) < s + c.subEpochBlocks
    ensures s >= c.subEpochBlocks
    ensures !SummarySince(ch.prev, s)
  {
    assert StepOk(c, ch.prev, ch.top);
    WindowOf(c, s, Height(ch));
    if s > 0 { MultipleIsBig(s, c.subEpochBlocks); }
  }

  /** How many more blocks a chain can take before a sub-slot ends with deficit zero. */
  function Patience(c: Consensus, ch: Chain): int
    requires ch.Snoc?
  {
    var d := ch.top.deficit;
    var room := c.maxSubSlotBlocks + 1 - BlocksInSlot(ch);
    if d == 0 then room
    else if d < c.minBlocksPerChallengeBlock then d + c.maxSubSlotBlocks
    else room + c.minBlocksPerChallengeBlock - 1 + c.maxSubSlotBlocks
  }

  /** While a summary is pending, no sub-slot can end after a block of deficit zero. */
  lemma {:induction false} PendingKeepsSlotOpen(c: Consensus, ch: Chain, s: nat)
    requires ValidConstants(c) && ch.Snoc? && ch.prev.Snoc? && StepOk(c, ch.prev, ch.top)
    requires s % c.subEpochBlocks == 0 && c.subEpochBlocks <= s <= Height(ch) < s + c.subEpochBlocks
    requires !SummarySince(ch, s) && !ch.prev.top.SummaryIncluded() && ch.prev.top.deficit == 0
    ensures Finished(ch.top) == 0
  {
    WindowOf(c, s, Height(ch));
    assert SummaryOk(c, ch.prev, ch.top) && Follows(c, ch.prev, ch.top);
  }

  /** Each block that could not include the pending summary uses up patience. */
  lemma {:induction false} PatienceRunsOut(c: Consensus, ch: Chain, s: nat)
    requires ValidConstants(c) && ValidChain(c, ch) && ch.Snoc? && ch.prev.Snoc?
    requires s % c.subEpochBlocks == 0 && c.subEpochBlocks <= s <= Height(ch) < s + c.subEpochBlocks
    requires !SummarySince(ch, s) && !ch.prev.top.SummaryIncluded()
    ensures Patience(c, ch) <= Patience(c, ch.prev) - 1
  {
    if ch.prev.top.deficit == 0 { PendingKeepsSlotOpen(c, ch, s); }
    DeficitBounded(c, ch.prev);
    SlotBounded(c, ch.prev);
    SlotBounded(c, ch);
    assert ParamsOk(c, ch.prev, ch.top) && Follows(c, ch.prev, ch.top);
  }

  /** As long as a sub-epoch has no summary, patience bounds the blocks it can have. */
  lemma {:induction false} SummaryOverdue(c: Consensus, ch: Chain, s: nat)
    requires ValidConstants(c) && ValidChain(c, ch)
    requires s % c.subEpochBlocks == 0 && c.subEpochBlocks <= s <= Height(ch) + 1 < s + c.subEpochBlocks + 1
    requires !SummarySince(ch, s)
    ensures ch.Snoc? && Patience(c, ch) <= 2 * c.maxSubSlotBlocks + c.minBlocksPerChallengeBlock - 2 - (Height(ch) - s)
    ensures Height(ch) < s + 2 * c.maxSubSlotBlocks + c.minBlocksPerChallengeBlock - 2
    decreases Height(ch)
  {
    SlotBounded(c, ch);
    DeficitBounded(c, ch);
    if Height(ch) >= s {
      assert StepOk(c, ch.prev, ch.top);
      SummaryOverdue(c, ch.prev, s);
      if Height(ch.prev) == s - 1 { NoSummaryBeforeWindow(c, ch.prev, s); }
      PatienceRunsOut(c, ch, s);
    }
  }

  /** The last block before a window includes no summary. */
  lemma {:induction false} NoSummaryBeforeWindow(c: Consensus, ch: Chain, s: nat)
    requires ValidConstants(c) && ValidChain(c, ch) && ch.Snoc?
    requires s % c.subEpochBlocks == 0 && c.subEpochBlocks <= s == Height(ch) + 1
    ensures !ch.top.SummaryIncluded()
    decreases Height(ch)
  {
    if ch.top.SummaryIncluded() {
      assert StepOk(c, ch.prev, ch.top);
      MultipleMinus(s, c.subEpochBlocks, c.subEpochBlocks);
      var p := s - c.subEpochBlocks;
      SummaryIsFirst(c, ch, p);
      SummaryOverdue(c, ch.prev, p);
    }
  }

  ghost predicate HasSummary(ch: Chain, h: int)
    requires Numbered(ch)
  {
    0 <= h <= Height(ch) && At(ch, h).SummaryIncluded()
  }

  /** A window holds a summary exactly when one of its heights does. */
  lemma {:induction false} SummaryWitness(ch: Chain, s: nat) returns (h: int)
    requires Numbered(ch) && SummarySince(ch, s)
    ensures s <= h <= Height(ch) && HasSummary(ch, h)
  {
    if ch.top.SummaryIncluded() {
      h := Height(ch);
    } else {
      h := SummaryWitness(ch.prev, s);
      assert At(ch, h) == At(ch.prev, h);
    }
  }

  lemma {:induction false} WitnessSummary(ch: Chain, s: nat, h: int)
    requires Numbered(ch) && s <= h && HasSummary(ch, h)
    ensures SummarySince(ch, s)
  {
    if h < Height(ch) {
      assert At(ch, h) == At(ch.prev, h);
      WitnessSummary(ch.prev, s, h);
    }
  }

  /** No window ever holds two summaries, and the first one holds none. */
  lemma {:induction false} SummaryUnique(c: Consensus, ch: Chain, s: nat, i: int, j: int)
    requires ValidConstants(c) && ValidChain(c, ch) && Numbered(ch)
    requires s % c.subEpochBlocks == 0 && s <= i <= j < s + c.subEpochBlocks
    requires HasSummary(ch, i) && HasSummary(ch, j)
    ensures i == j && s >= c.subEpochBlocks
  {
    CutValid(c, ch, j);
    SummaryIsFirst(c, UpTo(ch, j), s);
    if i < j {
      var before := UpTo(ch, j).prev;
      UpToUpTo(ch, j, i);
      assert At(before, i) == At(ch, i);
      WitnessSummary(before, s, i);
    }
  }

  /** Every sub-epoch window but the first has exactly one summary, at the latest
      2*MAX_SUB_SLOT_BLOCKS + MIN_BLOCKS_PER_CHALLENGE_BLOCK - 2 blocks after it begins. */
  lemma {:induction false} OneSummaryPerSubEpoch(c: Consensus, ch: Chain, s: nat)
    requires ValidConstants(c) && ValidChain(c, ch) && Numbered(ch)
    requires s % c.subEpochBlocks == 0
    ensures s == 0 ==> forall h | 0 <= h < c.subEpochBlocks :: !HasSummary(ch, h)
    ensures var latest := s + 2 * c.maxSubSlotBlocks + c.minBlocksPerChallengeBlock - 2;
            s > 0 && latest <= Height(ch) ==>
              exists h :: s <= h <= latest && HasSummary(ch, h)
                && forall g | s <= g < s + c.subEpochBlocks && HasSummary(ch, g) :: g == h
  {
    if s == 0 {
      forall h | 0 <= h < c.subEpochBlocks ensures !HasSummary(ch, h) {
        if HasSummary(ch, h) { SummaryUnique(c, ch, s, h, h); }
      }
    }
    var latest := s + 2 * c.maxSubSlotBlocks + c.minBlocksPerChallengeBlock - 2;
    if s > 0 && latest <= Height(ch) {
      if s > 0 { MultipleIsBig(s, c.subEpochBlocks); }
      CutValid(c, ch, latest);
      var cut := UpTo(ch, latest);
      if !SummarySince(cut, s) { SummaryOverdue(c, cut, s); }
      var h := SummaryWitness(cut, s);
      UpToUpTo(ch, latest, h);
      assert HasSummary(ch, h);
      forall g | s <= g < s + c.subEpochBlocks && HasSummary(ch, g) ensures g == h {
        if g <= h { SummaryUnique(c, ch, s, g, h); } else { SummaryUnique(c, ch, s, h, g); }
      }
    }
  }
}
