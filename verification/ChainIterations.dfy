/** How iterations, sub-slots and transaction blocks are ordered along every valid chain. */
module ChainIterations {
  import opened Types
  import opened Chains
  import opened PotIterations
  import opened HeaderRules
  import opened SubEpochs
  import opened Arithmetic

  /** The infusion point of a block falls inside its sub-slot. */
  lemma {:induction false} InfusedInSlot(c: Consensus, ch: Chain)
    requires ValidConstants(c) && ValidChain(c, ch) && ch.Snoc?
    ensures Placeable(c, ch.top.subSlotIters, ch.top.block.signagePointIndex, ch.top.block.requiredIters)
    ensures 0 <= Ip(c, ch.top) < ch.top.subSlotIters
  {
    assert ParamsOk(c, ch.prev, ch.top);
    IpItersShape(c, ch.top.subSlotIters, ch.top.block.signagePointIndex, ch.top.block.requiredIters);
  }

  /** The signage point of a block falls inside a sub-slot. */
  lemma {:induction false} SignagePointInSlot(c: Consensus, ch: Chain)
    requires ValidConstants(c) && ValidChain(c, ch) && ch.Snoc?
    ensures 0 <= Sp(c, ch.top) < ch.top.subSlotIters
  {
    InfusedInSlot(c, ch);
    SpItersInSlot(c, ch.top.subSlotIters, ch.top.block.signagePointIndex);
  }

  // ---------------------------------------------------------------- sub-slot lengths

  lemma {:induction false} FirstEpochIters(c: Consensus, ch: Chain)
    requires ValidConstants(c) && ValidChain(c, ch) && ch.Snoc? && Height(ch) < c.epochBlocks
    ensures ch.top.subSlotIters == c.subSlotItersStarting
  {
    assert ParamsOk(c, ch.prev, ch.top) && Follows(c, ch.prev, ch.top);
    if ch.prev.Snoc? { FirstEpochIters(c, ch.prev); }
  }

  /** Only the end of an epoch changes the length of sub-slots. */
  lemma {:induction false} ItersKept(c: Consensus, ch: Chain)
    requires ValidConstants(c) && ValidChain(c, ch) && ch.Snoc? && ch.prev.Snoc?
    requires !(Finished(ch.top) > 0 && FinishesEpoch(c, ch.prev))
    ensures ch.top.subSlotIters == ch.prev.top.subSlotIters
  {
    assert ParamsOk(c, ch.prev, ch.top) && Follows(c, ch.prev, ch.top);
    if Height(ch) < c.epochBlocks { FirstEpochIters(c, ch.prev); }
  }

  /** All blocks of a sub-slot agree on where it starts and how long it is. */
  lemma {:induction false} SlotShared(c: Consensus, ch: Chain)
    requires ValidConstants(c) && ValidChain(c, ch) && ch.Snoc?
    ensures FirstOfSlot(ch).Snoc?
    ensures SlotStart(c, FirstOfSlot(ch).top) == SlotStart(c, ch.top)
    ensures FirstOfSlot(ch).top.subSlotIters == ch.top.subSlotIters
  {
    if !ch.top.FirstInSubSlot() {
      assert ItersOk(c, ch.prev, ch.top);
      ItersKept(c, ch);
      SlotShared(c, ch.prev);
    }
  }

  /** One block further: either the same sub-slot, or one that starts after the old one ended. */
  lemma {:induction false} NextBlockIters(c: Consensus, ch: Chain)
    requires ValidConstants(c) && ValidChain(c, ch) && ch.Snoc? && ch.prev.Snoc?
    ensures ch.top.block.height > 0
    ensures Finished(ch.top) == 0 ==> SlotStart(c, ch.top) == SlotStart(c, ch.prev.top)
    ensures Finished(ch.top) > 0 ==> SlotStart(c, ch.top) >= SlotStart(c, ch.prev.top) + ch.prev.top.subSlotIters
    ensures Finished(ch.top) > 0 ==> SlotStart(c, ch.top) > ch.prev.top.block.totalIters
    ensures ch.top.block.totalIters >= ch.prev.top.block.totalIters
  {
    assert ItersOk(c, ch.prev, ch.top) && Follows(c, ch.prev, ch.top);
    ValidNumbered(c, ch.prev);
    NumberedHeight(ch.prev);
    InfusedInSlot(c, ch.prev);
    InfusedInSlot(c, ch);
    if Finished(ch.top) > 0 { NonNegative(ch.top.subSlotIters, Finished(ch.top) - 1); }
  }

  /** Ancestors are infused no later, and before the current sub-slot if they are not in it. */
  lemma {:induction false} AncestorsEarlier(c: Consensus, a: Chain, ch: Chain)
    requires ValidConstants(c) && ValidChain(c, ch) && a.Snoc? && IsPrefix(a, ch)
    ensures SlotStart(c, a.top) <= SlotStart(c, ch.top)
    ensures a.top.block.totalIters <= ch.top.block.totalIters
    ensures Height(a) < Height(FirstOfSlot(ch)) ==> a.top.block.totalIters < SlotStart(c, ch.top)
  {
    if a == ch {
      SlotBounded(c, ch);
    } else {
      AncestorsEarlier(c, a, ch.prev);
      NextBlockIters(c, ch);
    }
  }

  // ---------------------------------------------------------------- signage points

  /** A sub-slot that begins without an overflow block has none. */
  lemma {:induction false} NonOverflowStays(c: Consensus, ch: Chain)
    requires ValidConstants(c) && ValidChain(c, ch) && ch.Snoc?
    requires FirstOfSlot(ch).Snoc? && !Overflow(c, FirstOfSlot(ch).top)
    ensures !Overflow(c, ch.top)
  {
    if !ch.top.FirstInSubSlot() {
      NonOverflowStays(c, ch.prev);
      assert ItersOk(c, ch.prev, ch.top);
      ItersKept(c, ch);
      InfusedInSlot(c, ch.prev);
      InfusedInSlot(c, ch);
      if Overflow(c, ch.top) {
        OverflowInfusedFirst(c, ch.top.subSlotIters,
                             ch.top.block.signagePointIndex, ch.top.block.requiredIters,
                             ch.prev.top.block.signagePointIndex, ch.prev.top.block.requiredIters);
      }
    }
  }

  /** A signage point lies at or after the start of the sub-slot of the last block before its
      own sub-slot: overflow reaches back one sub-slot at most, never into another epoch. */
  lemma {:induction false} SignagePointFloor(c: Consensus, ch: Chain)
    requires ValidConstants(c) && ValidChain(c, ch) && ch.Snoc? && Height(FirstOfSlot(ch)) > 0
    ensures FirstOfSlot(ch).Snoc? && FirstOfSlot(ch).prev.Snoc?
    ensures SpSlotStart(c, ch.top) >= SlotStart(c, FirstOfSlot(ch).prev.top)
    ensures SpTotalIters(c, ch.top) >= SpSlotStart(c, ch.top)
  {
    var f := FirstOfSlot(ch);
    SlotBounded(c, ch);
    SlotShared(c, ch);
    assert Follows(c, f.prev, f.top) && OverflowOk(c, f.prev, f.top);
    NonNegative(SpIntervalIters(c, ch.top.subSlotIters), ch.top.block.signagePointIndex);
    if Overflow(c, ch.top) {
      if Finished(f.top) == 1 {
        if FinishesEpoch(c, f.prev) { NonOverflowStays(c, ch); }
        ItersKept(c, f);
        NextBlockIters(c, f);
      } else {
        EmptySlotBetween(c, f);
      }
    } else {
      NextBlockIters(c, f);
    }
  }

  lemma {:induction false} EmptySlotBetween(c: Consensus, f: Chain)
    requires ValidConstants(c) && ValidChain(c, f) && f.Snoc? && f.prev.Snoc? && Finished(f.top) >= 2
    ensures SlotStart(c, f.top) - f.top.subSlotIters >= SlotStart(c, f.prev.top) + f.prev.top.subSlotIters
  {
    assert ItersOk(c, f.prev, f.top);
    AtLeastOnce(f.top.subSlotIters, Finished(f.top) - 1);
  }

  // ---------------------------------------------------------------- transaction blocks

  lemma {:induction false} LastTxExists(c: Consensus, ch: Chain)
    requires ValidConstants(c) && ValidChain(c, ch) && ch.Snoc?
    ensures LastTx(ch).Snoc? && LastTx(ch).top.IsTransactionBlock()
    ensures IsPrefix(LastTx(ch), ch) && 0 <= Height(LastTx(ch)) <= Height(ch)
  {
    assert Follows(c, ch.prev, ch.top) && TransactionOk(c, ch.prev, ch.top);
    if !ch.top.IsTransactionBlock() { LastTxExists(c, ch.prev); }
  }

  /** The newest transaction block is the same for every chain between it and the top. */
  lemma {:induction false} LastTxCut(a: Chain, ch: Chain)
    requires Numbered(ch) && IsPrefix(a, ch) && Height(LastTx(ch)) <= Height(a)
    ensures LastTx(a) == LastTx(ch)
  {
    if a != ch {
      PrefixIsUpTo(a, ch.prev);
      LastTxCut(a, ch.prev);
    }
  }

  /** Every transaction block of a chain is at or below the newest one. */
  lemma {:induction false} LastTxIsLast(a: Chain, ch: Chain)
    requires Numbered(ch) && IsPrefix(a, ch) && a.Snoc? && a.top.IsTransactionBlock()
    ensures LastTx(ch).Snoc? && Height(a) <= Height(LastTx(ch)) && IsPrefix(a, LastTx(ch))
  {
    if !ch.top.IsTransactionBlock() { LastTxIsLast(a, ch.prev); }
    if a == ch { PrefixIsUpTo(a, ch); }
    PrefixIsUpTo(a, ch);
  }

  /** A stretch without transaction blocks that starts with a sub-slot never leaves that sub-slot. */
  lemma {:induction false} NoTxStaysInSlot(c: Consensus, q: Chain, ch: Chain)
    requires ValidConstants(c) && ValidChain(c, ch) && IsPrefix(q, ch)
    requires q.Snoc? && Height(q) > 0 && q.top.FirstInSubSlot() && Height(LastTx(ch)) < Height(q)
    ensures Height(FirstOfSlot(ch)) <= Height(q)
  {
    var f := FirstOfSlot(ch);
    ValidNumbered(c, ch);
    SlotBounded(c, ch);
    if Height(f) > Height(q) {
      var before, t := f.prev, LastTx(ch);
      PrefixOrder(q, f, ch);
      assert IsPrefix(q, before);
      PrefixIsUpTo(f, ch);
      LastTxExists(c, ch);
      LastTxCut(f, ch);
      assert LastTx(before) == t && TransactionOk(c, before, f.top);
      SignagePointFloor(c, f);
      AncestorsEarlier(c, q, before);
      PrefixValid(c, q, ch);
      PrefixOrder(t, q, ch);
      AncestorsEarlier(c, t, q);
    }
  }

  /** Of two prefixes of a chain, the lower one is a prefix of the other. */
  lemma {:induction false} PrefixOrder(a: Chain, b: Chain, ch: Chain)
    requires Numbered(ch) && IsPrefix(a, ch) && IsPrefix(b, ch) && Height(a) <= Height(b)
    ensures IsPrefix(a, b)
  {
    if b != ch {
      PrefixIsUpTo(b, ch.prev);
      PrefixOrder(a, b, ch.prev);
    }
  }

  /** Some block among the first of a sub-slot and the next MAX_SUB_SLOT_BLOCKS is a transaction block. */
  lemma {:induction false} TxWithinSlot(c: Consensus, q: Chain, ch: Chain) returns (x: Chain)
    requires ValidConstants(c) && ValidChain(c, ch) && IsPrefix(q, ch)
    requires q.Snoc? && Height(q) > 0 && q.top.FirstInSubSlot()
    requires Height(ch) >= Height(q) + c.maxSubSlotBlocks
    ensures IsPrefix(x, ch) && x.Snoc? && x.top.IsTransactionBlock()
    ensures Height(q) <= Height(x) <= Height(q) + c.maxSubSlotBlocks
  {
    var h := Height(q) + c.maxSubSlotBlocks;
    CutValid(c, ch, h);
    var cut := UpTo(ch, h);
    UpToReaches(ch, h);
    PrefixOrder(q, cut, ch);
    x := LastTx(cut);
    LastTxExists(c, cut);
    PrefixTrans(x, cut, ch);
    if Height(x) < Height(q) {
      NoTxStaysInSlot(c, q, cut);
      SlotBounded(c, cut);
    }
  }

  /** Within two sub-slots of genesis there is a second transaction block. */
  lemma {:induction false} EarlyTx(c: Consensus, ch: Chain) returns (x: Chain)
    requires ValidConstants(c) && ValidChain(c, ch) && Height(ch) >= 2 * c.maxSubSlotBlocks
    ensures IsPrefix(x, ch) && x.Snoc? && x.top.IsTransactionBlock()
    ensures 0 < Height(x) <= 2 * c.maxSubSlotBlocks
  {
    CutValid(c, ch, c.maxSubSlotBlocks);
    UpToReaches(ch, c.maxSubSlotBlocks);
    var cut := UpTo(ch, c.maxSubSlotBlocks);
    SlotBounded(c, cut);
    PrefixTrans(FirstOfSlot(cut), cut, ch);
    x := TxWithinSlot(c, FirstOfSlot(cut), ch);
  }

  /** Timestamps grow strictly from transaction block to transaction block. */
  lemma {:induction false} TimestampsGrow(c: Consensus, a: Chain, b: Chain)
    requires ValidConstants(c) && ValidChain(c, b) && IsPrefix(a, b) && Height(a) < Height(b)
    requires a.Snoc? && a.top.IsTransactionBlock() && b.top.IsTransactionBlock()
    ensures a.top.block.foliage.value.timestamp < b.top.block.foliage.value.timestamp
    decreases Height(b)
  {
    ValidNumbered(c, b);
    assert Follows(c, b.prev, b.top) && TransactionOk(c, b.prev, b.top);
    var t := LastTx(b.prev);
    LastTxExists(c, b.prev);
    LastTxIsLast(a, b.prev);
    if Height(a) < Height(t) {
      PrefixValid(c, t, b.prev);
      TimestampsGrow(c, a, t);
    } else {
      PrefixIsUpTo(a, b.prev);
      PrefixIsUpTo(t, b.prev);
    }
  }

  // ---------------------------------------------------------------- finished sub-slots

  function SlotIterations(slots: seq<SubSlot>): nat {
    if slots == [] then 0 else SlotIterations(slots[..|slots| - 1]) + slots[|slots| - 1].iterations
  }

  /** The summed lengths of all sub-slots finished anywhere on the chain. */
  function FinishedIterations(ch: Chain): nat {
    if ch.Empty? then 0 else FinishedIterations(ch.prev) + SlotIterations(ch.top.block.finishedSubSlots)
  }

  lemma {:induction false} SlotIterationsSum(slots: seq<SubSlot>, first: nat, rest: nat)
    requires forall i | 0 <= i < |slots| :: slots[i].iterations == (if i == 0 then first else rest)
    ensures SlotIterations(slots) == if slots == [] then 0 else first + rest * (|slots| - 1)
  {
    if slots != [] {
      SlotIterationsSum(slots[..|slots| - 1], first, rest);
      if |slots| > 1 { OneFewer(rest, |slots| - 1); }
    }
  }

  /** The lengths of the sub-slots finished before a block. */
  lemma {:induction false} SlotLengths(c: Consensus, ch: Chain, slots: seq<SubSlot>, w: nat)
    requires ValidConstants(c) && ValidChain(c, ch) && ch.Snoc? && slots == ch.top.block.finishedSubSlots
             && w == ch.top.subSlotIters
    ensures forall i | 0 <= i < |slots| ::
        slots[i].iterations == (if i == 0 && ch.prev.Snoc? then ch.prev.top.subSlotIters else w)
  {
    forall i | 0 <= i < |slots|
      ensures slots[i].iterations == (if i == 0 && ch.prev.Snoc? then ch.prev.top.subSlotIters else w)
    {
      assert SubSlotOk(c, ch.prev, ch.top, i);
    }
  }

  /** One block further, the start of the sub-slot moves by the sub-slots finished in between. */
  lemma {:induction false} StepIterations(c: Consensus, ch: Chain)
    requires ValidConstants(c) && ValidChain(c, ch) && ch.Snoc?
    ensures SlotStart(c, ch.top) == (if ch.prev.Empty? then 0
        else SlotStart(c, ch.prev.top)) + SlotIterations(ch.top.block.finishedSubSlots)
  {
    var slots, w := ch.top.block.finishedSubSlots, ch.top.subSlotIters;
    assert ItersOk(c, ch.prev, ch.top);
    SlotLengths(c, ch, slots, w);
    if ch.prev.Empty? {
      SlotIterationsSum(slots, w, w);
      if slots != [] { OneFewer(w, |slots|); }
    } else {
      SlotIterationsSum(slots, ch.prev.top.subSlotIters, w);
    }
  }

  /** A block's sub-slot starts after exactly the iterations of all finished sub-slots. */
  lemma {:induction false} IterationsAccounted(c: Consensus, ch: Chain)
    requires ValidConstants(c) && ValidChain(c, ch) && ch.Snoc?
    ensures ch.top.block.totalIters - Ip(c, ch.top) == FinishedIterations(ch)
  {
    StepIterations(c, ch);
    if ch.prev.Snoc? { IterationsAccounted(c, ch.prev); }
  }
}
