/**
  What the adjustment at the end of an epoch amounts to: the new difficulty and the new sub-slot length are
  those with which the measured epoch would have been on target, up to truncation and the limits of change.
 */
module Retargeting {
  import opened Types
  import opened Chains
  import opened HeaderRules
  import opened SubEpochs
  import opened ChainIterations
  import opened Epochs
  import opened SignificantBits
  import opened Arithmetic

  // ---------------------------------------------------------------- a quotient with limits

  /** A value is num / den, rounded down to a step. */
  ghost predicate Floored(num: nat, den: nat, step: nat, now: nat) {
    now * den <= num < (now + step) * den
  }

  /** A value is the part of an old one, or the floor if that is more, rounded down to a step. */
  ghost predicate PartFloored(factor: nat, floor: nat, was: nat, step: nat, now: nat) {
    (now <= floor || factor * now <= was) && floor < now + step && was < factor * (now + step)
  }

  /** A new value for an old one. The measured quotient num / den decides, rounded down to a step; it changes by no
      more than a factor either way, and does not fall below a floor. */
  ghost predicate Adjusted(factor: nat, floor: nat, was: nat, num: nat, den: nat, step: nat, now: nat) {
    && (num <= factor * was * den && was * den <= factor * num && floor * den <= num ==> Floored(num, den, step, now))
    && (factor * was * den <= num ==> now <= factor * was < now + step)
    && (factor * num <= was * den || num < floor * den ==> PartFloored(factor, floor, was, step, now))
  }

  lemma {:induction false} Scaled(a: nat, b: nat, k: nat)
    requires k > 0
    ensures a <= b <==> a * k <= b * k
  {
    if a < b { ScaleLess(a, b, k); }
    if b < a { ScaleLess(b, a, k); }
  }

  lemma {:induction false} Quotient(num: nat, den: nat, q: nat)
    requires den > 0
    ensures q <= num / den <==> q * den <= num
  {
    var f := num / den;
    assert num == den * f + num % den && den * f == f * den;
    if q <= f { Scaled(q, f, den); } else { ScaleLess(f, q, den); }
  }

  /** Whatever is at most a part of the old value. */
  lemma {:induction false} QuotientAtLeastPart(num: nat, den: nat, was: nat, factor: nat)
    requires den > 0 && factor > 0 && was * den <= factor * num
    ensures was / factor <= num / den
  {
    var part := was / factor;
    Quotient(was, factor, part);
    Scaled(part * factor, was, den);
    assert part * factor * den == (part * den) * factor;
    Scaled(part * den, num, factor);
    Quotient(num, den, part);
  }

  lemma {:induction false} QuotientAtMostPart(num: nat, den: nat, was: nat, factor: nat)
    requires den > 0 && factor > 0 && factor * num <= was * den
    ensures num / den <= was / factor
  {
    var q := num / den;
    Quotient(num, den, q);
    Scaled(q * den, num, factor);
    assert q * den * factor == (q * factor) * den;
    Scaled(q * factor, was, den);
    Quotient(was, factor, q);
  }

  /** Below the floor, and not far below the old value, means that the part of the old value is below the floor too. */
  lemma {:induction false} PartBelowFloor(num: nat, den: nat, was: nat, factor: nat, floor: nat)
    requires den > 0 && factor > 0 && was * den < factor * num && num < floor * den
    ensures was / factor < floor
  {
    var part := was / factor;
    if floor <= part {
      QuotientAtLeastPart(num, den, was, factor);
      Quotient(num, den, floor);
    }
  }

  lemma {:induction false} ClipWithin(c: Consensus, num: nat, den: nat, was: nat, floor: nat)
    requires c.difficultyChangeMaxFactor > 0 && den > 0
    requires var factor := c.difficultyChangeMaxFactor;
             num <= factor * was * den && was * den <= factor * num && floor * den <= num
    ensures Clip(c, num / den, was, floor) == num / den
  {
    var factor, q := c.difficultyChangeMaxFactor, num / den;
    Quotient(num, den, q);
    Scaled(q, factor * was, den);
    Quotient(num, den, floor);
    QuotientAtLeastPart(num, den, was, factor);
  }

  lemma {:induction false} ClipAbove(c: Consensus, num: nat, den: nat, was: nat, floor: nat)
    requires c.difficultyChangeMaxFactor > 0 && den > 0 && c.difficultyChangeMaxFactor * was * den <= num
    ensures Clip(c, num / den, was, floor) == c.difficultyChangeMaxFactor * was
  {
    Quotient(num, den, c.difficultyChangeMaxFactor * was);
    AtLeastOnce(was, c.difficultyChangeMaxFactor);
  }

  lemma {:induction false} ClipBelow(c: Consensus, num: nat, den: nat, was: nat, floor: nat)
    requires c.difficultyChangeMaxFactor > 0 && den > 0 && 0 < floor <= was
    requires c.difficultyChangeMaxFactor * num <= was * den || num < floor * den
    ensures Clip(c, num / den, was, floor) == Max(floor, was / c.difficultyChangeMaxFactor)
  {
    var factor, q := c.difficultyChangeMaxFactor, num / den;
    QuotientSmaller(was, factor);
    AtLeastOnce(was, factor);
    Quotient(num, den, floor);
    if factor * num <= was * den {
      QuotientAtMostPart(num, den, was, factor);
    } else {
      PartBelowFloor(num, den, was, factor, floor);
    }
  }

  /** The limited quotient, before anything is rounded. */
  lemma {:induction false} ClipAdjusts(c: Consensus, num: nat, den: nat, was: nat, floor: nat)
    requires c.difficultyChangeMaxFactor > 0 && den > 0 && 0 < floor <= was
    ensures Adjusted(c.difficultyChangeMaxFactor, floor, was, num, den, 1, Clip(c, num / den, was, floor))
  {
    var factor := c.difficultyChangeMaxFactor;
    if num <= factor * was * den && was * den <= factor * num && floor * den <= num {
      ClipWithin(c, num, den, was, floor);
      Quotient(num, den, num / den);
      Quotient(num, den, num / den + 1);
    }
    if factor * was * den <= num { ClipAbove(c, num, den, was, floor); }
    if factor * num <= was * den || num < floor * den {
      ClipBelow(c, num, den, was, floor);
      PartOf(was, factor, floor);
    }
  }

  lemma {:induction false} PartOf(was: nat, factor: nat, floor: nat)
    requires factor > 0
    ensures var v := Max(floor, was / factor); (v <= floor || factor * v <= was) && was < factor * (v + 1)
  {
    var part, v := was / factor, Max(floor, was / factor);
    Quotient(was, factor, part);
    Quotient(was, factor, part + 1);
    Scaled(part + 1, v + 1, factor);
  }

  lemma {:induction false} FlooredDown(num: nat, den: nat, v: nat, step: nat, now: nat)
    requires Floored(num, den, 1, v) && now <= v < now + step && den > 0
    ensures Floored(num, den, step, now)
  {
    Scaled(now, v, den);
    Scaled(v + 1, now + step, den);
  }

  lemma {:induction false} PartFlooredDown(factor: nat, floor: nat, was: nat, v: nat, step: nat, now: nat)
    requires PartFloored(factor, floor, was, 1, v) && now <= v < now + step && factor > 0
    ensures PartFloored(factor, floor, was, step, now)
  {
    Scaled(now, v, factor);
    Scaled(v + 1, now + step, factor);
  }

  /** Rounding down by less than a step keeps the law, with that step. */
  lemma {:induction false} AdjustedDown(factor: nat, floor: nat, was: nat, num: nat, den: nat, v: nat, step: nat,
                                        now: nat)
    requires Adjusted(factor, floor, was, num, den, 1, v) && now <= v < now + step && factor > 0 && den > 0
    ensures Adjusted(factor, floor, was, num, den, step, now)
  {
    if Floored(num, den, 1, v) { FlooredDown(num, den, v, step, now); }
    if PartFloored(factor, floor, was, 1, v) { PartFlooredDown(factor, floor, was, v, step, now); }
  }

  // ---------------------------------------------------------------- the two parameters

  /** The value of the lowest bit that truncation keeps. */
  function LowestBit(c: Consensus, x: nat): nat {
    if c.significantBits <= BitLength(x) then Pow2(BitLength(x) - c.significantBits) else 1
  }

  lemma {:induction false} TruncatedStep(c: Consensus, v: nat)
    requires c.significantBits > 0
    ensures var d := TruncateToSignificantBits(v, c.significantBits); d <= v < d + LowestBit(c, d)
  {
    TruncateSpec(v, c.significantBits);
  }

  lemma {:induction false} TruncatedAdjusts(c: Consensus, num: nat, den: nat, was: nat)
    requires c.significantBits > 0 && c.difficultyChangeMaxFactor > 0 && den > 0 && was > 0
    ensures var d := TruncateToSignificantBits(Clip(c, num / den, was, 1), c.significantBits);
            Adjusted(c.difficultyChangeMaxFactor, 1, was, num, den, LowestBit(c, d), d)
  {
    var v := Clip(c, num / den, was, 1);
    ClipAdjusts(c, num, den, was, 1);
    TruncatedStep(c, v);
    var d := TruncateToSignificantBits(v, c.significantBits);
    AdjustedDown(c.difficultyChangeMaxFactor, 1, was, num, den, v, LowestBit(c, d), d);
  }

  /** Weight per slot time: with the new difficulty the measured epoch would have had its target number of blocks per
      slot, rounded down to the bits that are kept. */
  lemma {:induction false} DifficultyAdjusted(c: Consensus, weight: nat, seconds: nat, was: nat)
    requires ValidConstants(c) && seconds > 0 && c.slotBlocksTarget * seconds > 0 && was > 0
    ensures var d := NewDifficulty(c, weight, seconds, was);
            Adjusted(c.difficultyChangeMaxFactor, 1, was, weight * c.subSlotTimeTarget, c.slotBlocksTarget * seconds,
                     LowestBit(c, d), d)
  {
    TruncatedAdjusts(c, weight * c.subSlotTimeTarget, c.slotBlocksTarget * seconds, was);
  }

  /** An epoch on target leaves the difficulty as it is. */
  lemma {:induction false} DifficultyOnTarget(c: Consensus, weight: nat, seconds: nat, was: nat)
    requires ValidConstants(c) && seconds > 0 && c.slotBlocksTarget * seconds > 0 && was > 0
    requires weight * c.subSlotTimeTarget == was * (c.slotBlocksTarget * seconds)
             && CountSignificantBits(was) <= c.significantBits
    ensures NewDifficulty(c, weight, seconds, was) == was
  {
    Exact(was, c.slotBlocksTarget * seconds);
    AtLeastOnce(was, c.difficultyChangeMaxFactor);
    TruncateKeeps(was, c.significantBits);
  }

  lemma {:induction false} Exact(a: nat, den: nat)
    requires den > 0
    ensures a * den / den == a
  {
    Quotient(a * den, den, a);
    Quotient(a * den, den, a + 1);
    Scaled(a + 1, a, den);
  }

  /** By how much rounding may have lowered a sub-slot length: to the bits that are kept, and to whole iterations per
      signage point interval. */
  function LengthStep(c: Consensus, x: nat): nat { Max(LowestBit(c, x), c.numSpsSubSlot) }

  /** Truncating and then rounding down to a power of two is clearing low bits. */
  lemma {:induction false} RoundedIsCleared(v: nat, bits: nat, j: nat)
    ensures var k := if bits <= BitLength(v) then BitLength(v) - bits else 0;
            RoundDown(TruncateToSignificantBits(v, bits), Pow2(j)) == ClearLow(v, if k <= j then j else k)
  {
    var k := if bits <= BitLength(v) then BitLength(v) - bits else 0;
    ClearLowIsMultiple(TruncateToSignificantBits(v, bits), j);
    ClearTwice(v, k, j);
  }

  lemma {:induction false} ClearedBelow(v: nat, m: nat)
    ensures ClearLow(v, m) <= v < ClearLow(v, m) + Pow2(m)
  {
    ClearLowIsMultiple(v, m);
  }

  lemma {:induction false} RoundedTwice(c: Consensus, v: nat)
    requires ValidConstants(c) && c.numSpsSubSlot <= v
    ensures var s := RoundDown(TruncateToSignificantBits(v, c.significantBits), c.numSpsSubSlot);
            s <= v < s + LengthStep(c, s)
  {
    var j: nat :| c.numSpsSubSlot == Pow2(j);
    var k := if c.significantBits <= BitLength(v) then BitLength(v) - c.significantBits else 0;
    var m := if k <= j then j else k;
    RoundedIsCleared(v, c.significantBits, j);
    ClearedBelow(v, m);
    SameLength(v, m, j);
  }

  /** Clearing low bits keeps the number of bits, as long as the leading one is kept. */
  lemma {:induction false} SameLength(v: nat, m: nat, j: nat)
    requires Pow2(j) <= v && j <= m && (m == j || m < BitLength(v))
    ensures BitLength(ClearLow(v, m)) == BitLength(v)
  {
    BitLengthBounds(v);
    var len := BitLength(v);
    if m >= len { Pow2Monotone(len, j); }
    ClearLowKeeps(v, m, len - 1);
    BitLengthUnique(ClearLow(v, m), len);
  }

  /** Iterations per slot time: with the new length the measured epoch would have had sub-slots of the target time. */
  lemma {:induction false} LengthAdjusted(c: Consensus, iters: nat, seconds: nat, was: nat)
    requires ValidConstants(c) && seconds > 0 && GoodSubSlotIters(c, was)
    ensures var s := NewSubSlotIters(c, iters, seconds, was);
            Adjusted(c.difficultyChangeMaxFactor, c.numSpsSubSlot, was, c.subSlotTimeTarget * iters, seconds,
                     LengthStep(c, s), s)
  {
    var num := c.subSlotTimeTarget * iters;
    var v := Clip(c, num / seconds, was, c.numSpsSubSlot);
    MultipleIsModulo(was, c.numSpsSubSlot);
    MultipleIsBig(was, c.numSpsSubSlot);
    ClipAdjusts(c, num, seconds, was, c.numSpsSubSlot);
    ClipBounds(c, num / seconds, was, c.numSpsSubSlot);
    RoundedTwice(c, v);
    var s := NewSubSlotIters(c, iters, seconds, was);
    AdjustedDown(c.difficultyChangeMaxFactor, c.numSpsSubSlot, was, num, seconds, v, LengthStep(c, s), s);
  }

  /** An epoch on target leaves the sub-slot length as it is. */
  lemma {:induction false} LengthOnTarget(c: Consensus, iters: nat, seconds: nat, was: nat)
    requires ValidConstants(c) && seconds > 0 && GoodSubSlotIters(c, was)
             && c.subSlotTimeTarget * iters == was * seconds
    ensures NewSubSlotIters(c, iters, seconds, was) == was
  {
    Exact(was, seconds);
    AtLeastOnce(was, c.difficultyChangeMaxFactor);
    TruncateKeeps(was, c.significantBits);
    MultipleIsModulo(was, c.numSpsSubSlot);
  }

  // ---------------------------------------------------------------- what is measured

  /** The newest transaction block of a chain that is infused no later than a signage point. */
  ghost predicate NewestBefore(ch: Chain, sp: int, to: Chain)
    requires Numbered(ch)
  {
    && to.Snoc? && IsPrefix(to, ch) && to.top.IsTransactionBlock() && to.top.block.totalIters <= sp
    && forall h | 0 <= h <= Height(ch) && Height(to) < h && At(ch, h).IsTransactionBlock() ::
         At(ch, h).block.totalIters > sp
  }

  /** The transaction block of a chain with exactly one transaction block above it. */
  ghost predicate SecondNewestTx(ch: Chain, from: Chain)
    requires Numbered(ch)
  {
    && from.Snoc? && IsPrefix(from, ch) && from.top.IsTransactionBlock()
    && exists h | 0 <= h <= Height(ch) && Height(from) < h ::
         && At(ch, h).IsTransactionBlock()
         && forall g | 0 <= g <= Height(ch) && Height(from) < g && At(ch, g).IsTransactionBlock() :: g == h
  }

  /** The block q that includes the summary of the sub-epoch before a barrier, with which an epoch begins. */
  ghost predicate StartsAt(c: Consensus, ch: Chain, w: nat, q: Chain) {
    q.Snoc? && IsPrefix(q, ch) && q.top.SummaryIncluded() && w <= Height(q) < w + c.subEpochBlocks && Numbered(q.prev)
  }

  /** The block from which the epoch at barrier w is measured: genesis, or the last transaction block but one before the
      epoch begins with q. */
  ghost predicate MeasuredFrom(c: Consensus, ch: Chain, w: nat, q: Chain, from: Chain)
    requires Numbered(ch)
  {
    && from.Snoc? && IsPrefix(from, ch)
    && if w == 0 then Height(from) == 0 else StartsAt(c, ch, w, q) && SecondNewestTx(q.prev, from)
  }

  lemma {:induction false} MeasuredToIs(ch: Chain, sp: int, a: Chain)
    requires Numbered(ch) && IsPrefix(a, ch) && a.Snoc? && a.top.IsTransactionBlock() && a.top.block.totalIters <= sp
    ensures NewestBefore(ch, sp, MeasuredAt(ch, sp))
  {
    var to := MeasuredAt(ch, sp);
    MeasuredSpec(ch, sp, a);
    forall h | 0 <= h <= Height(ch) && Height(to) < h && At(ch, h).IsTransactionBlock()
      ensures At(ch, h).block.totalIters > sp
    {
      UpToReaches(ch, h);
      if At(ch, h).block.totalIters <= sp { MeasuredSpec(ch, sp, UpTo(ch, h)); }
    }
  }

  lemma {:induction false} SecondNewestIs(ch: Chain)
    requires Numbered(ch) && LastTx(ch).Snoc? && LastTx(ch).top.IsTransactionBlock()
    requires var a := LastTx(ch);
             IsPrefix(a, ch) && LastTx(a.prev).Snoc? && LastTx(a.prev).top.IsTransactionBlock()
               && IsPrefix(LastTx(a.prev), a)
    ensures SecondNewestTx(ch, LastTx(LastTx(ch).prev))
  {
    var a := LastTx(ch);
    var from := LastTx(a.prev);
    PrefixTrans(from, a, ch);
    PrefixIsUpTo(a, ch);
    NumberedHeight(a);
    LastTxBelow(a.prev);
    assert At(ch, Height(a)) == a.top;
    forall g | 0 <= g <= Height(ch) && Height(from) < g && At(ch, g).IsTransactionBlock() ensures g == Height(a) {
      UpToReaches(ch, g);
      var x := UpTo(ch, g);
      LastTxIsLast(x, ch);
      if g < Height(a) {
        PrefixOrder(x, a, ch);
        LastTxIsLast(x, a.prev);
      }
    }
  }

  lemma {:induction false} LastTxBelow(ch: Chain)
    requires Numbered(ch)
    ensures Height(LastTx(ch)) <= Height(ch)
  {
    if ch.Snoc? && !ch.top.IsTransactionBlock() { LastTxBelow(ch.prev); }
  }

  /** Two transaction blocks before the start q of an epoch, and the older one is the mark. */
  lemma {:induction false} MarkBefore(c: Consensus, q: Chain, x: Chain, ch: Chain) returns (from: Chain)
    requires ValidConstants(c) && ValidChain(c, ch) && IsPrefix(q, ch) && IsPrefix(x, ch)
    requires q.Snoc? && Numbered(q.prev) && x.Snoc? && x.top.IsTransactionBlock() && 0 < Height(x) < Height(q)
    ensures from.Snoc? && SecondLastTx(q.prev) == Some(from.top) && IsPrefix(from, ch) && SecondNewestTx(q.prev, from)
  {
    TwoTxBefore(c, q, x, ch);
    PrefixValid(c, q, ch);
    LastTxExists(c, q.prev);
    from := LastTx(LastTx(q.prev).prev);
    SecondNewestIs(q.prev);
    PrefixTrans(from, q.prev, q);
    PrefixTrans(from, q, ch);
  }

  /** A later epoch is measured from where it should be. */
  lemma {:induction false} LaterMark(c: Consensus, ch: Chain, w: nat) returns (q: Chain, from: Chain)
    requires ValidConstants(c) && ValidChain(c, ch) && Numbered(ch)
    requires PrevEpochSurpass(c, Height(ch)) == w && w % c.subEpochBlocks == 0 && w >= c.epochBlocks
    requires Height(ch) + 2 >= w + c.epochBlocks
    ensures from.Snoc? && PrevEpochMark(c, ch) == Some(from.top) && MeasuredFrom(c, ch, w, q, from)
  {
    var x := EarlyTx(c, ch);
    SubEpochInEpoch(c);
    q := EpochStart(c, ch, w);
    PrefixIsUpTo(q, ch);
    from := MarkBefore(c, q, x, ch);
  }

  lemma {:induction false} FirstMark(c: Consensus, ch: Chain) returns (from: Chain)
    requires ValidConstants(c) && ValidChain(c, ch) && ch.Snoc? && Numbered(ch)
    requires PrevEpochSurpass(c, Height(ch)) == 0
    ensures from.Snoc? && PrevEpochMark(c, ch) == Some(from.top) && MeasuredFrom(c, ch, 0, Empty, from)
  {
    RootIsGenesis(c, ch);
    from := UpTo(ch, 0);
  }

  lemma {:induction false} MarkIs(c: Consensus, ch: Chain, s: nat) returns (q: Chain, from: Chain)
    requires ValidConstants(c) && ValidChain(c, ch) && ch.Snoc? && Numbered(ch)
    requires s % c.epochBlocks == 0 && s % c.subEpochBlocks == 0 && s >= c.epochBlocks && s <= Height(ch) + 2
    requires PrevEpochSurpass(c, Height(ch)) == s - c.epochBlocks
    ensures from.Snoc? && PrevEpochMark(c, ch) == Some(from.top)
    ensures MeasuredFrom(c, ch, s - c.epochBlocks, q, from)
  {
    if s == c.epochBlocks {
      q := Empty;
      from := FirstMark(c, ch);
    } else {
      PreviousEpoch(c, s);
      q, from := LaterMark(c, ch, s - c.epochBlocks);
    }
  }

  /** A transaction block early enough to be measured to. */
  lemma {:induction false} SomeMeasured(c: Consensus, ch: Chain, s: nat) returns (a: Chain)
    requires ValidConstants(c) && ValidChain(c, ch) && ch.Snoc? && ch.prev.Snoc?
    requires s % c.epochBlocks == 0 && s % c.subEpochBlocks == 0 && s >= c.epochBlocks && s <= Height(ch) + 1
    requires PrevEpochSurpass(c, Height(ch.prev)) == s - c.epochBlocks
    ensures a.Snoc? && IsPrefix(a, ch.prev) && a.top.IsTransactionBlock()
    ensures a.top.block.totalIters <= SpTotalIters(c, ch.top)
  {
    var from: Chain;
    if s == c.epochBlocks {
      from, a := FirstEpochMark(c, ch);
    } else {
      PreviousEpoch(c, s);
      from, a := LaterEpochMark(c, ch, s - c.epochBlocks);
    }
  }

  /** An ending epoch is measured from the last transaction block but one before it, or from genesis, to the newest
      transaction block infused no later than the signage point of its last block. */
  lemma {:induction false} EpochSpan(c: Consensus, ch: Chain) returns (s: nat, q: Chain, from: Chain, to: Chain)
    requires ValidConstants(c) && ValidChain(c, ch) && FinishesEpoch(c, ch)
    ensures s % c.epochBlocks == 0 && c.epochBlocks <= s <= Height(ch) + 1 < s + c.subEpochBlocks
    ensures ch.prev.Snoc? && Numbered(ch.prev)
    ensures from.Snoc? && to.Snoc? && EpochMeasure(c, ch) == Some((from.top, to.top))
    ensures MeasuredFrom(c, ch.prev, s - c.epochBlocks, q, from)
    ensures NewestBefore(ch.prev, SpTotalIters(c, ch.top), to)
  {
    s := EpochBarrier(c, ch);
    ValidNumbered(c, ch);
    NumberedHeight(ch.prev);
    SurpassIs(c, Height(ch.prev), s);
    var m;
    m, to := EpochMeasured(c, ch);
    q, from := MarkIs(c, ch.prev, s);
    var a := SomeMeasured(c, ch, s);
    to := MeasuredAt(ch.prev, SpTotalIters(c, ch.top));
    MeasuredToIs(ch.prev, SpTotalIters(c, ch.top), a);
  }

  // ---------------------------------------------------------------- every epoch of every chain

  /** What the step into a new epoch does to difficulty and sub-slot length, told by the two measured blocks. */
  ghost predicate Retargeted(c: Consensus, ch: Chain, from: BlockRecord, to: BlockRecord)
    requires ch.Snoc? && ch.prev.Snoc?
  {
    var weight, iters := to.block.weight - from.block.weight, to.block.totalIters - from.block.totalIters;
    var before, after := ch.prev.top.subSlotIters, ch.top.subSlotIters;
    && from.IsTransactionBlock() && to.IsTransactionBlock() && weight >= 0 && iters >= 0
    && var seconds := to.block.foliage.value.timestamp - from.block.foliage.value.timestamp;
    && seconds > 0 && DifficultyOf(ch) > 0 && DifficultyOf(ch.prev) > 0
    && Adjusted(c.difficultyChangeMaxFactor, 1, DifficultyOf(ch.prev), weight * c.subSlotTimeTarget,
                c.slotBlocksTarget * seconds, LowestBit(c, DifficultyOf(ch)), DifficultyOf(ch))
    && Adjusted(c.difficultyChangeMaxFactor, c.numSpsSubSlot, before, c.subSlotTimeTarget * iters, seconds,
                LengthStep(c, after), after)
  }

  /** Difficulty and sub-slot length of the ending epoch are still those of its newest blocks. */
  lemma {:induction false} StillCurrent(c: Consensus, p: Chain, to: Chain)
    requires ValidConstants(c) && ValidChain(c, p) && FinishesEpoch(c, p) && p.prev.Snoc?
    requires to == MeasuredAt(p.prev, SpTotalIters(c, p.top))
    ensures to.Snoc? && to.top.subSlotIters == p.top.subSlotIters && DifficultyOf(p.prev) == DifficultyOf(p)
  {
    var s := EpochBarrier(c, p);
    var q := CurrentEpoch(c, p, s);
    MeasuredInEpoch(c, q, p);
    ValidNumbered(c, p);
    PrefixOrder(q, to, p.prev);
    PrefixTrans(q, p.prev, p);
    ParamsKept(c, q, to, p, s);
    ParamsKept(c, q, p.prev, p, s);
    ParamsKept(c, q, p, p, s);
  }

  lemma {:induction false} BetweenValues(c: Consensus, from: BlockRecord, to: BlockRecord, seconds: nat, current: nat)
    requires c.difficultyChangeMaxFactor > 0 && c.numSpsSubSlot > 0
    requires seconds == SecondsBetween(from, to) > 0 && c.slotBlocksTarget * seconds > 0
    requires from.block.totalIters <= to.block.totalIters && from.block.weight <= to.block.weight
    ensures ItersBetween(c, from, to) ==
            Some(NewSubSlotIters(c, to.block.totalIters - from.block.totalIters, seconds, to.subSlotIters))
    ensures DifficultyBetween(c, from, to, current) ==
            Some(NewDifficulty(c, to.block.weight - from.block.weight, seconds, current))
  {}

  lemma {:induction false} NextAreBetween(c: Consensus, p: Chain, from: BlockRecord, to: BlockRecord)
    requires ValidConstants(c) && FinishesEpoch(c, p) && p.prev.Snoc? && Height(p) + 1 >= c.epochBlocks
    requires EpochMeasure(c, p) == Some((from, to)) && DifficultyOf(p) >= 0
    requires var current := DifficultyOf(p.prev);
             ItersBetween(c, from, to).Some? && DifficultyBetween(c, from, to, current).Some?
    ensures NextParams(c, p, true) ==
            Some(Params(ItersBetween(c, from, to).value, DifficultyBetween(c, from, to, DifficultyOf(p.prev)).value))
  {
    assert !p.top.SummaryIncluded();
  }

  lemma {:induction false} SpanGrows(c: Consensus, from: Chain, to: Chain, ch: Chain)
    requires ValidConstants(c) && ValidChain(c, ch) && IsPrefix(from, to) && IsPrefix(to, ch) && from.Snoc? && to.Snoc?
    ensures from.top.block.totalIters <= to.top.block.totalIters && from.top.block.weight <= to.top.block.weight
  {
    PrefixValid(c, to, ch);
    AncestorsEarlier(c, from, to);
    PrefixParamsGood(c, from, to, ch);
  }

  lemma {:induction false} Apply(c: Consensus, ch: Chain, from: BlockRecord, to: BlockRecord, seconds: nat)
    requires ValidConstants(c) && ch.Snoc? && ch.prev.Snoc? && from.IsTransactionBlock() && to.IsTransactionBlock()
    requires seconds == SecondsBetween(from, to) > 0 && c.slotBlocksTarget * seconds > 0
    requires from.block.totalIters <= to.block.totalIters && from.block.weight <= to.block.weight
    requires GoodSubSlotIters(c, ch.prev.top.subSlotIters) && DifficultyOf(ch.prev) > 0
    requires ch.top.subSlotIters == NewSubSlotIters(c, to.block.totalIters - from.block.totalIters, seconds,
        ch.prev.top.subSlotIters)
    requires DifficultyOf(ch) == NewDifficulty(c, to.block.weight - from.block.weight, seconds, DifficultyOf(ch.prev))
    ensures Retargeted(c, ch, from, to)
  {
    NewDifficultyGood(c, to.block.weight - from.block.weight, seconds, DifficultyOf(ch.prev));
    DifficultyAdjusted(c, to.block.weight - from.block.weight, seconds, DifficultyOf(ch.prev));
    LengthAdjusted(c, to.block.totalIters - from.block.totalIters, seconds, ch.prev.top.subSlotIters);
  }

  /** The parameters after an ending epoch. */
  lemma {:induction false} MeasuredValues(c: Consensus, p: Chain) returns (from: Chain, to: Chain)
    requires ValidConstants(c) && ValidChain(c, p) && FinishesEpoch(c, p)
    ensures p.prev.Snoc? && from.Snoc? && to.Snoc? && EpochMeasure(c, p) == Some((from.top, to.top))
    ensures from.top.IsTransactionBlock() && to.top.IsTransactionBlock()
    ensures from.top.block.foliage.value.timestamp < to.top.block.foliage.value.timestamp
    ensures from.top.block.totalIters <= to.top.block.totalIters && from.top.block.weight <= to.top.block.weight
    ensures to.top.subSlotIters == p.top.subSlotIters && DifficultyOf(p.prev) == DifficultyOf(p) >= 1
    ensures GoodSubSlotIters(c, p.top.subSlotIters) && Height(p) + 1 >= c.epochBlocks
  {
    var s := EpochBarrier(c, p);
    from, to := EpochMeasured(c, p);
    EpochParamsDefined(c, p, from, to);
    StillCurrent(c, p, MeasuredAt(p.prev, SpTotalIters(c, p.top)));
    SpanGrows(c, from, to, p.prev);
    ParamsStayGood(c, p);
  }

  lemma {:induction false} StepRetargets(c: Consensus, ch: Chain, from: BlockRecord, to: BlockRecord)
    requires ValidConstants(c) && ValidChain(c, ch) && BeginsEpoch(c, ch)
    requires EpochMeasure(c, ch.prev) == Some((from, to))
    ensures ch.prev.Snoc? && Retargeted(c, ch, from, to)
  {
    var f, t := MeasuredValues(c, ch.prev);
    var seconds := SecondsBetween(from, to);
    assert ParamsOk(c, ch.prev, ch.top);
    AtLeastOnce(c.slotBlocksTarget, seconds);
    BetweenValues(c, from, to, seconds, DifficultyOf(ch.prev.prev));
    NextAreBetween(c, ch.prev, from, to);
    Apply(c, ch, from, to, seconds);
  }

  /** Every epoch of every valid chain begins with the difficulty and sub-slot length that the one before asks for. */
  lemma {:induction false} EpochRetargets(c: Consensus, ch: Chain) returns (s: nat, q: Chain, from: Chain, to: Chain)
    requires ValidConstants(c) && ValidChain(c, ch) && BeginsEpoch(c, ch)
    ensures s % c.epochBlocks == 0 && c.epochBlocks <= s <= Height(ch) < s + c.subEpochBlocks
    ensures ch.prev.Snoc? && ch.prev.prev.Snoc? && Numbered(ch.prev.prev)
    ensures from.Snoc? && MeasuredFrom(c, ch.prev.prev, s - c.epochBlocks, q, from)
    ensures to.Snoc? && NewestBefore(ch.prev.prev, SpTotalIters(c, ch.prev.top), to)
    ensures Retargeted(c, ch, from.top, to.top)
  {
    assert Follows(c, ch.prev, ch.top);
    s, q, from, to := EpochSpan(c, ch.prev);
    StepRetargets(c, ch, from.top, to.top);
  }
}
