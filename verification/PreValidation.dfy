/**
  Pre-validation of a batch of blocks: only a window of recent records is kept for looking up
  challenges, and records of the batch are put into the block tree for the time being.
 */
module PreValidation {
  import opened Types
  import opened Chains
  import opened BlockTree
  import opened PotIterations
  import opened HeaderRules
  import opened ChainIterations
  import opened BlockChallenge
  import opened HeaderValidation
  import Arithmetic
  import DifficultyAdjustment

  /** The window holds all blocks of ch above rest, and they carry n challenges. */
  ghost predicate Spans(c: Consensus, window: Blocks, ch: Chain, rest: Chain, n: int) {
    (ch == rest && n == 0) ||
    (&& ch.Snoc? && Has(window, ch.top)
     && Spans(c, window, ch.prev, rest, n - Contributes(c, ch.top)))
  }

  lemma {:induction false} SpansGrow(c: Consensus, window: Blocks, more: Blocks, ch: Chain, rest: Chain, n: int)
    requires Spans(c, window, ch, rest, n) && Within(window, more)
    ensures Spans(c, more, ch, rest, n)
  {
    if !(ch == rest && n == 0) { SpansGrow(c, window, more, ch.prev, rest, n - Contributes(c, ch.top)); }
  }

  /** Taking in one more block extends the span. */
  lemma {:induction false} SpansStep(c: Consensus, window: Blocks, ch: Chain, rest: Chain, n: int)
    requires Spans(c, window, ch, rest, n) && rest.Snoc?
    requires Has(window, rest.top)
    ensures Spans(c, window, ch, rest.prev, n + Contributes(c, rest.top))
  {
    if ch == rest && n == 0 {
      assert Spans(c, window, rest.prev, rest.prev, 0);
    } else {
      SpansStep(c, window, ch.prev, rest, n - Contributes(c, ch.top));
    }
  }

  /** A span with enough challenges, or one that ends at genesis, is a sufficient window. */
  lemma {:induction false} SpansReaches(c: Consensus, window: Blocks, ch: Chain, rest: Chain, n: int, k: int)
    requires Spans(c, window, ch, rest, n) && (n >= k || Reaches(c, window, rest, k - n))
    ensures Reaches(c, window, ch, k)
  {
    if !(ch == rest && n == 0) && k > 0 {
      SpansReaches(c, window, ch.prev, rest, n - Contributes(c, ch.top), k - Contributes(c, ch.top));
    }
  }

  // ---------------------------------------------------------------- the windows

  /** A window that serves every header on top of a chain, down to a bottom block. To look for a summary
      it must go down to one, or to genesis; a window that is not full serves blocks that end no sub-slot. */
  ghost predicate Covers(c: Consensus, window: Blocks, ch: Chain, bottom: Chain, full: bool) {
    && Numbered(ch) && HashLinked(ch) && bottom.Snoc? && Sees(window, ch, bottom)
    && IsPrefix(bottom, FirstOfSlot(ch)) && (LastTx(ch).Snoc? ==> IsPrefix(bottom, LastTx(ch)))
    && (full && ch.prev.Snoc? ==> bottom != ch && (bottom.top.SummaryIncluded() || bottom.top.block.height == 0))
    && Reaches(c, window, ch, 2)
  }

  lemma {:induction false} CoversMore(c: Consensus, window: Blocks, more: Blocks, ch: Chain, bottom: Chain, full: bool)
    requires Covers(c, window, ch, bottom, full) && Within(window, more)
    ensures Covers(c, more, ch, bottom, full)
  {
    SeesPrefix(window, ch, bottom);
    SeesMore(window, more, ch, bottom, bottom);
    ReachesMonotone(c, window, more, ch, 2, 2);
  }

  /** One more block on top. */
  lemma {:induction false} CoversNext(c: Consensus, window: Blocks, ch: Chain, r: BlockRecord, bottom: Chain,
                                      full: bool)
    requires Covers(c, window, ch, bottom, full) && Has(window, r)
    requires r.block.prevHash == ch.top.block.headerHash && r.block.height == Height(ch) + 1
    ensures Covers(c, window, Snoc(ch, r), bottom, full)
  {
    SeesPrefix(window, ch, bottom);
    PrefixIsUpTo(bottom, ch);
    ReachesMonotone(c, window, window, ch, 2, 2 - Contributes(c, r));
    assert IsPrefix(bottom, Snoc(ch, r));
  }

  /** The first block of all. */
  lemma {:induction false} CoversFirst(c: Consensus, window: Blocks, r: BlockRecord, full: bool)
    requires Has(window, r) && r.block.height == 0
    ensures Covers(c, window, Snoc(Empty, r), Snoc(Empty, r), full)
  {}

  /** The search for a summary does not pass one. */
  lemma {:induction false} StopsAtSummary(c: Consensus, window: Blocks, ch: Chain, bottom: Chain)
    requires c.subEpochBlocks > 0 && Numbered(ch) && bottom.Snoc? && Sees(window, ch, bottom)
    requires bottom.top.SummaryIncluded() || bottom.top.block.height == 0
    ensures Sees(window, ch, DifficultyAdjustment.WalkStop(c, ch))
  {
    SeesPrefix(window, ch, bottom);
    if ch == bottom {
      if ch.top.block.height == 0 { Arithmetic.ModuloSmall(0, c.subEpochBlocks); }
    } else {
      SeesBelow(window, ch, bottom);
      StopsAtSummary(c, window, ch.prev, bottom);
    }
  }

  /** On a valid chain such a window is all that header validation needs. */
  lemma {:induction false} CoversSuffices(c: Consensus, window: Blocks, ch: Chain, bottom: Chain, full: bool,
                                          block: FullBlock)
    requires ValidConstants(c) && ValidChain(c, ch) && Covers(c, window, ch, bottom, full)
    requires ch.top.block.headerHash == block.prevHash && (block.finishedSubSlots != [] ==> full)
    ensures Suffices(c, window, ch, block)
  {
    FirstOfSlotIsFirst(ch);
    LastTxExists(c, ch);
    SeesMore(window, window, ch, bottom, FirstOfSlot(ch));
    SeesMore(window, window, ch, bottom, LastTx(ch));
    if block.finishedSubSlots != [] && ch.prev.Snoc? {
      SeesBelow(window, ch, bottom);
      StopsAtSummary(c, window, ch.prev, bottom);
    }
  }

  // ---------------------------------------------------------------- collecting them

  /** A walk down a chain stands at rest, above which the window holds everything; n challenges and
      whether a transaction block were passed. */
  ghost predicate Walked(c: Consensus, window: Blocks, ch: Chain, rest: Chain, n: int, txs: nat) {
    && Spans(c, window, ch, rest, n) && IsPrefix(rest, ch) && Numbered(ch) && HashLinked(ch)
    && (if n > 0 then IsPrefix(rest, FirstOfSlot(ch)) && rest != FirstOfSlot(ch)
      else n == 0 && FirstOfSlot(ch) == FirstOfSlot(rest))
    && (if txs > 0 then IsPrefix(rest, LastTx(ch)) && rest != LastTx(ch) else LastTx(ch) == LastTx(rest))
  }

  /** Passing the block at which the walk stands. */
  lemma {:induction false} WalkOn(c: Consensus, window: Blocks, ch: Chain, rest: Chain, n: int, txs: nat)
    requires Walked(c, window, ch, rest, n, txs) && rest.Snoc? && Has(window, rest.top)
    ensures Walked(c, window, ch, rest.prev, n + Contributes(c, rest.top), if rest.top.IsTransactionBlock()
        then txs + 1 else txs)
  {
    SpansStep(c, window, ch, rest, n);
    PrefixTrans(rest.prev, rest, ch);
    PrefixIsUpTo(rest, ch);
    FirstOfSlotIsFirst(ch);
    LastTxIsTx(ch);
    PrefixIsUpTo(FirstOfSlot(ch), ch);
    PrefixIsUpTo(LastTx(ch), ch);
    if n > 0 { PrefixIsUpTo(rest, FirstOfSlot(ch)); PrefixTrans(rest.prev, rest, FirstOfSlot(ch)); }
    if txs > 0 { PrefixIsUpTo(rest, LastTx(ch)); PrefixTrans(rest.prev, rest, LastTx(ch)); }
  }

  lemma {:induction false} WalkedMore(c: Consensus, window: Blocks, more: Blocks, ch: Chain, rest: Chain, n: int,
                                      txs: nat)
    requires Walked(c, window, ch, rest, n, txs) && Within(window, more)
    ensures Walked(c, more, ch, rest, n, txs)
  {
    SpansGrow(c, window, more, ch, rest, n);
  }

  /** What a walk has taken in, down to the last block. */
  lemma {:induction false} SpansSees(c: Consensus, window: Blocks, ch: Chain, rest: Chain, n: int) returns (last: Chain)
    requires Spans(c, window, ch, rest, n) && Numbered(ch) && IsPrefix(rest, ch) && ch != rest
    ensures last.Snoc? && last.prev == rest && IsPrefix(last, ch) && Sees(window, ch, last)
  {
    if ch.prev == rest { last := ch; } else { last := SpansSees(c, window, ch.prev, rest, n - Contributes(c, ch.top)); }
  }

  /** With two challenges and a transaction block, what was taken in serves blocks that end no sub-slot. */
  lemma {:induction false} WalkedEnough(c: Consensus, window: Blocks, ch: Chain, rest: Chain, n: int, txs: nat)
    returns (last: Chain)
    requires Walked(c, window, ch, rest, n, txs) && n >= 2 && txs > 0
    ensures Covers(c, window, ch, last, false)
  {
    FirstOfSlotIsFirst(ch);
    LastTxIsTx(ch);
    PrefixIsUpTo(FirstOfSlot(ch), ch);
    PrefixIsUpTo(LastTx(ch), ch);
    PrefixIsUpTo(rest, FirstOfSlot(ch));
    PrefixIsUpTo(rest, LastTx(ch));
    last := SpansSees(c, window, ch, rest, n);
    PrefixIsUpTo(last, ch);
    PrefixOrder(last, FirstOfSlot(ch), ch);
    PrefixOrder(last, LastTx(ch), ch);
    SpansReaches(c, window, ch, rest, n, 2);
  }

  /** Where the walk ends, at genesis or at a summary with all that is needed above it. */
  lemma {:induction false} WalkedToBottom(c: Consensus, window: Blocks, ch: Chain, rest: Chain, n: int, txs: nat,
                                          full: bool)
    requires Walked(c, window, ch, rest, n, txs) && rest.Snoc? && Has(window, rest.top)
    requires rest.top.block.height == 0 || (n >= 2 && txs > 0 && rest.top.SummaryIncluded())
    ensures Covers(c, window, ch, rest, full)
  {
    PrefixIsUpTo(rest, ch);
    NumberedHeight(rest.prev);
    FirstOfSlotIsFirst(ch);
    PrefixIsUpTo(FirstOfSlot(ch), ch);
    if n > 0 { PrefixIsUpTo(rest, FirstOfSlot(ch)); }
    if ch == rest {
      assert Sees(window, ch, rest);
    } else {
      var last := SpansSees(c, window, ch, rest, n);
      SeesOneMore(window, ch, last);
    }
    if rest.top.block.height == 0 {
      assert LastTx(rest) == rest || LastTx(rest).Empty?;
      SpansStep(c, window, ch, rest, n);
      SpansReaches(c, window, ch, Empty, n + Contributes(c, rest.top), 2);
    } else {
      SpansReaches(c, window, ch, rest, n, 2);
    }
  }

  lemma {:induction false} SeesOneMore(window: Blocks, ch: Chain, last: Chain)
    requires Sees(window, ch, last) && last.Snoc? && last.prev.Snoc? && Has(window, last.prev.top)
    ensures Sees(window, ch, last.prev)
  {
    if ch != last { SeesOneMore(window, ch.prev, last); } else { assert Sees(window, ch.prev, ch.prev); }
  }

  /** Collects the records back to the previous sub-epoch, and the smaller window that serves
      batches without a sub-slot end. */
  method CollectRecentBlocks(c: Consensus, blocks: Blocks, start: Hash)
    returns (recent: Blocks, compressed: Blocks, ghost low: Chain, ghost lowest: Chain)
    requires Closed(blocks) && start in blocks && c.numberOfTimestamps > 0
    ensures Within(recent, blocks) && Within(compressed, blocks)
    ensures Covers(c, recent, Path(blocks, start), lowest, true)
            && Covers(c, compressed, Path(blocks, start), low, false)
  {
    ghost var ch := Path(blocks, start);
    ghost var rest := ch;
    PathSeen(blocks, start, ch);
    var curr := blocks[start];
    var needed := if Overflow(c, curr) then 3 else 2;
    var slotsFound, blocksSeen := 0, 0;
    recent, compressed, low := map[], map[], ch;
    while (!curr.SummaryIncluded() || blocksSeen < c.numberOfTimestamps || slotsFound < needed) && curr.block.height > 0
      invariant Has(blocks, curr) && rest == Path(blocks, curr.block.headerHash)
      invariant Within(recent, blocks) && Within(compressed, blocks) && slotsFound >= 0
      invariant Walked(c, recent, ch, rest, slotsFound, blocksSeen)
      invariant Walked(c, compressed, ch, rest, slotsFound, blocksSeen) || Covers(c, compressed, ch, low, false)
      invariant blocksSeen < c.numberOfTimestamps || slotsFound < needed ==>
          Walked(c, compressed, ch, rest, slotsFound, blocksSeen)
      decreases curr.block.height
    {
      assert Linked(blocks, curr.block.headerHash);
      if blocksSeen < c.numberOfTimestamps || slotsFound < needed {
        TakeIn(c, compressed, ch, rest, slotsFound, blocksSeen);
        compressed := compressed[curr.block.headerHash := curr];
      } else if Walked(c, compressed, ch, rest, slotsFound, blocksSeen) {
        low := WalkedEnough(c, compressed, ch, rest, slotsFound, blocksSeen);
      }
      TakeIn(c, recent, ch, rest, slotsFound, blocksSeen);
      if curr.FirstInSubSlot() { slotsFound := slotsFound + |FinishedSlots(c, curr)|; }
      recent := recent[curr.block.headerHash := curr];
      if curr.IsTransactionBlock() { blocksSeen := blocksSeen + 1; }
      curr := blocks[curr.block.prevHash];
      rest := rest.prev;
    }
    lowest := rest;
    assert Linked(blocks, curr.block.headerHash);
    LastIn(c, recent, ch, rest, slotsFound, blocksSeen, true);
    if Walked(c, compressed, ch, rest, slotsFound, blocksSeen) {
      LastIn(c, compressed, ch, rest, slotsFound, blocksSeen, false);
      low := rest;
    } else {
      CoversMore(c, compressed, compressed[curr.block.headerHash := curr], ch, low, false);
    }
    recent := recent[curr.block.headerHash := curr];
    compressed := compressed[curr.block.headerHash := curr];
  }

  /** Taking the block at which the walk stands into the window. */
  lemma {:induction false} TakeIn(c: Consensus, window: Blocks, ch: Chain, rest: Chain, n: int, txs: nat)
    requires Walked(c, window, ch, rest, n, txs) && rest.Snoc?
             && (rest.top.block.headerHash in window ==> Has(window, rest.top))
    ensures Walked(c, window[rest.top.block.headerHash := rest.top], ch, rest.prev, n + Contributes(c, rest.top),
                   if rest.top.IsTransactionBlock() then txs + 1 else txs)
  {
    var more := window[rest.top.block.headerHash := rest.top];
    WalkedMore(c, window, more, ch, rest, n, txs);
    WalkOn(c, more, ch, rest, n, txs);
  }

  lemma {:induction false} LastIn(c: Consensus, window: Blocks, ch: Chain, rest: Chain, n: int, txs: nat, full: bool)
    requires Walked(c, window, ch, rest, n, txs) && rest.Snoc?
             && (rest.top.block.headerHash in window ==> Has(window, rest.top))
    requires rest.top.block.height == 0 || (n >= 2 && txs > 0 && rest.top.SummaryIncluded())
    ensures Covers(c, window[rest.top.block.headerHash := rest.top], ch, rest, full)
  {
    var more := window[rest.top.block.headerHash := rest.top];
    WalkedMore(c, window, more, ch, rest, n, txs);
    WalkedToBottom(c, more, ch, rest, n, txs, full);
  }

  // ---------------------------------------------------------------- the batch

  /** The blocks of a batch follow each other, and a hash names one block only. */
  ghost predicate Chained(c: Consensus, blocks: Blocks, batch: seq<FullBlock>) {
    && (forall i, j | 0 <= i < j < |batch| :: batch[i].headerHash != batch[j].headerHash)
    && (forall i | 0 < i < |batch| :: IsChild(batch[i - 1], batch[i]))
    && (forall i | 0 <= i < |batch| :: batch[i].headerHash != c.genesisChallenge)
    && (forall i | 0 <= i < |batch| && batch[i].headerHash in blocks :: blocks[batch[i].headerHash].block == batch[i])
    && (batch != [] && batch[0].height == 0 ==> batch[0].prevHash == c.genesisChallenge)
    && (batch != [] && batch[0].height > 0 && batch[0].prevHash in blocks ==>
      IsChild(blocks[batch[0].prevHash].block, batch[0]))
  }

  ghost predicate IsChild(parent: FullBlock, block: FullBlock) {
    block.prevHash == parent.headerHash && block.height == parent.height + 1
  }

  /** The tree in the middle of pre-validation: the old one with the first n blocks of the batch. */
  ghost predicate TreeWith(c: Consensus, blocks: Blocks, batch: seq<FullBlock>, n: nat, tree: Blocks)
    requires n <= |batch|
  {
    && Closed(tree) && RootedAt(tree, c.genesisChallenge) && Within(blocks, tree)
    && (forall h | h in tree :: h in blocks || h in Hashes(batch, n))
    && (forall i | 0 <= i < n :: batch[i].headerHash in tree && tree[batch[i].headerHash].block == batch[i])
  }

  ghost function Hashes(batch: seq<FullBlock>, n: nat): set<Hash>
    requires n <= |batch|
  {
    if n == 0 then {} else Hashes(batch, n - 1) + {batch[n - 1].headerHash}
  }

  lemma {:induction false} HashIndex(batch: seq<FullBlock>, n: nat, h: Hash) returns (i: nat)
    requires n <= |batch| && h in Hashes(batch, n)
    ensures i < n && batch[i].headerHash == h
  {
    if batch[n - 1].headerHash == h { i := n - 1; } else { i := HashIndex(batch, n - 1, h); }
  }

  lemma {:induction false} HashesMonotone(batch: seq<FullBlock>, m: nat, n: nat)
    requires m <= n <= |batch|
    ensures Hashes(batch, m) <= Hashes(batch, n)
  {
    if m < n { HashesMonotone(batch, m, n - 1); }
  }

  lemma {:induction false} HeightsKept(blocks: Blocks, more: Blocks, heights: map<nat, Hash>)
    requires DifficultyAdjustment.HeightsConsistent(blocks, heights) && Within(blocks, more)
    ensures DifficultyAdjustment.HeightsConsistent(more, heights)
  {
  }

  /** The parent of the n-th block of the batch is in the tree, unless that block is genesis. */
  lemma {:induction false} ParentPresent(c: Consensus, blocks: Blocks, batch: seq<FullBlock>, n: nat, tree: Blocks)
    requires Chained(c, blocks, batch) && n < |batch| && TreeWith(c, blocks, batch, n, tree)
    requires batch[0].height > 0 ==> batch[0].prevHash in blocks
    ensures if batch[n].height == 0 then batch[n].prevHash == c.genesisChallenge && batch[n].prevHash !in tree
            else batch[n].prevHash in tree && IsChild(tree[batch[n].prevHash].block, batch[n])
  {
    if n == 0 {
      if batch[0].height > 0 { assert Linked(tree, batch[0].prevHash); }
    } else {
      assert IsChild(batch[n - 1], batch[n]);
      assert tree[batch[n - 1].headerHash].block == batch[n - 1];
    }
  }

  /** The record of the next block of the batch fits on the tree. */
  lemma {:induction false} RecordFits(c: Consensus, blocks: Blocks, batch: seq<FullBlock>, n: nat, tree: Blocks,
                                      r: BlockRecord)
    requires Chained(c, blocks, batch) && n < |batch| && TreeWith(c, blocks, batch, n, tree)
    requires batch[0].height > 0 ==> batch[0].prevHash in blocks
    requires r.block == batch[n] && batch[n].headerHash !in tree
    ensures Fits(tree, c.genesisChallenge, r) && ParentPath(tree, r.block) == Parents(tree, r.block)
  {
    ParentPresent(c, blocks, batch, n, tree);
  }

  /** Which blocks are in the tree after one more has been added. */
  lemma {:induction false} OneMore(c: Consensus, blocks: Blocks, batch: seq<FullBlock>, n: nat, tree: Blocks,
                                   r: BlockRecord, more: Blocks)
    requires n < |batch| && r.block == batch[n] && batch[n].headerHash !in tree
             && more == tree[batch[n].headerHash := r]
    requires Within(blocks, tree)
    requires forall h | h in tree :: h in blocks || h in Hashes(batch, n)
    requires forall i | 0 <= i < n :: batch[i].headerHash in tree && tree[batch[i].headerHash].block == batch[i]
    ensures Within(blocks, more) && Within(tree, more)
    ensures forall h | h in more :: h in blocks || h in Hashes(batch, n + 1)
    ensures forall i | 0 <= i < n + 1 :: batch[i].headerHash in more && more[batch[i].headerHash].block == batch[i]
  {}

  /** Puts the record of the next block of the batch into the tree, unless one is there. */
  lemma {:induction false} ExtendTree(c: Consensus, blocks: Blocks, batch: seq<FullBlock>, n: nat, tree: Blocks,
                                      r: BlockRecord)
    requires Chained(c, blocks, batch) && n < |batch| && TreeWith(c, blocks, batch, n, tree)
    requires batch[0].height > 0 ==> batch[0].prevHash in blocks
    requires r.block == batch[n] && batch[n].headerHash !in tree
    ensures var more := tree[batch[n].headerHash := r];
            && TreeWith(c, blocks, batch, n + 1, more) && Within(tree, more)
            && Path(more, batch[n].headerHash) == Snoc(Parents(tree, batch[n]), r)
  {
    var more := tree[batch[n].headerHash := r];
    RecordFits(c, blocks, batch, n, tree, r);
    OneMore(c, blocks, batch, n, tree, r, more);
    AddBlock(tree, c.genesisChallenge, r);
  }

  lemma {:induction false} KeepTree(c: Consensus, blocks: Blocks, batch: seq<FullBlock>, n: nat, tree: Blocks)
    requires Chained(c, blocks, batch) && n < |batch| && TreeWith(c, blocks, batch, n, tree)
    requires batch[0].height > 0 ==> batch[0].prevHash in blocks
    requires batch[n].headerHash in tree
    ensures TreeWith(c, blocks, batch, n + 1, tree)
    ensures Path(tree, batch[n].headerHash) == Snoc(Parents(tree, batch[n]), tree[batch[n].headerHash])
  {
    ParentPresent(c, blocks, batch, n, tree);
    assert Linked(tree, batch[n].headerHash);
    if batch[n].headerHash !in blocks { var i := HashIndex(batch, n, batch[n].headerHash); }
  }

  /** The challenge of a block, judged by its ancestors in a tree. */
  ghost function ChallengeIn(c: Consensus, tree: Blocks, block: FullBlock): Result<Hash>
    requires Closed(tree)
  {
    ChallengeOf(c, block, Parents(tree, block), block.height == 0,
                IsOverflowBlock(c, block.signagePointIndex), false)
  }

  /** What pre-validation asks of a block before its header is looked at in full. The checks of a proof of
      space and of the content of a summary are parameters. */
  ghost predicate Passes(c: Consensus, tree: Blocks, block: FullBlock, proofOk: (FullBlock, Hash) -> bool,
                         summaryOk: FullBlock -> bool)
    requires Closed(tree)
  {
    var challenge := ChallengeIn(c, tree, block);
    block.signagePointIndex < c.numSpsSubSlot && challenge.Ok? && proofOk(block, challenge.value) && summaryOk(block)
  }

  /** Why a block is refused: its proof of space, its summary, or an exception. An exception is due to the signage
      point index, the one challenge that cannot be found, or ancestors that are not valid. */
  ghost predicate Refused(c: Consensus, tree: Blocks, block: FullBlock, error: Error,
                          proofOk: (FullBlock, Hash) -> bool, summaryOk: FullBlock -> bool)
    requires ValidConstants(c) && Closed(tree)
  {
    var challenge := ChallengeIn(c, tree, block);
    match error
    case InvalidPospace => challenge.Ok? && !proofOk(block, challenge.value)
    case InvalidSubEpochSummary => !summaryOk(block)
    case AssertionFailed => block.signagePointIndex >= c.numSpsSubSlot || challenge.Err?
      || !ValidChain(c, Parents(tree, block))
    case _ => false
  }

  /** What is known about a block that has passed: its record is in the tree, and if its ancestors are
      valid, the parameters are the right ones and the windows suffice for its header. */
  ghost predicate Prepared(c: Consensus, blocks: Blocks, tree: Blocks, recent: Blocks, compressed: Blocks,
                           block: FullBlock, params: Params)
    requires ValidConstants(c) && Closed(tree)
  {
    var ch := Parents(tree, block);
    && (block.headerHash !in blocks ==> Has(tree, RecordOf(c, Top(ch), block, params.subSlotIters)))
    && (ValidChain(c, ch) ==>
          && NextParams(c, ch, block.finishedSubSlots != []) == Some(params) && Suffices(c, recent, ch, block)
          && (block.finishedSubSlots == [] ==> Suffices(c, compressed, ch, block)))
  }

  lemma {:induction false} SufficesMore(c: Consensus, window: Blocks, more: Blocks, ch: Chain, block: FullBlock)
    requires c.subEpochBlocks > 0 && Suffices(c, window, ch, block) && Within(window, more)
             && (ch.Empty? ==> block.prevHash !in more)
    ensures Suffices(c, more, ch, block)
  {
    if ch.Snoc? {
      SeesPrefix(window, ch, FirstOfSlot(ch));
      SeesPrefix(window, ch, LastTx(ch));
      SeesMore(window, more, ch, FirstOfSlot(ch), FirstOfSlot(ch));
      SeesMore(window, more, ch, LastTx(ch), LastTx(ch));
      ReachesMonotone(c, window, more, ch, 2, 2);
      if block.finishedSubSlots != [] && ch.prev.Snoc? {
        var stop := DifficultyAdjustment.WalkStop(c, ch.prev);
        SeesPrefix(window, ch.prev, stop);
        SeesMore(window, more, ch.prev, stop, stop);
      }
    }
  }

  /** The ancestors of a block of the batch stay the same when the tree grows. */
  lemma {:induction false} ParentsKept(c: Consensus, blocks: Blocks, batch: seq<FullBlock>, n: nat, tree: Blocks,
                                       more: Blocks, j: nat)
    requires Chained(c, blocks, batch) && j <= n < |batch| && TreeWith(c, blocks, batch, n, tree)
    requires batch[0].height > 0 ==> batch[0].prevHash in blocks
    requires TreeWith(c, blocks, batch, n + 1, more) && Within(tree, more)
    ensures Parents(more, batch[j]) == Parents(tree, batch[j])
            && (batch[j].prevHash in more <==> batch[j].prevHash in tree)
  {
    if batch[j].prevHash in tree { PathMonotone(tree, more, batch[j].prevHash); }
    if j > 0 { assert IsChild(batch[j - 1], batch[j]); }
  }

  /** What is known about the blocks so far stays true. */
  lemma {:induction false} PreparedKept(c: Consensus, blocks: Blocks, batch: seq<FullBlock>, n: nat, tree: Blocks,
                                        more: Blocks, j: nat, recent: Blocks, recent': Blocks, compressed: Blocks,
                                        compressed': Blocks, params: Params)
    requires ValidConstants(c) && Chained(c, blocks, batch) && j < n < |batch| && TreeWith(c, blocks, batch, n, tree)
    requires batch[0].height > 0 ==> batch[0].prevHash in blocks
    requires TreeWith(c, blocks, batch, n + 1, more) && Within(tree, more) && Within(recent', more)
             && Within(compressed', more)
    requires Within(recent, recent') && Within(compressed, compressed')
             && Prepared(c, blocks, tree, recent, compressed, batch[j], params)
    ensures Prepared(c, blocks, more, recent', compressed', batch[j], params)
  {
    var ch := Parents(tree, batch[j]);
    ParentsKept(c, blocks, batch, n, tree, more, j);
    if ValidChain(c, ch) {
      SufficesMore(c, recent, recent', ch, batch[j]);
      if batch[j].finishedSubSlots == [] { SufficesMore(c, compressed, compressed', ch, batch[j]); }
    }
  }

  /** Removes the records that were added for the time being. */
  method Restore(blocks: Blocks, batch: seq<FullBlock>, tree: Blocks) returns (after: Blocks)
    requires Within(blocks, tree)
    requires forall h | h in tree :: h in blocks || h in Hashes(batch, |batch|)
    ensures after == blocks
  {
    after := tree;
    for i := 0 to |batch|
      invariant Within(blocks, after) && Within(after, tree)
      invariant forall h | h in after :: h in blocks || h !in Hashes(batch, i)
    {
      if batch[i].headerHash !in blocks { after := after - {batch[i].headerHash}; }
    }
  }

  /** What holds before the i-th block of the batch is looked at. */
  ghost predicate Midway(c: Consensus, blocks: Blocks, heights: map<nat, Hash>, batch: seq<FullBlock>, i: nat,
                         tree: Blocks, recent: Blocks, compressed: Blocks, low: Chain, lowest: Chain) {
    && i <= |batch| && batch != [] && Chained(c, blocks, batch) && (batch[0].height > 0 ==> batch[0].prevHash in blocks)
    && TreeWith(c, blocks, batch, i, tree) && DifficultyAdjustment.HeightsConsistent(tree, heights)
    && Within(recent, tree) && Within(compressed, tree)
    && (i < |batch| && batch[i].height > 0 ==>
          && batch[i].prevHash in tree
          && var ch := Path(tree, batch[i].prevHash);
          Covers(c, recent, ch, lowest, true) && Covers(c, compressed, ch, low, false))
  }

  /** Parameters, challenge, proof of space and record of the next block. */
  method PrepareBlock(c: Consensus, ghost blocks: Blocks, heights: map<nat, Hash>, ghost batch: seq<FullBlock>,
                      ghost i: nat, tree: Blocks, recent: Blocks, ghost compressed: Blocks, ghost low: Chain,
                      ghost lowest: Chain, block: FullBlock, proofOk: (FullBlock, Hash) -> bool,
                      summaryOk: FullBlock -> bool)
    returns (r: Result<(Params, BlockRecord)>)
    requires ValidConstants(c) && i < |batch| && block == batch[i]
    requires Midway(c, blocks, heights, batch, i, tree, recent, compressed, low, lowest)
    ensures r.Ok? ==>
      && Passes(c, tree, block, proofOk, summaryOk)
      && r.value.1 == RecordOf(c, Top(Parents(tree, block)), block, r.value.0.subSlotIters)
      && (ValidChain(c, Parents(tree, block)) ==>
        NextParams(c, Parents(tree, block), block.finishedSubSlots != []) == Some(r.value.0))
    ensures r.Err? ==> Refused(c, tree, block, r.error, proofOk, summaryOk)
  {
    ghost var ch := Parents(tree, block);
    ParentPresent(c, blocks, batch, i, tree);
    var prev := if block.height == 0 then None else Some(tree[block.prevHash]);
    if prev.Some? { assert Linked(tree, block.prevHash); }
    var params := DifficultyAdjustment.GetNextSubSlotItersAndDifficulty(c, tree, heights, block.finishedSubSlots != [],
        prev);
    if params.Err? || block.signagePointIndex >= c.numSpsSubSlot { return Err(AssertionFailed); }
    var overflow := IsOverflowBlock(c, block.signagePointIndex);
    if prev.Some? { ReachesMonotone(c, recent, recent, ch, 2, SlotsBack(overflow, false)); }
    var challenge := GetBlockChallenge(c, block, recent, block.height == 0, overflow, false, ch);
    if challenge.Err? { return Err(challenge.error); }
    if !proofOk(block, challenge.value) { return Err(InvalidPospace); }
    if !summaryOk(block) { return Err(InvalidSubEpochSummary); }
    r := Ok((params.value, RecordOf(c, prev, block, params.value.subSlotIters)));
  }

  /** A window takes in the next block. */
  lemma {:induction false} WindowNext(c: Consensus, window: Blocks, wide: Blocks, ch: Chain, r: BlockRecord,
                                      bottom: Chain, full: bool)
    returns (bottom': Chain)
    requires Within(window, wide) && Has(wide, r) && r.block.height == Height(ch) + 1
    requires ch.Snoc? ==> Covers(c, window, ch, bottom, full) && r.block.prevHash == ch.top.block.headerHash
    ensures Covers(c, wide, Snoc(ch, r), bottom', full)
  {
    if ch.Empty? {
      bottom' := Snoc(ch, r);
      CoversFirst(c, wide, r, full);
    } else {
      bottom' := bottom;
      CoversMore(c, window, wide, ch, bottom, full);
      CoversNext(c, wide, ch, r, bottom, full);
    }
  }

  /** What is needed of the tree with the record of the i-th block in it. */
  ghost predicate Grown(c: Consensus, blocks: Blocks, batch: seq<FullBlock>, i: nat, tree: Blocks, more: Blocks)
    requires i < |batch|
  {
    && Closed(tree) && TreeWith(c, blocks, batch, i + 1, more) && Within(tree, more) && batch[i].headerHash in more
    && Path(more, batch[i].headerHash) == Snoc(Parents(tree, batch[i]), more[batch[i].headerHash])
  }

  /** The record of the i-th block in one window. */
  lemma {:induction false} StepWindow(c: Consensus, blocks: Blocks, batch: seq<FullBlock>, i: nat, tree: Blocks,
                                      more: Blocks, window: Blocks, bottom: Chain, full: bool) returns (bottom': Chain)
    requires i < |batch| && Chained(c, blocks, batch) && (batch[0].height > 0 ==> batch[0].prevHash in blocks)
    requires TreeWith(c, blocks, batch, i, tree) && Grown(c, blocks, batch, i, tree, more) && Within(window, tree)
    requires batch[i].height > 0 && batch[i].prevHash in tree ==>
        Covers(c, window, Path(tree, batch[i].prevHash), bottom, full)
    ensures var h := batch[i].headerHash; var wide := window[h := more[h]];
            && Within(window, wide) && Within(wide, more) && Covers(c, wide, Path(more, h), bottom', full)
  {
    var h := batch[i].headerHash;
    ParentPresent(c, blocks, batch, i, tree);
    assert Linked(more, h);
    if batch[i].height > 0 { assert Linked(tree, batch[i].prevHash); }
    bottom' := WindowNext(c, window, window[h := more[h]], Parents(tree, batch[i]), more[h], bottom, full);
  }

  /** With the record of the i-th block in the tree and in the windows, the next one can be looked at. */
  lemma {:induction false} StepMidway(c: Consensus, blocks: Blocks, heights: map<nat, Hash>, batch: seq<FullBlock>,
                                      i: nat, tree: Blocks, recent: Blocks, compressed: Blocks, low: Chain,
                                      lowest: Chain, more: Blocks)
    returns (low': Chain, lowest': Chain)
    requires i < |batch| && Midway(c, blocks, heights, batch, i, tree, recent, compressed, low, lowest)
             && Grown(c, blocks, batch, i, tree, more)
    ensures var h := batch[i].headerHash;
            && Within(recent, recent[h := more[h]]) && Within(compressed, compressed[h := more[h]])
            && Midway(c, blocks, heights, batch, i + 1, more, recent[h := more[h]], compressed[h := more[h]], low',
              lowest')
  {
    lowest' := StepWindow(c, blocks, batch, i, tree, more, recent, lowest, true);
    low' := StepWindow(c, blocks, batch, i, tree, more, compressed, low, false);
    HeightsKept(tree, more, heights);
    if i + 1 < |batch| { assert IsChild(batch[i], batch[i + 1]); }
  }

  /** The windows suffice for the header of the next block. */
  lemma {:induction false} NextSuffices(c: Consensus, blocks: Blocks, heights: map<nat, Hash>, batch: seq<FullBlock>,
                                        i: nat, tree: Blocks, recent: Blocks, compressed: Blocks, low: Chain,
                                        lowest: Chain)
    requires ValidConstants(c) && i < |batch|
             && Midway(c, blocks, heights, batch, i, tree, recent, compressed, low, lowest)
    requires ValidChain(c, Parents(tree, batch[i]))
    ensures Suffices(c, recent, Parents(tree, batch[i]), batch[i])
    ensures batch[i].finishedSubSlots == [] ==> Suffices(c, compressed, Parents(tree, batch[i]), batch[i])
  {
    var ch := Parents(tree, batch[i]);
    ParentPresent(c, blocks, batch, i, tree);
    if ch.Snoc? {
      assert Linked(tree, batch[i].prevHash);
      CoversSuffices(c, recent, ch, lowest, true, batch[i]);
      if batch[i].finishedSubSlots == [] { CoversSuffices(c, compressed, ch, low, false, batch[i]); }
    }
  }

  /** What is known about the next block once its record is in the tree and in the windows. */
  lemma {:induction false} NextPrepared(c: Consensus, blocks: Blocks, heights: map<nat, Hash>, batch: seq<FullBlock>,
                                        i: nat, tree: Blocks, recent: Blocks, compressed: Blocks, low: Chain,
                                        lowest: Chain, more: Blocks, params: Params)
    requires ValidConstants(c) && i < |batch|
             && Midway(c, blocks, heights, batch, i, tree, recent, compressed, low, lowest)
    requires Grown(c, blocks, batch, i, tree, more)
    requires batch[i].headerHash !in blocks ==>
        Has(more, RecordOf(c, Top(Parents(tree, batch[i])), batch[i], params.subSlotIters))
    requires ValidChain(c, Parents(tree, batch[i])) ==>
        NextParams(c, Parents(tree, batch[i]), batch[i].finishedSubSlots != []) == Some(params)
    ensures var h := batch[i].headerHash;
            Prepared(c, blocks, more, recent[h := more[h]], compressed[h := more[h]], batch[i], params)
  {
    var h, ch := batch[i].headerHash, Parents(tree, batch[i]);
    ParentsKept(c, blocks, batch, i, tree, more, i);
    ParentPresent(c, blocks, batch, i, tree);
    assert Linked(more, h);
    if ValidChain(c, ch) {
      NextSuffices(c, blocks, heights, batch, i, tree, recent, compressed, low, lowest);
      SufficesMore(c, recent, recent[h := more[h]], ch, batch[i]);
      if batch[i].finishedSubSlots == [] { SufficesMore(c, compressed, compressed[h := more[h]], ch, batch[i]); }
    }
  }

  /** The parent of the first block is known, or it needs none. */
  ghost predicate Attached(blocks: Blocks, batch: seq<FullBlock>)
    requires batch != []
  {
    batch[0].height > 0 ==> batch[0].prevHash in blocks
  }

  /** A block that has passed, with all that is known about it. */
  ghost predicate Settled(c: Consensus, blocks: Blocks, tree: Blocks, recent: Blocks, compressed: Blocks,
                          block: FullBlock, params: Params, proofOk: (FullBlock, Hash) -> bool,
                          summaryOk: FullBlock -> bool)
    requires ValidConstants(c) && Closed(tree)
  {
    Passes(c, tree, block, proofOk, summaryOk) && Prepared(c, blocks, tree, recent, compressed, block, params)
  }

  ghost predicate AllSettled(c: Consensus, blocks: Blocks, tree: Blocks, recent: Blocks, compressed: Blocks,
                             batch: seq<FullBlock>, params: seq<Params>, proofOk: (FullBlock, Hash) -> bool,
                             summaryOk: FullBlock -> bool)
    requires ValidConstants(c) && Closed(tree) && |params| <= |batch|
  {
    forall j {:trigger Settled(c, blocks, tree, recent, compressed, batch[j], params[j], proofOk,
        summaryOk)} | 0 <= j < |params| ::
      Settled(c, blocks, tree, recent, compressed, batch[j], params[j], proofOk, summaryOk)
  }

  lemma {:induction false} OneMoreSettled(c: Consensus, blocks: Blocks, tree: Blocks, recent: Blocks,
                                          compressed: Blocks, batch: seq<FullBlock>, params: seq<Params>, next: Params,
                                          proofOk: (FullBlock, Hash) -> bool, summaryOk: FullBlock -> bool)
    requires ValidConstants(c) && Closed(tree) && |params| < |batch|
    requires AllSettled(c, blocks, tree, recent, compressed, batch, params, proofOk, summaryOk)
    requires Settled(c, blocks, tree, recent, compressed, batch[|params|], next, proofOk, summaryOk)
    ensures AllSettled(c, blocks, tree, recent, compressed, batch, params + [next], proofOk, summaryOk)
  {
    var ps := params + [next];
    forall j | 0 <= j < |ps| ensures Settled(c, blocks, tree, recent, compressed, batch[j], ps[j], proofOk, summaryOk) {
      if j < |params| { assert Settled(c, blocks, tree, recent, compressed, batch[j], params[j], proofOk, summaryOk); }
    }
  }

  lemma {:induction false} SettledPasses(c: Consensus, blocks: Blocks, tree: Blocks, recent: Blocks, compressed: Blocks,
                                         batch: seq<FullBlock>, params: seq<Params>, proofOk: (FullBlock, Hash) -> bool,
                                         summaryOk: FullBlock -> bool, j: nat)
    requires ValidConstants(c) && Closed(tree) && j < |params| <= |batch|
    requires AllSettled(c, blocks, tree, recent, compressed, batch, params, proofOk, summaryOk)
    ensures Passes(c, tree, batch[j], proofOk, summaryOk)
  {
    assert Settled(c, blocks, tree, recent, compressed, batch[j], params[j], proofOk, summaryOk);
  }

  lemma {:induction false} SettledKept(c: Consensus, blocks: Blocks, batch: seq<FullBlock>, n: nat, tree: Blocks,
                                       more: Blocks, j: nat, recent: Blocks, recent': Blocks, compressed: Blocks,
                                       compressed': Blocks, params: Params, proofOk: (FullBlock, Hash) -> bool,
                                       summaryOk: FullBlock -> bool)
    requires ValidConstants(c) && Chained(c, blocks, batch) && j < n < |batch| && TreeWith(c, blocks, batch, n, tree)
             && Attached(blocks, batch)
    requires TreeWith(c, blocks, batch, n + 1, more) && Within(tree, more) && Within(recent', more)
             && Within(compressed', more)
    requires Within(recent, recent') && Within(compressed, compressed')
    requires Settled(c, blocks, tree, recent, compressed, batch[j], params, proofOk, summaryOk)
    ensures Settled(c, blocks, more, recent', compressed', batch[j], params, proofOk, summaryOk)
  {
    ParentsKept(c, blocks, batch, n, tree, more, j);
    PreparedKept(c, blocks, batch, n, tree, more, j, recent, recent', compressed, compressed', params);
  }

  /** All blocks so far stay settled. */
  lemma {:induction false} AllSettledKept(c: Consensus, blocks: Blocks, batch: seq<FullBlock>, n: nat, tree: Blocks,
                                          more: Blocks, recent: Blocks, recent': Blocks, compressed: Blocks,
                                          compressed': Blocks, params: seq<Params>, proofOk: (FullBlock, Hash) -> bool,
                                          summaryOk: FullBlock -> bool)
    requires ValidConstants(c) && Chained(c, blocks, batch) && n < |batch| && TreeWith(c, blocks, batch, n, tree)
             && Attached(blocks, batch)
    requires TreeWith(c, blocks, batch, n + 1, more) && Within(tree, more) && Within(recent', more)
             && Within(compressed', more)
    requires Within(recent, recent') && Within(compressed, compressed') && |params| == n
    requires AllSettled(c, blocks, tree, recent, compressed, batch, params, proofOk, summaryOk)
    ensures AllSettled(c, blocks, more, recent', compressed', batch, params, proofOk, summaryOk)
  {
    forall j | 0 <= j < n ensures Settled(c, blocks, more, recent', compressed', batch[j], params[j], proofOk,
        summaryOk) {
      assert Settled(c, blocks, tree, recent, compressed, batch[j], params[j], proofOk, summaryOk);
      SettledKept(c, blocks, batch, n, tree, more, j, recent, recent', compressed, compressed', params[j], proofOk,
        summaryOk);
    }
  }

  /** And so is the next. */
  lemma {:induction false} SettledNext(c: Consensus, blocks: Blocks, heights: map<nat, Hash>, batch: seq<FullBlock>,
                                       i: nat, tree: Blocks, recent: Blocks, compressed: Blocks, low: Chain,
                                       lowest: Chain, more: Blocks, next: Params, proofOk: (FullBlock, Hash) -> bool,
                                       summaryOk: FullBlock -> bool)
    requires ValidConstants(c) && i < |batch|
             && Midway(c, blocks, heights, batch, i, tree, recent, compressed, low, lowest)
    requires Grown(c, blocks, batch, i, tree, more) && Passes(c, tree, batch[i], proofOk, summaryOk)
    requires batch[i].headerHash !in blocks ==>
        Has(more, RecordOf(c, Top(Parents(tree, batch[i])), batch[i], next.subSlotIters))
    requires ValidChain(c, Parents(tree, batch[i])) ==>
        NextParams(c, Parents(tree, batch[i]), batch[i].finishedSubSlots != []) == Some(next)
    ensures var h := batch[i].headerHash;
            Settled(c, blocks, more, recent[h := more[h]], compressed[h := more[h]], batch[i], next, proofOk, summaryOk)
  {
    NextPrepared(c, blocks, heights, batch, i, tree, recent, compressed, low, lowest, more, next);
    ParentsKept(c, blocks, batch, i, tree, more, i);
  }

  /** What a run that stops at a block leaves in the tree: it is as before if and only if the blocks that
      passed were all known. */
  lemma {:induction false} LeftBehind(c: Consensus, blocks: Blocks, batch: seq<FullBlock>, stop: nat, tree: Blocks)
    requires stop <= |batch| && TreeWith(c, blocks, batch, stop, tree)
    ensures tree == blocks <==> forall i | 0 <= i < stop :: batch[i].headerHash in blocks
  {
    if forall i | 0 <= i < stop :: batch[i].headerHash in blocks {
      forall h | h in tree ensures h in blocks && blocks[h] == tree[h] {
        if h !in blocks { var i := HashIndex(batch, stop, h); }
      }
    }
  }

  /** The windows for the first block of a batch. */
  method FirstWindows(c: Consensus, blocks: Blocks, heights: map<nat, Hash>, batch: seq<FullBlock>)
    returns (recent: Blocks, compressed: Blocks, ghost low: Chain, ghost lowest: Chain)
    requires ValidConstants(c) && Closed(blocks) && RootedAt(blocks, c.genesisChallenge)
    requires DifficultyAdjustment.HeightsConsistent(blocks, heights)
    requires batch != [] && Chained(c, blocks, batch) && Attached(blocks, batch)
    ensures Midway(c, blocks, heights, batch, 0, blocks, recent, compressed, low, lowest)
  {
    recent, compressed, low, lowest := map[], map[], Empty, Empty;
    if batch[0].height > 0 { recent, compressed, low, lowest := CollectRecentBlocks(c, blocks, batch[0].prevHash); }
  }

  /** Puts the record of a block into the tree unless one is there. */
  method AddRecord(c: Consensus, ghost blocks: Blocks, ghost batch: seq<FullBlock>, ghost i: nat, tree: Blocks,
                   rec: BlockRecord)
    returns (more: Blocks)
    requires Chained(c, blocks, batch) && i < |batch| && TreeWith(c, blocks, batch, i, tree) && Attached(blocks, batch)
             && rec.block == batch[i]
    ensures Grown(c, blocks, batch, i, tree, more) && (batch[i].headerHash !in tree ==> Has(more, rec))
    ensures batch[i].headerHash in tree <==> batch[i].headerHash in blocks
  {
    more := tree;
    if rec.block.headerHash in tree {
      KeepTree(c, blocks, batch, i, tree);
      if rec.block.headerHash !in blocks { var j := HashIndex(batch, i, rec.block.headerHash); }
    } else {
      ExtendTree(c, blocks, batch, i, tree, rec);
      more := tree[rec.block.headerHash := rec];
    }
  }

  /** The blocks that have passed so far, and the state before the next. */
  ghost predicate Passed(c: Consensus, blocks: Blocks, heights: map<nat, Hash>, batch: seq<FullBlock>, i: nat,
                         tree: Blocks, recent: Blocks, compressed: Blocks, low: Chain, lowest: Chain,
                         params: seq<Params>, proofOk: (FullBlock, Hash) -> bool, summaryOk: FullBlock -> bool)
    requires ValidConstants(c)
  {
    && Midway(c, blocks, heights, batch, i, tree, recent, compressed, low, lowest) && |params| == i
    && AllSettled(c, blocks, tree, recent, compressed, batch, params, proofOk, summaryOk)
  }

  lemma {:induction false} PassedNext(c: Consensus, blocks: Blocks, heights: map<nat, Hash>, batch: seq<FullBlock>,
                                      i: nat, tree: Blocks, recent: Blocks, compressed: Blocks, low: Chain,
                                      lowest: Chain, params: seq<Params>, more: Blocks, next: Params,
                                      proofOk: (FullBlock, Hash) -> bool, summaryOk: FullBlock -> bool)
    returns (low': Chain, lowest': Chain)
    requires ValidConstants(c) && i < |batch|
    requires Passed(c, blocks, heights, batch, i, tree, recent, compressed, low, lowest, params, proofOk, summaryOk)
    requires Grown(c, blocks, batch, i, tree, more) && Passes(c, tree, batch[i], proofOk, summaryOk)
    requires batch[i].headerHash !in blocks ==>
        Has(more, RecordOf(c, Top(Parents(tree, batch[i])), batch[i], next.subSlotIters))
    requires ValidChain(c, Parents(tree, batch[i])) ==>
        NextParams(c, Parents(tree, batch[i]), batch[i].finishedSubSlots != []) == Some(next)
    ensures var h := batch[i].headerHash;
            Passed(c, blocks, heights, batch, i + 1, more, recent[h := more[h]], compressed[h := more[h]], low',
              lowest', params + [next],
                   proofOk, summaryOk)
  {
    var h := batch[i].headerHash;
    SettledNext(c, blocks, heights, batch, i, tree, recent, compressed, low, lowest, more, next, proofOk, summaryOk);
    low', lowest' := StepMidway(c, blocks, heights, batch, i, tree, recent, compressed, low, lowest, more);
    AllSettledKept(c, blocks, batch, i, tree, more, recent, recent[h := more[h]], compressed, compressed[h := more[h]],
      params, proofOk, summaryOk);
    OneMoreSettled(c, blocks, more, recent[h := more[h]], compressed[h := more[h]], batch, params, next, proofOk,
      summaryOk);
  }

  /** The per-block loop. It passes all blocks, or stops at one that does not pass or whose ancestors are not
      valid. Whenever it passes them all, or stops at an invalid proof of space, the tree is as before. */
  method PreValidateBlocks(c: Consensus, blocks: Blocks, heights: map<nat, Hash>, batch: seq<FullBlock>,
                           proofOk: (FullBlock, Hash) -> bool, summaryOk: FullBlock -> bool)
    returns (r: Result<seq<Params>>, after: Blocks, recent: Blocks, compressed: Blocks, ghost done: seq<Params>,
        ghost tree: Blocks)
    requires ValidConstants(c) && Closed(blocks) && RootedAt(blocks, c.genesisChallenge)
    requires DifficultyAdjustment.HeightsConsistent(blocks, heights)
    requires batch != [] && Chained(c, blocks, batch)
    ensures !Attached(blocks, batch) <==> r == Err(InvalidPrevBlockHash)
    ensures |done| <= |batch| && TreeWith(c, blocks, batch, |done|, tree)
    ensures AllSettled(c, blocks, tree, recent, compressed, batch, done, proofOk, summaryOk)
    ensures r.Ok? ==> r.value == done && |done| == |batch|
    ensures r.Err? && Attached(blocks, batch) ==>
      |done| < |batch| && Refused(c, tree, batch[|done|], r.error, proofOk, summaryOk)
    ensures r.Ok? || r == Err(InvalidPospace) || r == Err(InvalidPrevBlockHash) ==> after == blocks
    ensures r == Err(InvalidSubEpochSummary) || r == Err(AssertionFailed) ==>
      after == tree && (after == blocks <==> forall i | 0 <= i < |done| :: batch[i].headerHash in blocks)
  {
    tree, after, done, recent, compressed := blocks, blocks, [], map[], map[];
    if batch[0].height > 0 && batch[0].prevHash !in blocks {
      return Err(InvalidPrevBlockHash), blocks, recent, compressed, [], blocks;
    }
    ghost var low, lowest;
    recent, compressed, low, lowest := FirstWindows(c, blocks, heights, batch);
    var params: seq<Params> := [];
    for i := 0 to |batch|
      invariant after == tree && Passed(c, blocks, heights, batch, i, tree, recent, compressed, low, lowest, params,
          proofOk, summaryOk)
    {
      var next := PrepareBlock(c, blocks, heights, batch, i, after, recent, compressed, low, lowest, batch[i], proofOk,
          summaryOk);
      if next.Err? {
        LeftBehind(c, blocks, batch, i, tree);
        if next.error == InvalidPospace {
          HashesMonotone(batch, i, |batch|);
          after := Restore(blocks, batch, after);
        }
        return Err(next.error), after, recent, compressed, params, tree;
      }
      var h := batch[i].headerHash;
      after := AddRecord(c, blocks, batch, i, after, next.value.1);
      low, lowest := PassedNext(c, blocks, heights, batch, i, tree, recent, compressed, low, lowest, params, after,
        next.value.0, proofOk, summaryOk);
      recent, compressed := recent[h := after[h]], compressed[h := after[h]];
      params, tree := params + [next.value.0], after;
    }
    done := params;
    after := Restore(blocks, batch, after);
    r := Ok(params);
  }
}
