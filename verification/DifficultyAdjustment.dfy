/**
  The difficulty adjustment as the program runs it: over block records found by hash, with a
  height map for the heaviest chain, a fetched window of blocks and index arithmetic. A failing
  assert, a missing record or an index out of range is an error result.
 */
module DifficultyAdjustment {
  import opened Types
  import opened Chains
  import opened BlockTree
  import opened HeaderRules
  import opened SubEpochs
  import opened Epochs
  import Arithmetic

  /** The height map lists a parent path: each entry is a block above the entry before it. */
  ghost predicate HeightsConsistent(blocks: Blocks, heights: map<nat, Hash>) {
    forall h | h in heights ::
      && heights[h] in blocks && blocks[heights[h]].block.height == h
      && (h > 0 ==> h - 1 in heights && heights[h - 1] == blocks[heights[h]].block.prevHash)
  }

  /** Below a block on the main chain, the height map names exactly the block's ancestors. */
  lemma {:induction false} HeightsArePath(blocks: Blocks, heights: map<nat, Hash>, h: Hash, i: nat)
    requires Closed(blocks) && HeightsConsistent(blocks, heights)
    requires h in blocks && blocks[h].block.height in heights && heights[blocks[h].block.height] == h
    requires i <= blocks[h].block.height
    ensures i in heights && heights[i] in blocks && blocks[heights[i]] == At(Path(blocks, h), i)
    decreases blocks[h].block.height
  {
    assert Linked(blocks, h);
    if i < blocks[h].block.height { HeightsArePath(blocks, heights, blocks[h].block.prevHash, i); }
  }

  /** The blocks of a chain from height lo up to, but not including, height hi. */
  ghost function Slice(ch: Chain, lo: int, hi: int): seq<BlockRecord>
    requires Numbered(ch) && 0 <= lo && hi <= Height(ch) + 1
    decreases hi - lo
  {
    if lo >= hi then [] else [At(ch, lo)] + Slice(ch, lo + 1, hi)
  }

  lemma {:induction false} SliceAt(ch: Chain, lo: int, hi: int, i: int)
    requires Numbered(ch) && 0 <= lo <= hi <= Height(ch) + 1 && 0 <= i <= hi - lo
    ensures |Slice(ch, lo, hi)| == hi - lo
    ensures i < hi - lo ==> Slice(ch, lo, hi)[i] == At(ch, lo + i)
    decreases hi - lo
  {
    if lo < hi { SliceAt(ch, lo + 1, hi, if i > 0 then i - 1 else 0); }
  }

  lemma {:induction false} SliceGrows(ch: Chain, lo: int, hi: int)
    requires Numbered(ch) && 0 <= lo <= hi <= Height(ch)
    ensures Slice(ch, lo, hi + 1) == Slice(ch, lo, hi) + [At(ch, hi)]
    decreases hi - lo
  {
    if lo < hi { SliceGrows(ch, lo + 1, hi); }
  }

  /** Fetches consecutive records. Whichever of the two ways is taken, a range of ancestors of
      prev is returned as exactly those ancestors. */
  method GetBlocksAtHeight(blocks: Blocks, heights: map<nat, Hash>, prev: BlockRecord, target: nat, max: nat)
    returns (r: Result<seq<BlockRecord>>)
    requires Closed(blocks) && HeightsConsistent(blocks, heights)
    requires prev.block.headerHash in blocks && blocks[prev.block.headerHash] == prev
    ensures var path := Path(blocks, prev.block.headerHash);
            target + max <= Height(path) + 1 ==> r == Ok(Slice(path, target, target + max))
  {
    if prev.block.height in heights && heights[prev.block.height] == prev.block.headerHash {
      r := FetchFromHeightMap(blocks, heights, prev, target, max);
    } else {
      var fetched := FetchByWalking(blocks, prev, target, max);
      r := Ok(fetched);
    }
  }

  method FetchFromHeightMap(blocks: Blocks, heights: map<nat, Hash>, prev: BlockRecord, target: nat, max: nat)
    returns (r: Result<seq<BlockRecord>>)
    requires Closed(blocks) && HeightsConsistent(blocks, heights)
    requires prev.block.headerHash in blocks && blocks[prev.block.headerHash] == prev
    requires prev.block.height in heights && heights[prev.block.height] == prev.block.headerHash
    ensures var path := Path(blocks, prev.block.headerHash);
            target + max <= Height(path) + 1 ==> r == Ok(Slice(path, target, target + max))
  {
    ghost var path := Path(blocks, prev.block.headerHash);
    var fetched: seq<BlockRecord> := [];
    for h := target to target + max
      invariant h <= Height(path) + 1 ==> fetched == Slice(path, target, h)
    {
      if h <= prev.block.height {
        HeightsArePath(blocks, heights, prev.block.headerHash, h);
        SliceGrows(path, target, h);
      }
      if h !in heights { return Err(AssertionFailed); }
      fetched := fetched + [blocks[heights[h]]];
    }
    r := Ok(fetched);
  }

  method FetchByWalking(blocks: Blocks, prev: BlockRecord, target: nat, max: nat) returns (fetched: seq<BlockRecord>)
    requires Closed(blocks)
    requires prev.block.headerHash in blocks && blocks[prev.block.headerHash] == prev
    ensures var path := Path(blocks, prev.block.headerHash);
            fetched == Slice(path, target, Min(target + max, Height(path) + 1))
  {
    ghost var path := Path(blocks, prev.block.headerHash);
    ghost var end := Min(target + max, Height(path) + 1);
    var curr := prev;
    fetched := [];
    UpToTop(path, Height(path));
    while curr.block.height >= target
      invariant curr.block.headerHash in blocks && blocks[curr.block.headerHash] == curr
      invariant curr.block.height <= Height(path)
                && Path(blocks, curr.block.headerHash) == UpTo(path, curr.block.height)
      invariant curr.block.height + 1 >= target || (Height(path) < target && fetched == [])
      invariant fetched == Slice(path, curr.block.height + 1, end)
      decreases curr.block.height
    {
      UpToStep(path, curr.block.height);
      if curr.block.height < target + max { fetched := [curr] + fetched; }
      assert fetched == Slice(path, curr.block.height, end);
      if curr.block.height == 0 { return; }
      assert Linked(blocks, curr.block.headerHash);
      curr := blocks[curr.block.prevHash];
    }
  }

  lemma {:induction false} UpToStep(ch: Chain, h: int)
    requires Numbered(ch) && 0 <= h <= Height(ch)
    ensures UpTo(ch, h).Snoc? && UpTo(ch, h).top == At(ch, h) && UpTo(ch, h).prev == UpTo(ch, h - 1)
  {
    UpToReaches(ch, h);
    NumberedHeight(UpTo(ch, h));
    UpToUpTo(ch, h, h - 1);
    UpToTop(UpTo(ch, h).prev, h - 1);
  }

  lemma {:induction false} UpToTop(ch: Chain, h: int)
    requires Height(ch) <= h
    ensures UpTo(ch, h) == ch
  {
  }

  // ---------------------------------------------------------------- back-walks

  /** Walks back to the newest transaction block but one. */
  method BacktrackTwoTransactionBlocks(blocks: Blocks, start: BlockRecord) returns (r: Result<BlockRecord>)
    requires Closed(blocks)
    requires start.block.headerHash in blocks && blocks[start.block.headerHash] == start
    ensures var b := SecondLastTx(Path(blocks, start.block.headerHash));
            r == if b.Some? then Ok(b.value) else Err(MissingBlock)
  {
    ghost var goal := SecondLastTx(Path(blocks, start.block.headerHash));
    var curr := start;
    var found := if curr.IsTransactionBlock() then 1 else 0;
    while found < 2
      invariant curr.block.headerHash in blocks && blocks[curr.block.headerHash] == curr
      invariant found == 0 ==> !curr.IsTransactionBlock() && SecondLastTx(Path(blocks, curr.block.headerHash)) == goal
      invariant found == 1 ==> Top(LastTx(Path(blocks, curr.block.headerHash).prev)) == goal
      invariant found >= 2 ==> goal == Some(curr)
      invariant 0 <= found <= 2
      decreases curr.block.height, 2 - found
    {
      assert Linked(blocks, curr.block.headerHash);
      ghost var path := Path(blocks, curr.block.headerHash);
      if curr.block.prevHash !in blocks {
        assert path == Snoc(Empty, curr) && LastTx(path.prev) == Empty;
        return Err(MissingBlock);
      }
      curr := blocks[curr.block.prevHash];
      assert path.prev == Path(blocks, curr.block.headerHash);
      assert found == 0 ==> LastTx(path) == LastTx(path.prev);
      if curr.IsTransactionBlock() { found := found + 1; }
      assert !curr.IsTransactionBlock() ==> LastTx(path.prev) == LastTx(path.prev.prev);
    }
    r := Ok(curr);
  }

  /** Walks back to the newest transaction block infused no later than a signage point. */
  method FindMeasured(blocks: Blocks, start: BlockRecord, spTotalIters: int) returns (r: Result<BlockRecord>)
    requires Closed(blocks)
    requires start.block.headerHash in blocks && blocks[start.block.headerHash] == start
    ensures var m := MeasuredAt(Path(blocks, start.block.headerHash), spTotalIters);
            r == if m.Snoc? then Ok(m.top) else Err(MissingBlock)
  {
    ghost var goal := MeasuredAt(Path(blocks, start.block.headerHash), spTotalIters);
    var curr := start;
    while curr.block.totalIters > spTotalIters || !curr.IsTransactionBlock()
      invariant curr.block.headerHash in blocks && blocks[curr.block.headerHash] == curr
      invariant MeasuredAt(Path(blocks, curr.block.headerHash), spTotalIters) == goal
      decreases curr.block.height
    {
      assert Linked(blocks, curr.block.headerHash);
      if curr.block.prevHash !in blocks { return Err(MissingBlock); }
      curr := blocks[curr.block.prevHash];
    }
    r := Ok(curr);
  }

  // ---------------------------------------------------------------- the search for the previous epoch

  /** The chain may grow by one block after which a sub-slot can end the epoch. */
  ghost predicate EpochMayEnd(c: Consensus, parents: Chain)
    requires ValidConstants(c)
  {
    exists tip :: ValidChain(c, Snoc(parents, tip)) && FinishesEpoch(c, Snoc(parents, tip))
  }

  /** Everything the index arithmetic of the search relies on. */
  ghost predicate SearchReady(c: Consensus, path: Chain)
    requires c.epochBlocks > 0
  {
    var s := PrevEpochSurpass(c, Height(path));
    && Numbered(path) && path.Snoc? && PrevEpochMark(c, path).Some?
    && s >= 0
    && Height(path) + 2 * c.maxSubSlotBlocks + c.minBlocksPerChallengeBlock + 5 - (s + c.epochBlocks)
         < 5 * c.maxSubSlotBlocks
    && (s > 0 ==>
          && s >= c.maxSubSlotBlocks + 1
          && s + 2 * c.maxSubSlotBlocks + c.minBlocksPerChallengeBlock + 2 <= Height(path) + 1
          && StartsEpoch(c, path, s, FirstSummaryFrom(path, s)))
  }

  /** q is the first block from height s that includes a summary, and it comes soon enough. */
  ghost predicate StartsEpoch(c: Consensus, path: Chain, s: nat, q: Chain) {
    && q.Snoc? && IsPrefix(q, path) && q.top.SummaryIncluded() && !SummarySince(q.prev, s)
    && s <= Height(q) <= s + 2 * c.maxSubSlotBlocks + c.minBlocksPerChallengeBlock - 2
  }

  lemma {:induction false} SearchIsReady(c: Consensus, path: Chain)
    requires ValidConstants(c) && EpochMayEnd(c, path)
    ensures SearchReady(c, path)
  {
    var tip :| ValidChain(c, Snoc(path, tip)) && FinishesEpoch(c, Snoc(path, tip));
    ReadyBelow(c, Snoc(path, tip));
  }

  lemma {:induction false} ReadyBelow(c: Consensus, ch: Chain)
    requires ValidConstants(c) && ValidChain(c, ch) && FinishesEpoch(c, ch)
    ensures SearchReady(c, ch.prev)
  {
    var from, to := EpochMeasured(c, ch);
    var barrier := EpochBarrier(c, ch);
    ValidNumbered(c, ch);
    SurpassIs(c, Height(ch.prev), barrier);
    if barrier > c.epochBlocks {
      PreviousEpoch(c, barrier);
      SubEpochInEpoch(c);
      EpochStartFound(c, ch.prev, barrier - c.epochBlocks);
    }
  }

  lemma {:induction false} EpochStartFound(c: Consensus, path: Chain, s: nat)
    requires ValidConstants(c) && ValidChain(c, path)
    requires s % c.subEpochBlocks == 0 && s >= c.subEpochBlocks
    requires s + 2 * c.maxSubSlotBlocks + c.minBlocksPerChallengeBlock - 2 <= Height(path)
    ensures StartsEpoch(c, path, s, FirstSummaryFrom(path, s))
  {
    ValidNumbered(c, path);
    var q := EpochStart(c, path, s);
    if !SummarySince(path, s) { NoFirstSummary(path, s); }
    FirstSummarySpec(path, s);
  }

  /** The first summary at or above height s, found by height. */
  lemma {:induction false} FirstSummaryAt(path: Chain, q: Chain, s: nat, h: int)
    requires Numbered(path) && IsPrefix(q, path) && q.Snoc? && !SummarySince(q.prev, s)
    requires s <= h <= Height(q) <= Height(path) && At(path, h).SummaryIncluded()
    ensures h == Height(q)
  {
    PrefixIsUpTo(q, path);
    if h < Height(q) {
      UpToUpTo(path, Height(q), h);
      assert At(q.prev, h) == At(path, h);
      WitnessSummary(q.prev, s, h);
    }
  }

  /** The fetched list covers the heights around s, and the first summary from s is among them. */
  ghost predicate Covers(c: Consensus, path: Chain, s: nat, fetched: seq<BlockRecord>) {
    var base, end := s - c.maxSubSlotBlocks - 1, s + 2 * c.maxSubSlotBlocks + c.minBlocksPerChallengeBlock + 2;
    && Numbered(path) && 0 <= base && end <= Height(path) + 1 && |fetched| == end - base
    && (forall i | 0 <= i < |fetched| :: fetched[i] == At(path, base + i) && fetched[i].block.height == base + i)
    && StartsEpoch(c, path, s, FirstSummaryFrom(path, s))
  }

  lemma {:induction false} SliceCovers(c: Consensus, path: Chain, s: nat, fetched: seq<BlockRecord>)
    requires Numbered(path) && StartsEpoch(c, path, s, FirstSummaryFrom(path, s))
    requires s >= c.maxSubSlotBlocks + 1
    requires s + 2 * c.maxSubSlotBlocks + c.minBlocksPerChallengeBlock + 2 <= Height(path) + 1
    requires fetched == Slice(path, s - c.maxSubSlotBlocks - 1,
                              s + 2 * c.maxSubSlotBlocks + c.minBlocksPerChallengeBlock + 2)
    ensures Covers(c, path, s, fetched)
  {
    var base, end := s - c.maxSubSlotBlocks - 1, s + 2 * c.maxSubSlotBlocks + c.minBlocksPerChallengeBlock + 2;
    SliceAt(path, base, end, 0);
    forall i | 0 <= i < |fetched| ensures fetched[i] == At(path, base + i) && fetched[i].block.height == base + i {
      SliceAt(path, base, end, i);
      UpToReaches(path, base + i);
    }
  }

  /** Scans the fetched blocks for the block that started the epoch, and returns its parent. */
  method ScanForEpochStart(c: Consensus, fetched: seq<BlockRecord>, s: nat, ghost path: Chain)
    returns (r: Result<BlockRecord>)
    requires s > c.maxSubSlotBlocks
    ensures Covers(c, path, s, fetched) ==>
              var q := FirstSummaryFrom(path, s); q.Snoc? && q.prev.Snoc? && r == Ok(q.prev.top)
  {
    ghost var base, q := s - c.maxSubSlotBlocks - 1, FirstSummaryFrom(path, s);
    ghost var safe := Covers(c, path, s, fetched);
    var index := c.maxSubSlotBlocks;
    if index >= |fetched| { return Err(AssertionFailed); }
    var curr := fetched[index];
    index := index + 1;
    if curr.block.height != s - 1 || index >= |fetched| { return Err(AssertionFailed); }
    var next := fetched[index];
    if next.block.height != s { return Err(AssertionFailed); }
    while !next.SummaryIncluded()
      invariant c.maxSubSlotBlocks + 1 <= index <= |fetched|
      invariant safe ==> next == fetched[if index == c.maxSubSlotBlocks + 1 then index else index - 1]
      invariant safe ==> s <= next.block.height <= Height(q)
      invariant safe ==> curr == fetched[next.block.height - base - 1] || (curr == next && !next.SummaryIncluded())
      decreases |fetched| - index
    {
      if safe && next.block.height == Height(q) { PrefixIsUpTo(q, path); }
      curr := next;
      if index >= |fetched| { return Err(AssertionFailed); }
      next := fetched[index];
      index := index + 1;
    }
    if safe { ScanEnds(c, path, s, fetched, next.block.height); }
    r := Ok(curr);
  }

  lemma {:induction false} ScanEnds(c: Consensus, path: Chain, s: nat, fetched: seq<BlockRecord>, h: int)
    requires s > c.maxSubSlotBlocks && Covers(c, path, s, fetched)
    requires s <= h <= Height(FirstSummaryFrom(path, s))
    requires fetched[h - (s - c.maxSubSlotBlocks - 1)].SummaryIncluded()
    ensures var q := FirstSummaryFrom(path, s);
            h == Height(q) && q.prev.Snoc? && fetched[h - (s - c.maxSubSlotBlocks - 1) - 1] == q.prev.top
  {
    var q := FirstSummaryFrom(path, s);
    PrefixIsUpTo(q, path);
    FirstSummaryAt(path, q, s, h);
    UpToStep(path, Height(q));
    UpToReaches(path, Height(q) - 1);
    NumberedHeight(UpTo(path, Height(q) - 1));
  }

  /** The search in an epoch that did not begin at genesis. */
  method SearchPreviousEpoch(c: Consensus, blocks: Blocks, heights: map<nat, Hash>, last: BlockRecord, s: nat)
    returns (r: Result<BlockRecord>)
    requires Closed(blocks) && HeightsConsistent(blocks, heights) && c.epochBlocks > 0
    requires last.block.headerHash in blocks && blocks[last.block.headerHash] == last
    ensures var path := Path(blocks, last.block.headerHash);
            SearchReady(c, path) && s == PrevEpochSurpass(c, Height(path)) > 0 ==>
              r.Ok? && PrevEpochMark(c, path) == Some(r.value)
  {
    ghost var path := Path(blocks, last.block.headerHash);
    ghost var ready := SearchReady(c, path) && s == PrevEpochSurpass(c, Height(path)) > 0;
    if s < c.maxSubSlotBlocks + 1 { return Err(AssertionFailed); }
    var fetched := GetBlocksAtHeight(blocks, heights, last, s - c.maxSubSlotBlocks - 1,
                                     3 * c.maxSubSlotBlocks + c.minBlocksPerChallengeBlock + 3);
    if fetched.Err? { return Err(fetched.error); }
    if ready { SliceCovers(c, path, s, fetched.value); }
    var curr := ScanForEpochStart(c, fetched.value, s, path);
    if curr.Err? { return curr; }
    if ready { PrefixParent(blocks, last.block.headerHash, FirstSummaryFrom(path, s)); }
    if curr.value.block.headerHash !in blocks || blocks[curr.value.block.headerHash] != curr.value {
      return Err(MissingBlock);
    }
    r := BacktrackTwoTransactionBlocks(blocks, curr.value);
  }

  /** Finds the block from which the previous epoch is measured. Whenever the next block may end
      an epoch, no assert fails, no index leaves the fetched list, and the result is the last
      transaction block but one before the block that started the epoch. */
  method GetSecondToLastTransactionBlockInPreviousEpoch(c: Consensus, blocks: Blocks, heights: map<nat, Hash>,
                                                        last: BlockRecord) returns (r: Result<BlockRecord>)
    requires ValidConstants(c) && Closed(blocks) && HeightsConsistent(blocks, heights)
    requires last.block.headerHash in blocks && blocks[last.block.headerHash] == last
    ensures var path := Path(blocks, last.block.headerHash);
            EpochMayEnd(c, path) ==> r.Ok? && PrevEpochMark(c, path) == Some(r.value)
  {
    if EpochMayEnd(c, Path(blocks, last.block.headerHash)) { SearchIsReady(c, Path(blocks, last.block.headerHash)); }
    r := SearchMark(c, blocks, heights, last);
  }

  method SearchMark(c: Consensus, blocks: Blocks, heights: map<nat, Hash>, last: BlockRecord)
    returns (r: Result<BlockRecord>)
    requires Closed(blocks) && HeightsConsistent(blocks, heights) && c.epochBlocks > 0
    requires last.block.headerHash in blocks && blocks[last.block.headerHash] == last
    ensures var path := Path(blocks, last.block.headerHash);
            SearchReady(c, path) ==> r.Ok? && PrevEpochMark(c, path) == Some(r.value)
  {
    ghost var path := Path(blocks, last.block.headerHash);
    var heightInNextEpoch := last.block.height + 2 * c.maxSubSlotBlocks + c.minBlocksPerChallengeBlock + 5;
    var heightEpochSurpass := heightInNextEpoch - heightInNextEpoch % c.epochBlocks;
    var s := heightEpochSurpass - c.epochBlocks;
    if s < 0 || heightInNextEpoch - heightEpochSurpass >= 5 * c.maxSubSlotBlocks { return Err(AssertionFailed); }
    if s == 0 {
      var first := GetBlocksAtHeight(blocks, heights, last, 0, 1);
      if first.Err? || first.value == [] { return Err(AssertionFailed); }
      SliceAt(path, 0, 1, 0);
      RootIsFirst(path);
      return Ok(first.value[0]);
    }
    r := SearchPreviousEpoch(c, blocks, heights, last, s);
  }

  lemma {:induction false} RootIsFirst(path: Chain)
    requires Numbered(path) && path.Snoc? && Height(path) >= 0
    ensures At(path, 0) == Root(path)
  {
    if path.prev.Snoc? {
      NumberedHeight(path.prev);
      RootIsFirst(path.prev);
    }
  }

  lemma {:induction false} PrefixParent(blocks: Blocks, h: Hash, q: Chain)
    requires Closed(blocks) && h in blocks && q.Snoc? && IsPrefix(q, Path(blocks, h)) && q.prev.Snoc?
    ensures q.prev.top.block.headerHash in blocks && q.prev == Path(blocks, q.prev.top.block.headerHash)
  {
    PrefixTrans(q.prev, q, Path(blocks, h));
    PrefixIsUpTo(q.prev, Path(blocks, h));
    NumberedHeight(q.prev);
    PathUpTo(blocks, h, Height(q.prev));
  }

  // ---------------------------------------------------------------- the parameters of the next block

  /** Where the search for a summary of the current window stops: at a summary or where the window starts. */
  function WalkStop(c: Consensus, ch: Chain): Chain
    requires c.subEpochBlocks > 0
  {
    if ch.Empty? || ch.top.block.height % c.subEpochBlocks == 0 || ch.top.SummaryIncluded() then ch
        else WalkStop(c, ch.prev)
  }

  lemma {:induction false} WalkStopPrefix(c: Consensus, ch: Chain)
    requires c.subEpochBlocks > 0 && Numbered(ch) && ch.Snoc?
    ensures WalkStop(c, ch).Snoc? && IsPrefix(WalkStop(c, ch), ch)
  {
    if ch.prev.Snoc? { WalkStopPrefix(c, ch.prev); } else { Arithmetic.ModuloSmall(0, c.subEpochBlocks); }
  }

  /** What the search finds, seen from where it stands. */
  ghost predicate Searching(c: Consensus, window: Blocks, parents: Chain, s: int, curr: BlockRecord, rest: Chain)
    requires c.subEpochBlocks > 0
  {
    && rest.Snoc? && rest.top == curr && Numbered(rest) && HashLinked(rest) && Sees(window, rest, WalkStop(c, parents))
    && WalkStop(c, rest) == WalkStop(c, parents) && s <= curr.block.height < s + c.subEpochBlocks
    && SummarySince(parents, s) == SummarySince(rest, s)
  }

  /** Whether a sub-slot that ends after the block at the given height ends a sub-epoch, and
      whether it ends an epoch. It looks no farther back than to a summary or the window's start. */
  method CanFinishSubAndFullEpoch(c: Consensus, window: Blocks, height: nat, prevHash: Hash, deficit: nat,
                                  included: bool, ghost parents: Chain)
    returns (r: Result<(bool, bool)>)
    requires c.subEpochBlocks > 1 && c.epochBlocks > 0
    ensures (height > 0 ==>
        EndsIn(parents, prevHash) && Height(parents) + 1 == height && Sees(window, parents, WalkStop(c, parents))) ==>
              var subEpoch := CanFinishSubEpoch(c, parents, height, deficit, included);
              r == Ok((subEpoch, subEpoch && HeightCanBeFirstInEpoch(c, height + 1)))
  {
    if height + 1 < c.subEpochBlocks || deficit > 0 || included { return Ok((false, false)); }
    if (height + 1) % c.subEpochBlocks > 1 {
      var found := SearchSummary(c, window, prevHash, parents, height);
      if found.Err? { return Err(found.error); }
      if found.value { return Ok((false, false)); }
    }
    return Ok((true, HeightCanBeFirstInEpoch(c, height + 1)));
  }

  /** Searches back for a summary in the current window. */
  method SearchSummary(c: Consensus, window: Blocks, prevHash: Hash, ghost parents: Chain, ghost height: nat)
    returns (r: Result<bool>)
    requires c.subEpochBlocks > 1 && (height + 1) % c.subEpochBlocks > 1
    ensures EndsIn(parents, prevHash) && Height(parents) + 1 == height
            && Sees(window, parents, WalkStop(c, parents)) ==>
              r == Ok(SummarySince(parents, WindowStart(c, height + 1)))
  {
    ghost var safe := EndsIn(parents, prevHash) && Height(parents) + 1 == height
        && Sees(window, parents, WalkStop(c, parents));
    ghost var s, rest := WindowStart(c, height + 1), parents;
    if prevHash !in window { return Err(MissingBlock); }
    var curr := window[prevHash];
    Arithmetic.MultipleFloor(height + 1, c.subEpochBlocks);
    while curr.block.height % c.subEpochBlocks > 0
      invariant safe ==> Searching(c, window, parents, s, curr, rest)
      decreases curr.block.height
    {
      if curr.SummaryIncluded() { return Ok(true); }
      if safe {
        if curr.block.height == s { Arithmetic.ModuloFrom(s, s, c.subEpochBlocks); }
        SearchOn(c, window, parents, s, curr, rest);
      }
      var p := ParentRecord(window, curr, rest, WalkStop(c, parents));
      if p.Err? { return Err(p.error); }
      curr := p.value;
      if safe { rest := rest.prev; }
    }
    if safe { SearchEnds(c, window, parents, s, curr, rest); }
    r := Ok(curr.SummaryIncluded());
  }

  lemma {:induction false} SearchEnds(c: Consensus, window: Blocks, parents: Chain, s: nat, curr: BlockRecord,
                                      rest: Chain)
    requires c.subEpochBlocks > 0 && Searching(c, window, parents, s, curr, rest)
    requires s % c.subEpochBlocks == 0 && curr.block.height % c.subEpochBlocks == 0
    ensures SummarySince(parents, s) == curr.SummaryIncluded()
  {
    Arithmetic.ModuloFrom(s, curr.block.height, c.subEpochBlocks);
    assert !SummarySince(rest.prev, s);
  }

  lemma {:induction false} SearchOn(c: Consensus, window: Blocks, parents: Chain, s: int, curr: BlockRecord,
                                    rest: Chain)
    requires c.subEpochBlocks > 0 && Searching(c, window, parents, s, curr, rest)
    requires curr.block.height % c.subEpochBlocks > 0 && !curr.SummaryIncluded() && curr.block.height > s
    ensures rest != WalkStop(c, parents) && rest.prev.Snoc?
            && Searching(c, window, parents, s, rest.prev.top, rest.prev)
  {
    NumberedHeight(rest.prev);
    WalkStopEnds(c, rest);
    SeesBelow(window, rest, WalkStop(c, parents));
  }

  lemma {:induction false} WalkStopEnds(c: Consensus, ch: Chain)
    requires c.subEpochBlocks > 0
    ensures var a := WalkStop(c, ch); a.Snoc? ==> a.top.block.height % c.subEpochBlocks == 0 || a.top.SummaryIncluded()
  {
    if ch.Snoc? { WalkStopEnds(c, ch.prev); }
  }

  /** The same with the whole tree at hand, where no look-up fails. */
  method CanFinishEpochAfter(c: Consensus, blocks: Blocks, prev: BlockRecord) returns (epoch: bool)
    requires Closed(blocks) && c.subEpochBlocks > 1 && c.epochBlocks > 0
    requires prev.block.headerHash in blocks && blocks[prev.block.headerHash] == prev
    ensures epoch == FinishesEpoch(c, Path(blocks, prev.block.headerHash))
  {
    ghost var ch := Path(blocks, prev.block.headerHash);
    assert Linked(blocks, prev.block.headerHash);
    if prev.block.height > 0 {
      WalkStopPrefix(c, ch.prev);
      PathSeen(blocks, prev.block.prevHash, WalkStop(c, ch.prev));
    }
    var r := CanFinishSubAndFullEpoch(c, blocks, prev.block.height, prev.block.prevHash, prev.deficit,
        prev.SummaryIncluded(), ch.prev);
    epoch := r.value.1;
  }

  /** The blocks to measure between, by searching back twice. */
  method FindEpochMeasure(c: Consensus, blocks: Blocks, heights: map<nat, Hash>, prev: BlockRecord)
    returns (r: Result<(BlockRecord, BlockRecord)>)
    requires ValidConstants(c) && Closed(blocks) && HeightsConsistent(blocks, heights)
    requires prev.block.headerHash in blocks && blocks[prev.block.headerHash] == prev
    requires prev.block.prevHash in blocks
    ensures var path := Path(blocks, prev.block.headerHash);
            ValidChain(c, path) && FinishesEpoch(c, path) ==> r.Ok? && EpochMeasure(c, path) == Some(r.value)
  {
    ghost var path := Path(blocks, prev.block.headerHash);
    assert Linked(blocks, prev.block.headerHash);
    var parent := blocks[prev.block.prevHash];
    if ValidChain(c, path) && FinishesEpoch(c, path) {
      var from, to := EpochMeasured(c, path);
      assert path == Snoc(path.prev, path.top);
    }
    var from := GetSecondToLastTransactionBlockInPreviousEpoch(c, blocks, heights, parent);
    if from.Err? { return Err(from.error); }
    var to := FindMeasured(blocks, parent, SpTotalIters(c, prev));
    if to.Err? { return Err(to.error); }
    if from.value.block.foliage.None? || to.value.block.foliage.None? { return Err(AssertionFailed); }
    r := Ok((from.value, to.value));
  }

  method GetNextSubSlotIters(c: Consensus, blocks: Blocks, heights: map<nat, Hash>, prev: BlockRecord, newSlot: bool)
    returns (r: Result<nat>)
    requires ValidConstants(c) && Closed(blocks) && HeightsConsistent(blocks, heights)
    requires prev.block.headerHash in blocks && blocks[prev.block.headerHash] == prev
    ensures var path := Path(blocks, prev.block.headerHash);
            ValidChain(c, path) && NextSubSlotIters(c, path, newSlot).Some? ==>
              r == Ok(NextSubSlotIters(c, path, newSlot).value)
  {
    assert Linked(blocks, prev.block.headerHash);
    if prev.block.height + 1 < c.epochBlocks { return Ok(c.subSlotItersStarting); }
    if prev.block.prevHash !in blocks { return Err(MissingBlock); }
    var canFinishEpoch := CanFinishEpochAfter(c, blocks, prev);
    if !newSlot || !canFinishEpoch { return Ok(prev.subSlotIters); }
    var m := FindEpochMeasure(c, blocks, heights, prev);
    if m.Err? { return Err(m.error); }
    var iters := ItersBetween(c, m.value.0, m.value.1);
    if iters.None? { return Err(AssertionFailed); }
    r := Ok(iters.value);
  }

  method GetNextDifficulty(c: Consensus, blocks: Blocks, heights: map<nat, Hash>, prev: BlockRecord, newSlot: bool,
                           difficulty: nat) returns (r: Result<nat>)
    requires ValidConstants(c) && Closed(blocks) && HeightsConsistent(blocks, heights)
    requires prev.block.headerHash in blocks && blocks[prev.block.headerHash] == prev
    requires difficulty == DifficultyOf(Path(blocks, prev.block.headerHash))
    ensures var path := Path(blocks, prev.block.headerHash);
            ValidChain(c, path) && NextDifficulty(c, path, newSlot).Some? ==>
              r == Ok(NextDifficulty(c, path, newSlot).value)
  {
    assert Linked(blocks, prev.block.headerHash);
    if prev.block.height + 1 < c.epochBlocks - 3 * c.maxSubSlotBlocks { return Ok(c.difficultyStarting); }
    if prev.block.prevHash !in blocks { return Err(MissingBlock); }
    var canFinishEpoch := CanFinishEpochAfter(c, blocks, prev);
    if !newSlot || !canFinishEpoch { return Ok(difficulty); }
    var m := FindEpochMeasure(c, blocks, heights, prev);
    if m.Err? { return Err(m.error); }
    var parent := blocks[prev.block.prevHash];
    assert Linked(blocks, parent.block.headerHash);
    if parent.block.prevHash !in blocks { return Err(MissingBlock); }
    var oldDifficulty := parent.block.weight - blocks[parent.block.prevHash].block.weight;
    var d := DifficultyBetween(c, m.value.0, m.value.1, oldDifficulty);
    if d.None? { return Err(AssertionFailed); }
    r := Ok(d.value);
  }

  /** Sub-slot length and difficulty of the block after prev. On every valid chain it succeeds,
      and computes the values that the header rules ask for. */
  method GetNextSubSlotItersAndDifficulty(c: Consensus, blocks: Blocks, heights: map<nat, Hash>, firstInSubSlot: bool,
                                          prev: Option<BlockRecord>) returns (r: Result<Params>)
    requires ValidConstants(c) && Closed(blocks) && HeightsConsistent(blocks, heights)
    requires prev.Some? ==> prev.value.block.headerHash in blocks && blocks[prev.value.block.headerHash] == prev.value
    ensures var path := if prev.None? then Empty else Path(blocks, prev.value.block.headerHash);
            ValidChain(c, path) ==> r.Ok? && NextParams(c, path, firstInSubSlot) == Some(r.value)
  {
    if prev.None? { return Ok(Params(c.subSlotItersStarting, c.difficultyStarting)); }
    var b := prev.value;
    ghost var path := Path(blocks, b.block.headerHash);
    assert Linked(blocks, b.block.headerHash);
    if ValidChain(c, path) { NextParamsDefined(c, path, firstInSubSlot); }
    var difficulty: int := b.block.weight;
    if b.block.height != 0 {
      difficulty := b.block.weight - blocks[b.block.prevHash].block.weight;
    }
    if difficulty < 0 { return Err(AssertionFailed); }
    if b.SummaryIncluded() { return Ok(Params(b.subSlotIters, difficulty)); }
    var d := GetNextDifficulty(c, blocks, heights, b, firstInSubSlot, difficulty);
    if d.Err? { return Err(d.error); }
    var s := GetNextSubSlotIters(c, blocks, heights, b, firstInSubSlot);
    if s.Err? { return Err(s.error); }
    r := Ok(Params(s.value, d.value));
  }
}
