/**
  Moving the main chain to another branch: which blocks are to be added, and what the stores hold
  after the changes above the fork are undone and the branch is applied.
 */
module Reorganisation {
  import opened Types
  import opened Chains
  import opened BlockTree
  import opened HeaderRules
  import opened CoinSet
  import opened CoinHistory
  import opened ForkPoint
  import opened MainChain
  import opened NodeStores
  import opened BodyValidation
  import opened Supply

  lemma {:induction false} UpToSnoc(ch: Chain, h: int)
    requires Numbered(ch) && 0 <= h <= Height(ch)
    ensures UpTo(ch, h) == Snoc(UpTo(ch, h - 1), At(ch, h)) && At(ch, h).block.height == h
  {
    if h < Height(ch) { UpToSnoc(ch.prev, h); }
    UpToReaches(ch, h);
  }

  // ---------------------------------------------------------------- the blocks to add

  /** The records of a chain above a height, the newest first. */
  ghost predicate NewestFirst(records: seq<BlockRecord>, ch: Chain, fork: int)
    requires Numbered(ch) && -1 <= fork <= Height(ch)
  {
    |records| == Height(ch) - fork && forall i | 0 <= i < |records| :: records[i] == At(ch, Height(ch) - i)
  }

  lemma {:induction false} NewestAt(records: seq<BlockRecord>, ch: Chain, fork: int, i: nat, h: int)
    requires Numbered(ch) && -1 <= fork <= Height(ch) && NewestFirst(records, ch, fork) && i < |records|
             && h == Height(ch) - i
    ensures records[i] == At(ch, h)
  {}

  lemma {:induction false} OneMore(records: seq<BlockRecord>, ch: Chain, h: int)
    requires Numbered(ch) && 0 <= h <= Height(ch) && NewestFirst(records, ch, h)
    ensures NewestFirst(records + [At(ch, h)], ch, h - 1)
  {}

  /** Backtracks from a block to the main chain at the fork height. */
  method CollectBlocksToAdd(blocks: Blocks, hashes: seq<Hash>, start: Hash, fork: int, ghost main: Chain)
    returns (toAdd: seq<BlockRecord>)
    requires Closed(blocks) && InTree(blocks, main) && Numbered(main) && hashes == PathHashes(main) && start in blocks
    requires Agree(main, Path(blocks, start), fork) && fork < blocks[start].block.height
    ensures NewestFirst(toAdd, Path(blocks, start), fork)
  {
    ghost var branch := Path(blocks, start);
    toAdd := [];
    var curr := start;
    PathHashesAt(main, 0);
    while fork < 0 || curr != hashes[fork]
      invariant curr in blocks && IsPrefix(Path(blocks, curr), branch)
                && fork <= blocks[curr].block.height <= Height(branch)
      invariant NewestFirst(toAdd, branch, blocks[curr].block.height)
      decreases blocks[curr].block.height
    {
      if fork >= 0 { AtFork(blocks, main, branch, curr, fork); }
      PrefixIsUpTo(Path(blocks, curr), branch);
      OneMore(toAdd, branch, blocks[curr].block.height);
      toAdd := toAdd + [blocks[curr]];
      if blocks[curr].block.height == 0 { return; }
      Descend(blocks, curr, branch);
      curr := blocks[curr].block.prevHash;
    }
    AtFork(blocks, main, branch, curr, fork);
  }

  /** On the way back, the main chain is met exactly at the fork height. */
  lemma {:induction false} AtFork(blocks: Blocks, main: Chain, branch: Chain, curr: Hash, fork: int)
    requires Closed(blocks) && InTree(blocks, main) && Numbered(main) && Numbered(branch) && curr in blocks
    requires 0 <= fork && Agree(main, branch, fork) && IsPrefix(Path(blocks, curr), branch)
    ensures |PathHashes(main)| > fork
    ensures curr == PathHashes(main)[fork] <==> blocks[curr].block.height == fork
  {
    MainAt(blocks, main, fork);
    UpToReaches(main, fork);
    PrefixIsUpTo(Path(blocks, curr), branch);
    assert Linked(blocks, curr) && Linked(blocks, PathHashes(main)[fork]);
  }

  // ---------------------------------------------------------------- coins

  lemma {:induction false} TwoRewards(c: Consensus, ch: Chain, b: FullBlock)
    requires GoodBodies(c, ch) && BodyOk(c, ch, b) && b.foliage.Some? && ch.Snoc?
    ensures |b.IncludedRewardCoins()| >= 2
  {
    BodiesNumbered(c, ch);
    var t, claims := LastTx(ch).top.block, b.info.value.rewardClaims;
    var pool, farmer := PoolCoin(t), FarmerCoin(t, FeesOf(t));
    CardinalityIsLength(claims);
    assert {pool, farmer} <= Members(claims);
    assert |Members(claims)| == |{pool, farmer}| + |Members(claims) - {pool, farmer}|;
  }

  /** A valid block can always be applied to the coin table of its ancestors. */
  lemma {:induction false} ValidIsApplicable(c: Consensus, ch: Chain, b: FullBlock)
    requires GoodBodies(c, ch) && BodyOk(c, ch, b) && b.foliage.Some? && b.height == Height(ch) + 1
    ensures Applicable(Replay(c, ch), b.height, b.IncludedRewardCoins(), Additions(Spends(c, ch, b)),
        Removals(Spends(c, ch, b)))
  {
    BodiesNumbered(c, ch);
    ReplayExplained(c, ch);
    BlockAmounts(c, ch, b);
    if ch.Snoc? { TwoRewards(c, ch, b); }
    else {
      forall x ensures x !in Spent(c, Empty, b) && x !in Added(c, Empty, b) { GenesisSpendsNothing(c, b, x); }
      HasMember(Spent(c, Empty, b));
      HasMember(Added(c, Empty, b));
    }
    forall x
      ensures x in Added(c, ch, b) ==> x !in Replay(c, ch)
      ensures x in Spent(c, ch, b) ==> x in Added(c, ch, b) || (x in Replay(c, ch) && Replay(c, ch)[x].spent == 0)
    {
      BodyFacts(c, ch, b, x);
      if x in Added(c, ch, b) { AddedIsNew(c, ch, b, x); }
    }
  }

  // ---------------------------------------------------------------- main-chain flags

  lemma {:induction false} PathHashesUpTo(ch: Chain, h: int)
    requires Numbered(ch) && -1 <= h <= Height(ch)
    ensures |PathHashes(ch)| == Height(ch) + 1 && PathHashes(UpTo(ch, h)) == PathHashes(ch)[..h + 1]
  {
    PathHashesAt(ch, 0);
    if ch.Snoc? && h < Height(ch) {
      PathHashesUpTo(ch.prev, h);
    }
  }

  /** Rows of the main chain up to the fork, and the rows added, make up the rows of the branch. */
  lemma {:induction false} FlagsMoved(blocks: Blocks, flagged: set<Hash>, main: Chain, branch: Chain, fork: int,
                                      records: seq<BlockRecord>)
    requires Closed(blocks) && InTree(blocks, main) && InTree(blocks, branch) && Numbered(main) && Numbered(branch)
    requires FlaggedRows(blocks, flagged, main) && Agree(main, branch, fork) && records == Segment(branch, fork)
    ensures FlaggedRows(blocks, (set h | h in flagged && !(h in blocks && blocks[h].block.height > fork))
                                + (set r | r in records && r.block.headerHash in blocks :: r.block.headerHash), branch)
  {
    SegmentByHeight(branch, fork);
    var kept := set h | h in flagged && !(h in blocks && blocks[h].block.height > fork);
    var moved := set r | r in records && r.block.headerHash in blocks :: r.block.headerHash;
    forall h ensures h in kept + moved <==> h in PathHashes(branch) {
      if h in kept { KeptFlag(blocks, flagged, main, branch, fork, h); }
      if h in moved { MovedFlag(blocks, branch, fork, records, h); }
      if h in PathHashes(branch) { BranchFlag(blocks, flagged, main, branch, fork, records, h); }
    }
  }

  /** The records of a chain above a height, the oldest first. */
  function Segment(ch: Chain, fork: int): seq<BlockRecord> {
    if ch.Empty? || ch.top.block.height <= fork then [] else Segment(ch.prev, fork) + [ch.top]
  }

  ghost predicate OldestFirst(records: seq<BlockRecord>, ch: Chain, fork: int)
    requires Numbered(ch)
  {
    -1 <= fork <= Height(ch) && |records| == Height(ch) - fork && forall i | 0 <= i < |records| ::
      records[i] == At(ch, fork + 1 + i)
  }

  lemma {:induction false} SegmentByHeight(ch: Chain, fork: int)
    requires Numbered(ch) && -1 <= fork <= Height(ch)
    ensures OldestFirst(Segment(ch, fork), ch, fork)
  {
    if fork < Height(ch) {
      SegmentByHeight(ch.prev, fork);
      var below := Segment(ch.prev, fork);
      forall i | 0 <= i < |below| ensures below[i] == At(ch, fork + 1 + i) {
        assert At(ch, fork + 1 + i) == At(ch.prev, fork + 1 + i);
      }
    }
  }

  lemma {:induction false} KeptFlag(blocks: Blocks, flagged: set<Hash>, main: Chain, branch: Chain, fork: int, h: Hash)
    requires Closed(blocks) && InTree(blocks, main) && Numbered(main) && Numbered(branch)
    requires FlaggedRows(blocks, flagged, main) && Agree(main, branch, fork) && h in flagged
             && blocks[h].block.height <= fork
    ensures h in PathHashes(branch)
  {
    var i :| 0 <= i < |PathHashes(main)| && PathHashes(main)[i] == h;
    PathHashesAt(main, i);
    MainAt(blocks, main, i);
    UpToReaches(main, i);
    PathHashesUpTo(main, fork);
    PathHashesUpTo(branch, fork);
    assert PathHashes(main)[..fork + 1][i] == PathHashes(branch)[i];
  }

  lemma {:induction false} MovedFlag(blocks: Blocks, branch: Chain, fork: int, records: seq<BlockRecord>, h: Hash)
    requires Numbered(branch) && OldestFirst(records, branch, fork)
    requires exists r | r in records :: r.block.headerHash == h
    ensures h in PathHashes(branch)
  {
    var i :| 0 <= i < |records| && records[i].block.headerHash == h;
    PathHashesAt(branch, fork + 1 + i);
    assert PathHashes(branch)[fork + 1 + i] == h;
  }

  lemma {:induction false} BranchFlag(blocks: Blocks, flagged: set<Hash>, main: Chain, branch: Chain, fork: int,
                                      records: seq<BlockRecord>, h: Hash)
    requires Closed(blocks) && InTree(blocks, main) && InTree(blocks, branch) && Numbered(main) && Numbered(branch)
    requires FlaggedRows(blocks, flagged, main) && Agree(main, branch, fork) && OldestFirst(records, branch, fork)
             && h in PathHashes(branch)
    ensures h in blocks
    ensures (h in flagged && blocks[h].block.height <= fork) || exists r | r in records :: r.block.headerHash == h
  {
    var i :| 0 <= i < |PathHashes(branch)| && PathHashes(branch)[i] == h;
    PathHashesAt(branch, i);
    MainAt(blocks, branch, i);
    UpToReaches(branch, i);
    if i <= fork {
      PathHashesUpTo(main, fork);
      PathHashesUpTo(branch, fork);
      assert PathHashes(main)[..fork + 1][i] == h;
      assert h in PathHashes(main);
    } else {
      assert records[i - fork - 1] == At(branch, i);
      assert records[i - fork - 1] in records;
    }
  }
}
