/**
  The chain state of a full node. Receiving a block changes the coin table, the block table, the
  height map and the peak together: after every call they all describe the same main chain.
 */
module FullNode {
  import opened Types
  import opened Chains
  import opened BlockTree
  import opened HeaderRules
  import opened HeaderValidation
  import opened CoinSet
  import opened CoinHistory
  import opened ForkPoint
  import opened ForkChoice
  import opened MainChain
  import opened BodyValidation
  import opened NodeStores
  import opened Reorganisation
  import DifficultyAdjustment
  import SubEpochs
  import Generators

  datatype ReceiveResult = NewPeak | AddedAsOrphan | InvalidBlock | DisconnectedBlock | AlreadyHaveBlock

  /** What pre-validation reports: an error, or the result of running the block's generator. */
  datatype PreValidationResult = PreValidationResult(error: Option<Error>, npc: Option<NpcResult>)

  /** The result of pre-validation for a block with a valid header. */
  function ResultOf(npc: Result<Option<NpcResult>>): PreValidationResult {
    if npc.Err? then PreValidationResult(Some(npc.error), None)
    else if npc.value == Some(NpcError) then PreValidationResult(Some(GeneratorRuntimeError), None)
    else PreValidationResult(None, npc.value)
  }

  /** What a new peak changes: the height down to which the main chain stays, the coins whose
      records a rollback changed, and the rewards of the blocks that were added. */
  datatype StateChange = StateChange(forkHeight: nat, rolledBack: map<Coin, CoinRecord>, rewards: seq<Coin>)

  /** The stores describe one main chain, and nothing else. */
  ghost predicate StoresMatch(c: Consensus, blocks: Blocks, main: Chain, coins: Coins, hashes: seq<Hash>,
                              summaries: map<nat, Hash>, flagged: set<Hash>, version2: bool, peakHeight: Option<nat>) {
    && coins == Replay(c, main)
    && hashes == PathHashes(main) && summaries == PathSummaries(main)
    && (version2 ==> FlaggedRows(blocks, flagged, main))
    && peakHeight == if main.Empty? then None else Some(main.top.block.height)
  }

  lemma {:induction false} GoodPaths(c: Consensus, w: World, h: Hash)
    requires ValidConstants(c) && Good(c, w) && h in w.blocks
    ensures FullyValid(c, Path(w.blocks, h)) && GoodAt(c, w.blocks, h)
  {
    assert Weighed(c, w, h);
    FullyValidBodies(c, Path(w.blocks, h));
  }

  /** A good world whose stores match is a state in which bodies can be validated. */
  lemma {:induction false} ReadyToValidate(c: Consensus, w: World, s: Stores, coins: Coins)
    requires ValidConstants(c) && Good(c, w) && coins == Replay(c, Main(w))
    requires s.blocks == w.blocks && s.peak == Top(Main(w)) && s.hashes == PathHashes(Main(w))
    requires s.version2 ==> FlaggedRows(w.blocks, s.flagged, Main(w))
    ensures NodeOk(c, s, coins, Main(w))
  {
    if w.peak.Some? { assert Linked(w.blocks, w.peak.value); }
    forall h | h in w.blocks ensures GoodAt(c, s.blocks, h) { GoodPaths(c, w, h); }
  }

  /** The height map as a dictionary. */
  function ByHeight(hashes: seq<Hash>): (m: map<nat, Hash>)
    ensures forall i: nat :: i in m <==> i < |hashes|
    ensures forall i | i in m :: m[i] == hashes[i]
  {
    if hashes == [] then map[] else ByHeight(hashes[..|hashes| - 1])[|hashes| - 1 := hashes[|hashes| - 1]]
  }

  /** The record of a block: its sub-slot length is computed from its parent once more. */
  method BlockToBlockRecord(c: Consensus, blocks: Blocks, hashes: seq<Hash>, ghost main: Chain, block: FullBlock)
    returns (r: BlockRecord)
    requires ValidConstants(c) && Closed(blocks) && RootedAt(blocks, c.genesisChallenge)
    requires InTree(blocks, main) && Numbered(main) && hashes == PathHashes(main)
    requires block.height > 0 ==> block.prevHash in blocks
    requires ValidChain(c, ParentPath(blocks, block)) && HeaderValid(c, ParentPath(blocks, block), block)
    ensures StepOk(c, ParentPath(blocks, block), r) && r.block == block
  {
    ghost var ch := ParentPath(blocks, block);
    assert Follows(c, ch, RecordOf(c, Top(ch), block,
        NextParams(c, ch, block.finishedSubSlots != []).value.subSlotIters));
    var prev := if block.prevHash in blocks then Some(blocks[block.prevHash]) else None;
    if block.prevHash in blocks { assert Linked(blocks, block.prevHash); }
    var heights := ByHeight(hashes);
    HeightsMatch(blocks, main, heights);
    var params := DifficultyAdjustment.GetNextSubSlotItersAndDifficulty(c, blocks, heights,
        block.finishedSubSlots != [], prev);
    r := RecordOf(c, prev, block, params.value.subSlotIters);
  }

  lemma {:induction false} HeightsMatch(blocks: Blocks, main: Chain, heights: map<nat, Hash>)
    requires Closed(blocks) && InTree(blocks, main) && Numbered(main)
    requires heights == ByHeight(PathHashes(main))
    ensures DifficultyAdjustment.HeightsConsistent(blocks, heights)
  {
    PathHashesAt(main, 0);
    forall h | h in heights
      ensures heights[h] in blocks && blocks[heights[h]].block.height == h
      ensures h > 0 ==> h - 1 in heights && heights[h - 1] == blocks[heights[h]].block.prevHash
    {
      MainAt(blocks, main, h);
      UpToReaches(main, h);
      if h > 0 { MainStep(blocks, main, h); }
    }
  }

  /** The hash at one height is the parent of the one above. */
  lemma {:induction false} MainStep(blocks: Blocks, main: Chain, h: nat)
    requires Closed(blocks) && InTree(blocks, main) && Numbered(main) && 0 < h <= Height(main)
    ensures |PathHashes(main)| == Height(main) + 1 && PathHashes(main)[h] in blocks
    ensures PathHashes(main)[h - 1] == blocks[PathHashes(main)[h]].block.prevHash
  {
    MainAt(blocks, main, h);
    MainAt(blocks, main, h - 1);
    UpToSnoc(main, h);
    UpToReaches(main, h);
    assert Linked(blocks, PathHashes(main)[h]) && Linked(blocks, PathHashes(main)[h - 1]);
  }

  /** Removals and additions of a block of the branch: from the result at hand for the newest block,
      by running the generator again for the others. */
  method GetTxRemovalsAndAdditions(c: Consensus, s: Stores, ghost main: Chain, ghost ch: Chain, block: FullBlock,
                                   npc: Option<NpcResult>, tip: Hash)
                                   returns (additions: seq<Coin>, removals: seq<Coin>)
    requires NodeOk(c, s, Replay(c, main), main) && BodyOk(c, ch, block) && block.foliage.Some?
    requires ReadyToApply(c, s.blocks, ch, block, npc, tip)
    ensures additions == Additions(Spends(c, ch, block)) && removals == Removals(Spends(c, ch, block))
  {
    additions, removals := [], [];
    if block.generator.Some? {
      if block.headerHash == tip {
        additions, removals := TxRemovalsAndAdditions(npc.value.conditions.spends);
      } else {
        additions, removals := Rerun(c, s, Replay(c, main), main, block);
      }
    }
  }

  /** What is known of a block of the branch: the newest comes with its result, the others are in the tree. */
  ghost predicate ReadyToApply(c: Consensus, blocks: Blocks, ch: Chain, block: FullBlock, npc: Option<NpcResult>,
                               tip: Hash)
    requires Closed(blocks)
  {
    if block.headerHash == tip then Honest(c, ch, block, npc)
    else
      && block.headerHash in blocks && blocks[block.headerHash].block == block
      && Path(blocks, block.headerHash).prev == ch
  }

  /** A new block on top of the tree, with the result of running its generator. */
  ghost predicate NewBranch(c: Consensus, blocks: Blocks, branch: Chain, npc: Option<NpcResult>, tip: Hash)
    requires Closed(blocks)
  {
    && GoodBodies(c, branch) && Numbered(branch) && branch.Snoc? && InTree(blocks, branch.prev)
    && branch.top.block.headerHash == tip && tip !in blocks && Honest(c, branch.prev, branch.top.block, npc)
  }

  lemma {:induction false} BranchReady(c: Consensus, blocks: Blocks, branch: Chain, npc: Option<NpcResult>, tip: Hash,
                                       below: int, h: nat)
    requires Closed(blocks) && NewBranch(c, blocks, branch, npc, tip) && h <= Height(branch) && below == h - 1
    ensures var ch, r := UpTo(branch, below), At(branch, h);
            && UpTo(branch, h) == Snoc(ch, r) && GoodBodies(c, Snoc(ch, r)) && r.block.height == h
            && ReadyToApply(c, blocks, ch, r.block, npc, tip)
  {
    UpToSnoc(branch, h);
    BodiesCut(c, branch, h);
    if h < Height(branch) { InBranch(blocks, branch, h); }
    else { assert UpTo(branch, h - 1) == branch.prev; }
  }

  /** Below its newest block, a branch is in the tree. */
  lemma {:induction false} InBranch(blocks: Blocks, branch: Chain, h: nat)
    requires Closed(blocks) && Numbered(branch) && branch.Snoc? && InTree(blocks, branch.prev) && h < Height(branch)
    ensures var r := At(branch, h);
            && r.block.headerHash in blocks && blocks[r.block.headerHash] == r && r.block.height == h
            && Path(blocks, r.block.headerHash) == UpTo(branch, h) && UpTo(branch, h).prev == UpTo(branch, h - 1)
  {
    UpToSnoc(branch, h);
    MainAt(blocks, branch.prev, h);
    PathHashesAt(branch.prev, h);
    assert UpTo(branch, h) == UpTo(branch.prev, h);
    assert Linked(blocks, At(branch, h).block.headerHash);
  }

  /** Rewards of the blocks of a chain above a height. */
  function RewardsSince(ch: Chain, fork: int): seq<Coin> {
    if ch.Empty? || ch.top.block.height <= fork then []
    else RewardsSince(ch.prev, fork) + ch.top.block.IncludedRewardCoins()
  }

  lemma {:induction false} SegmentStart(ch: Chain, fork: int)
    requires Numbered(ch) && -1 <= fork <= Height(ch)
    ensures Segment(UpTo(ch, fork), fork) == [] && RewardsSince(UpTo(ch, fork), fork) == []
  {
    UpToReaches(ch, fork);
  }

  lemma {:induction false} SegmentStep(ch: Chain, fork: int, h: int)
    requires Numbered(ch) && -1 <= fork < h <= Height(ch)
    ensures At(ch, h).block.height == h
    ensures Segment(UpTo(ch, h), fork) == Segment(UpTo(ch, h - 1), fork) + [At(ch, h)]
    ensures RewardsSince(UpTo(ch, h), fork) == RewardsSince(UpTo(ch, h - 1), fork) + At(ch,
        h).block.IncludedRewardCoins()
  {
    UpToSnoc(ch, h);
  }

  /** A fresh valid block on top of a good world. */
  /** The rewards that a summary reports: those that the blocks above the fork include. */
  lemma {:induction false} RewardsSinceExact(ch: Chain, fork: int, x: Coin)
    requires Numbered(ch) && -1 <= fork
    ensures x in RewardsSince(ch, fork) <==>
              exists h | 0 <= h <= Height(ch) && fork < h :: x in At(ch, h).block.IncludedRewardCoins()
  {
    if ch.Snoc? && Height(ch) > fork {
      NumberedHeight(ch.prev);
      RewardsSinceExact(ch.prev, fork, x);
      assert At(ch, Height(ch)) == ch.top;
      assert forall h | 0 <= h <= Height(ch.prev) :: At(ch, h) == At(ch.prev, h);
    }
  }

  ghost predicate Arrives(c: Consensus, w: World, r: BlockRecord, npc: Option<NpcResult>)
    requires ValidConstants(c)
  {
    Good(c, w) && Acceptable(c, w, r) && Honest(c, ParentPath(w.blocks, r.block), r.block, npc)
  }

  /** The branch that a fresh block makes. */
  ghost function Branch(w: World, r: BlockRecord): Chain
    requires Closed(w.blocks) && (r.block.height > 0 ==> r.block.prevHash in w.blocks)
  {
    Snoc(ParentPath(w.blocks, r.block), r)
  }

  lemma {:induction false} BranchOf(c: Consensus, w: World, r: BlockRecord, npc: Option<NpcResult>)
    requires ValidConstants(c) && Arrives(c, w, r, npc)
    ensures var branch, more := Branch(w, r), w.blocks[r.block.headerHash := r];
            && NewBranch(c, w.blocks, branch, npc, r.block.headerHash)
            && Closed(more) && InTree(more, branch) && InTree(more, Main(w)) && Numbered(Main(w))
            && branch == Path(more, r.block.headerHash) && Main(w) == if w.peak.None? then Empty
              else Path(more, w.peak.value)
  {
    AcceptKeeps(c, w, r);
    FullyValidBodies(c, Branch(w, r));
    BodiesNumbered(c, Branch(w, r));
    if w.peak.Some? { assert Linked(w.blocks, w.peak.value); }
    if r.block.height > 0 { assert Linked(w.blocks, r.block.prevHash); }
  }

  /** Below a fresh block, its branch agrees with the main chain as its parents do. */
  lemma {:induction false} AgreesBelow(main: Chain, branch: Chain, fork: int)
    requires Numbered(branch) && branch.Snoc? && Agree(main, branch.prev, fork)
    ensures Agree(main, branch, fork) && fork < Height(branch)
  {}

  /** A summary that tells a listener how to get from the old main chain to the new one: where they
      part, which rows to take back to be at the fork, and which rewards come after it. */
  ghost predicate Reports(c: Consensus, main: Chain, branch: Chain, fork: int, change: StateChange) {
    && Agree(main, branch, fork) && change.forkHeight == (if fork < 0 then 0 else fork)
    && Undone(Replay(c, main), Replay(c, UpTo(branch, fork)), change.rolledBack)
    && change.rewards == RewardsSince(branch, fork)
  }

  /** What moving the main chain to a branch leaves in the stores. */
  ghost predicate Moved(c: Consensus, main: Chain, branch: Chain, fork: int, blocks: Blocks, coins: Coins,
                        flagged: set<Hash>, version2: bool, records: seq<BlockRecord>, change: Option<StateChange>) {
    && Agree(main, branch, fork) && fork < Height(branch)
    && coins == Replay(c, branch) && (version2 ==> FlaggedRows(blocks, flagged, branch))
    && records == Segment(branch, fork)
    && change.Some? && Reports(c, main, branch, fork, change.value)
  }

  lemma {:induction false} GenesisMoved(c: Consensus, r: BlockRecord, blocks: Blocks, coins: Coins, flagged: set<Hash>,
                                        version2: bool)
    requires r.block.height == 0 && r.block.headerHash in blocks
    requires coins == Replay(c, Snoc(Empty, r)) && (version2 ==> flagged == {r.block.headerHash})
    ensures Moved(c, Empty, Snoc(Empty, r), -1, blocks, coins, flagged, version2, [r],
        Some(StateChange(0, map[], r.block.IncludedRewardCoins())))
  {
    var branch := Snoc(Empty, r);
    assert PathHashes(Empty) == [] && PathHashes(branch) == [] + [r.block.headerHash];
    assert RewardsSince(Empty, -1) == [] && RewardsSince(branch, -1) == [] + r.block.IncludedRewardCoins();
    assert Segment(Empty, -1) == [] && Segment(branch, -1) == [] + [r];
    assert UpTo(branch, -1) == Empty && UpTo(Empty, -1) == Empty;
  }

  /** The coin table at the fork, whether rolled back or, when the block extends the peak, as it is. */
  lemma {:induction false} RolledBack(c: Consensus, main: Chain, branch: Chain, fork: int, onPeak: bool)
    requires GoodBodies(c, main) && Agree(main, branch, fork) && (onPeak ==> fork == Height(main))
    ensures (if onPeak then Replay(c, main) else Rollback(Replay(c, main), fork)) == Replay(c, UpTo(branch, fork))
  {
    RollbackIsReplay(c, main, fork);
  }

  /** A branch that parts from the main chain at a height, both in the given block table. */
  ghost predicate Parts(blocks: Blocks, main: Chain, branch: Chain, fork: int, tip: Hash) {
    && Closed(blocks) && InTree(blocks, main) && Numbered(main) && Numbered(branch)
    && tip in blocks && branch == Path(blocks, tip)
    && Agree(main, branch, fork) && fork < Height(branch)
  }

  lemma {:induction false} GenesisIsLight(c: Consensus, w: World, r: BlockRecord)
    requires ValidConstants(c) && Good(c, w) && Acceptable(c, w, r) && r.block.height == 0 && w.peak.Some?
    ensures !Outweighs(w, r)
  {
    assert Weighed(c, w, w.peak.value);
    StartingWeight(c, Path(w.blocks, w.peak.value));
    StartingWeight(c, Snoc(Empty, r));
  }

  /** The records that are added and the rewards they bring, the oldest first. */
  method InOrder(toAdd: seq<BlockRecord>, ghost branch: Chain, ghost fork: int)
    returns (records: seq<BlockRecord>, rewards: seq<Coin>)
    requires Numbered(branch) && -1 <= fork <= Height(branch) && NewestFirst(toAdd, branch, fork)
    ensures records == Segment(branch, fork) && rewards == RewardsSince(branch, fork)
  {
    records, rewards := [], [];
    ghost var h := fork;
    SegmentStart(branch, fork);
    for i := |toAdd| downto 0
      invariant h == Height(branch) - i
      invariant records == Segment(UpTo(branch, h), fork) && rewards == RewardsSince(UpTo(branch, h), fork)
    {
      h := h + 1;
      NewestAt(toAdd, branch, fork, i, h);
      SegmentStep(branch, fork, h);
      records := records + [toAdd[i]];
      rewards := rewards + toAdd[i].block.IncludedRewardCoins();
    }
  }

  function SummaryOf(r: BlockRecord): Option<Hash> {
    if r.SummaryIncluded() then r.block.finishedSubSlots[0].summary else None
  }

  lemma {:induction false} HeightStep(branch: Chain, below: int, h: int)
    requires Numbered(branch) && 0 <= h <= Height(branch) && below == h - 1
    ensures At(branch, h).block.height == h && |PathHashes(UpTo(branch, below))| == h
    ensures PathHashes(UpTo(branch, h)) == PathHashes(UpTo(branch, below)) + [At(branch, h).block.headerHash]
    ensures var s := SummaryOf(At(branch, h)); var m := PathSummaries(UpTo(branch, below));
            PathSummaries(UpTo(branch, h)) == if s.Some? then m[h := s.value] else m
  {
    UpToSnoc(branch, h);
    UpToReaches(branch, below);
    PathHashesAt(UpTo(branch, below), 0);
  }

  /** What is left of the height map after the cut. */
  lemma {:induction false} CutHeights(main: Chain, branch: Chain, fork: int)
    requires Numbered(main) && Numbered(branch) && Agree(main, branch, fork) && 0 !in PathSummaries(main)
    ensures |PathHashes(main)| == Height(main) + 1
    ensures fork >= 0 ==> PathHashes(main)[..fork + 1] == PathHashes(UpTo(branch, fork))
    ensures var cut := if fork < 0 then 0 else fork;
            PathSummaries(main) - (set i | i in PathSummaries(main) && i > cut) == PathSummaries(UpTo(branch, fork))
  {
    PathHashesUpTo(main, fork);
    SummariesUpTo(main, fork);
    assert fork < 0 ==> (set i | i in PathSummaries(main) && i > 0) == (set i | i in PathSummaries(main) && i > fork);
  }

  /** Genesis includes no sub-epoch summary. */
  lemma {:induction false} NoSummaryAtGenesis(c: Consensus, ch: Chain)
    requires ValidConstants(c) && FullyValid(c, ch)
    ensures 0 !in PathSummaries(ch)
  {
    if ch.Snoc? {
      NoSummaryAtGenesis(c, ch.prev);
      assert SummaryOk(c, ch.prev, ch.top) && Follows(c, ch.prev, ch.top);
      FullyValidIsValid(c, ch.prev);
      SubEpochs.ValidNumbered(c, ch.prev);
      NumberedHeight(ch.prev);
    }
  }

  /** A block that is new and whose parent is there, one height below. */
  ghost predicate Connected(w: World, block: FullBlock) {
    && block.headerHash !in w.blocks
    && (block.height > 0 ==> block.prevHash in w.blocks && w.blocks[block.prevHash].block.height + 1 == block.height)
  }

  /** What the caller vouches for: names are unique, pre-validation is honest, and a fork point it
      hands over is a height up to which the block's ancestors are the main chain. */
  ghost predicate Vouched(c: Consensus, w: World, block: FullBlock, pre: PreValidationResult, forkPoint: Option<nat>)
    requires ValidConstants(c) && Good(c, w)
  {
    && block.headerHash != c.genesisChallenge
    && (Connected(w, block) ==>
          var ch := ParentPath(w.blocks, block);
          && (pre.error.None? ==> HeaderValid(c, ch, block) && Honest(c, ch, block, pre.npc))
          && (forkPoint.Some? ==> Agree(Main(w), ch, forkPoint.value)))
  }

  /** A block that must be accepted. */
  ghost predicate MustAccept(c: Consensus, w: World, block: FullBlock, pre: PreValidationResult)
    requires Closed(w.blocks)
  {
    Connected(w, block) && pre.error.None? && BodyOk(c, ParentPath(w.blocks, block), block)
  }

  /** A valid header on a good world settles what body validation relies on. */
  lemma {:induction false} HeaderSettles(c: Consensus, w: World, block: FullBlock)
    requires ValidConstants(c) && Good(c, w) && Connected(w, block) && block.headerHash != c.genesisChallenge
    requires HeaderValid(c, ParentPath(w.blocks, block), block)
    ensures var ch := ParentPath(w.blocks, block);
            && ValidChain(c, ch) && HeaderDone(ch, block)
            && (block.height == 0 ==> block.prevHash == c.genesisChallenge)
  {
    var ch := ParentPath(w.blocks, block);
    var r := RecordOf(c, Top(ch), block, NextParams(c, ch, block.finishedSubSlots != []).value.subSlotIters);
    assert Follows(c, ch, r) && TransactionOk(c, ch, r);
    if block.height > 0 {
      GoodPaths(c, w, block.prevHash);
      FullyValidIsValid(c, ch);
    }
  }

  /** What updating the height map relies on. */
  lemma {:induction false} MapReady(c: Consensus, w: World, r: BlockRecord, npc: Option<NpcResult>)
    requires ValidConstants(c) && Arrives(c, w, r, npc)
    ensures Numbered(Main(w)) && Numbered(Branch(w, r)) && 0 !in PathSummaries(Main(w))
  {
    BranchOf(c, w, r, npc);
    if w.peak.Some? { GoodPaths(c, w, w.peak.value); }
    NoSummaryAtGenesis(c, Main(w));
  }

  /** An orphan leaves the main chain and its stores as they are. */
  lemma {:induction false} AfterOrphan(c: Consensus, w: World, r: BlockRecord, coins: Coins, hashes: seq<Hash>,
                                       summaries: map<nat, Hash>, flagged: set<Hash>, version2: bool,
                                       peakHeight: Option<nat>)
    requires ValidConstants(c) && Good(c, w) && Acceptable(c, w, r) && !Outweighs(w, r)
    requires StoresMatch(c, w.blocks, Main(w), coins, hashes, summaries, flagged, version2, peakHeight)
    ensures Good(c, Accept(w, r))
    ensures StoresMatch(c, Accept(w, r).blocks, Main(Accept(w, r)), coins, hashes, summaries, flagged, version2,
        peakHeight)
  {
    AcceptKeeps(c, w, r);
  }

  /** After a move the stores describe the branch. */
  lemma {:induction false} AfterMove(c: Consensus, w: World, r: BlockRecord, coins: Coins, hashes: seq<Hash>,
                                     summaries: map<nat, Hash>, flagged: set<Hash>, version2: bool)
    requires ValidConstants(c) && Good(c, w) && Acceptable(c, w, r) && Outweighs(w, r)
    requires coins == Replay(c, Branch(w, r)) && hashes == PathHashes(Branch(w, r))
             && summaries == PathSummaries(Branch(w, r))
    requires version2 ==> FlaggedRows(Accept(w, r).blocks, flagged, Branch(w, r))
    ensures Good(c, Accept(w, r))
    ensures StoresMatch(c, Accept(w, r).blocks, Main(Accept(w, r)), coins, hashes, summaries, flagged, version2,
        Some(r.block.height))
  {
    AcceptKeeps(c, w, r);
  }

  /** What header validation relies on. */
  lemma {:induction false} HeaderReady(c: Consensus, w: World, block: FullBlock, hashes: seq<Hash>)
    requires ValidConstants(c) && Good(c, w) && (block.height > 0 ==> block.prevHash in w.blocks)
             && hashes == PathHashes(Main(w))
    ensures DifficultyAdjustment.HeightsConsistent(w.blocks, ByHeight(hashes))
    ensures ValidChain(c, Parents(w.blocks, block))
  {
    var ch := Parents(w.blocks, block);
    if w.peak.Some? { assert Linked(w.blocks, w.peak.value); }
    HeightsMatch(w.blocks, Main(w), ByHeight(hashes));
    if block.prevHash in w.blocks {
      assert Linked(w.blocks, block.prevHash);
      GoodPaths(c, w, block.prevHash);
      FullyValidIsValid(c, ch);
    }
  }

  /** A valid header has the height that its parents ask for, and the first block of all the right origin. */
  lemma {:induction false} HeightOrigin(c: Consensus, ch: Chain, block: FullBlock)
    requires ValidConstants(c) && HeaderValid(c, ch, block)
    ensures block.height == Height(ch) + 1 && (ch.Empty? ==> block.prevHash == c.genesisChallenge)
  {
    assert Follows(c, ch, RecordOf(c, Top(ch), block,
        NextParams(c, ch, block.finishedSubSlots != []).value.subSlotIters));
  }

  class Blockchain {
    const c: Consensus
    const coinStore: CoinStore
    const blockStore: BlockStore
    const heightMap: BlockHeightMap
    var blockRecords: Blocks
    var peakHeight: Option<nat>

    ghost function W(): World
      reads this, blockStore
    {
      World(blockRecords, blockStore.peak)
    }

    /** The world is good and the stores describe its main chain. */
    ghost predicate Matched()
      reads this, coinStore, blockStore, heightMap
    {
      && ValidConstants(c) && Good(c, W())
      && StoresMatch(c, blockRecords, Main(W()), coinStore.records, heightMap.hashes, heightMap.summaries,
                     blockStore.flagged, blockStore.version2, peakHeight)
    }

    ghost predicate Valid()
      reads this, coinStore, blockStore, heightMap
    {
      Matched() && blockStore.blocks == blockRecords
    }

    /** An empty node. */
    constructor (c: Consensus, version2: bool, maxVariables: nat)
      requires ValidConstants(c)
      ensures Valid() && W() == NO_BLOCKS && this.c == c && blockStore.version2 == version2
      ensures fresh(coinStore) && fresh(blockStore) && fresh(heightMap)
    {
      this.c := c;
      coinStore := new CoinStore(maxVariables);
      blockStore := new BlockStore(version2);
      heightMap := new BlockHeightMap();
      blockRecords, peakHeight := map[], None;
    }

    /** The peak as other code reads it: the record of the hash at the peak height. */
    method GetPeak() returns (peak: Option<BlockRecord>)
      requires Matched()
      ensures peak == Top(Main(W()))
    {
      peak := None;
      if peakHeight.Some? {
        assert Linked(blockRecords, blockStore.peak.value);
        MainAt(blockRecords, Main(W()), peakHeight.value);
        peak := Some(blockRecords[heightMap.hashes[peakHeight.value]]);
      }
    }

    /** Applies one block to the coin table of its parents; that never fails. */
    method ApplyBlock(s: Stores, r: BlockRecord, npc: Option<NpcResult>, tip: Hash, ghost main: Chain, ghost ch: Chain)
      requires NodeOk(c, s, Replay(c, main), main) && GoodBodies(c, Snoc(ch, r))
               && ReadyToApply(c, s.blocks, ch, r.block, npc, tip)
      requires coinStore.records == Replay(c, ch)
      modifies coinStore
      ensures coinStore.records == Replay(c, Snoc(ch, r))
    {
      if r.block.foliage.Some? {
        var additions, removals := GetTxRemovalsAndAdditions(c, s, main, ch, r.block, npc, tip);
        ValidIsApplicable(c, ch, r.block);
        var ok := coinStore.NewBlock(r.block.height, r.block.foliage.value.timestamp, r.block.IncludedRewardCoins(),
            additions, removals);
        assert ok;
      }
    }

    /** Applies the block at a height of the branch. */
    method ApplyNext(s: Stores, r: BlockRecord, npc: Option<NpcResult>, tip: Hash, ghost main: Chain,
                     ghost branch: Chain, ghost below: int, ghost h: nat)
      requires NodeOk(c, s, Replay(c, main), main) && NewBranch(c, s.blocks, branch, npc, tip)
      requires h <= Height(branch) && below == h - 1 && r == At(branch, h)
               && coinStore.records == Replay(c, UpTo(branch, below))
      modifies coinStore
      ensures coinStore.records == Replay(c, UpTo(branch, h))
    {
      BranchReady(c, s.blocks, branch, npc, tip, below, h);
      ApplyBlock(s, r, npc, tip, main, UpTo(branch, below));
    }

    /** Applies the blocks of a branch above the fork, the oldest first. */
    method ApplyBlocks(s: Stores, toAdd: seq<BlockRecord>, npc: Option<NpcResult>, tip: Hash, ghost main: Chain,
                       ghost branch: Chain, ghost fork: int)
      requires NodeOk(c, s, Replay(c, main), main) && NewBranch(c, s.blocks, branch, npc, tip)
      requires -1 <= fork <= Height(branch) && NewestFirst(toAdd, branch, fork)
      requires coinStore.records == Replay(c, UpTo(branch, fork))
      modifies coinStore
      ensures coinStore.records == Replay(c, branch)
    {
      ghost var below := fork;
      for i := |toAdd| downto 0
        invariant below == Height(branch) - i && coinStore.records == Replay(c, UpTo(branch, below))
      {
        ghost var h := below + 1;
        NewestAt(toAdd, branch, fork, i, h);
        ApplyNext(s, toAdd[i], npc, tip, main, branch, below, h);
        below := h;
      }
    }

    /** The fork of a heavier block with the main chain. */
    method ForkOf(r: BlockRecord, peak: BlockRecord, forkPoint: Option<nat>, ghost npc: Option<NpcResult>)
      returns (fork: int)
      requires ValidConstants(c) && Arrives(c, W(), r, npc) && Some(peak) == Top(Main(W()))
      requires forkPoint.Some? ==> Agree(Main(W()), ParentPath(blockRecords, r.block), forkPoint.value)
      requires r.block.height > 0
      ensures Agree(Main(W()), Branch(W(), r), fork) && fork < r.block.height
      ensures r.block.prevHash == peak.block.headerHash ==>
          Branch(W(), r).prev == Main(W()) && fork == Height(Main(W()))
    {
      ghost var main, branch := Main(W()), Branch(W(), r);
      BranchOf(c, W(), r, npc);
      assert Linked(blockRecords, blockStore.peak.value) && Linked(blockRecords, r.block.prevHash);
      if r.block.prevHash == peak.block.headerHash {
        fork := peak.block.height;
        AgreesBelow(main, branch, fork);
      } else if forkPoint.Some? {
        fork := forkPoint.value;
        AgreesBelow(main, branch, fork);
      } else {
        fork := FindForkPointInChain(blockRecords, r, peak);
        assert Agree(branch, main, fork);
        if fork == Height(branch) { assert UpTo(main, fork).top == r; InTreeCut(blockRecords, main, fork); }
      }
    }

    function View(peak: Option<BlockRecord>): Stores
      reads this, blockStore, heightMap
    {
      Stores(blockRecords, peak, heightMap.hashes, blockStore.flagged, blockStore.version2)
    }

    /** The coins of the first block of all. */
    method ApplyFirst(r: BlockRecord, npc: Option<NpcResult>)
      requires NodeOk(c, View(None), coinStore.records, Empty)
      requires NewBranch(c, blockRecords, Snoc(Empty, r), npc, r.block.headerHash)
      modifies coinStore
      ensures coinStore.records == Replay(c, Snoc(Empty, r))
    {
      ApplyBlock(View(None), r, npc, r.block.headerHash, Empty, Empty);
    }

    /** The first block of all. */
    method AdoptGenesis(r: BlockRecord, npc: Option<NpcResult>)
      returns (records: seq<BlockRecord>, change: Option<StateChange>)
      requires NodeOk(c, View(None), coinStore.records, Empty)
      requires NewBranch(c, blockRecords, Snoc(Empty, r), npc, r.block.headerHash)
      requires Closed(blockStore.blocks) && InTree(blockStore.blocks, Snoc(Empty, r))
      modifies coinStore, blockStore`flagged, blockStore`peak
      ensures blockStore.peak == Some(r.block.headerHash)
      ensures Moved(c, Empty, Snoc(Empty, r), -1, blockStore.blocks, coinStore.records, blockStore.flagged,
          blockStore.version2, records, change)
    {
      assert PathHashes(Empty) == [];
      ApplyFirst(r, npc);
      blockStore.SetInChain([r]);
      blockStore.SetPeak(r.block.headerHash);
      records, change := [r], Some(StateChange(0, map[], r.block.IncludedRewardCoins()));
      GenesisMoved(c, r, blockStore.blocks, coinStore.records, blockStore.flagged, blockStore.version2);
    }

    /** Undoes the coin changes above the fork and applies those of the branch. */
    method MoveCoins(s: Stores, onPeak: bool, f: int, npc: Option<NpcResult>, tip: Hash, ghost main: Chain,
                     ghost branch: Chain)
      returns (toAdd: seq<BlockRecord>, rolledBack: map<Coin, CoinRecord>)
      requires NodeOk(c, s, coinStore.records, main) && GoodBodies(c, main) && NewBranch(c, s.blocks, branch, npc, tip)
      requires Parts(blockStore.blocks, main, branch, f, tip) && (onPeak ==> f == Height(main))
      modifies coinStore
      ensures coinStore.records == Replay(c, branch) && NewestFirst(toAdd, branch, f)
      ensures Undone(Replay(c, main), Replay(c, UpTo(branch, f)), rolledBack)
    {
      rolledBack := map[];
      RolledBack(c, main, branch, f, onPeak);
      if !onPeak { rolledBack := coinStore.RollbackToBlock(f); }
      toAdd := CollectBlocksToAdd(blockStore.blocks, s.hashes, tip, f, main);
      ApplyBlocks(s, toAdd, npc, tip, main, branch, f);
    }

    /** Takes the rows above the fork out of the main chain and puts those of the branch in. */
    method MoveFlags(records: seq<BlockRecord>, f: int, tip: Hash, ghost main: Chain, ghost branch: Chain)
      requires Parts(blockStore.blocks, main, branch, f, tip) && records == Segment(branch, f)
      requires blockStore.version2 ==> FlaggedRows(blockStore.blocks, blockStore.flagged, main)
      modifies blockStore`flagged, blockStore`peak
      ensures blockStore.peak == Some(tip)
      ensures blockStore.version2 ==> FlaggedRows(blockStore.blocks, blockStore.flagged, branch)
    {
      if blockStore.version2 { FlagsMoved(blockStore.blocks, blockStore.flagged, main, branch, f, records); }
      blockStore.Rollback(f);
      blockStore.SetInChain(records);
      blockStore.SetPeak(tip);
    }

    /** Moves the main chain to the branch of a heavier block. */
    method Reorganise(s: Stores, r: BlockRecord, onPeak: bool, f: int, npc: Option<NpcResult>, ghost main: Chain,
                      ghost branch: Chain)
      returns (records: seq<BlockRecord>, change: Option<StateChange>)
      requires NodeOk(c, s, coinStore.records, main) && GoodBodies(c, main)
               && NewBranch(c, s.blocks, branch, npc, r.block.headerHash)
      requires Parts(blockStore.blocks, main, branch, f, r.block.headerHash) && (onPeak ==> f == Height(main))
      requires blockStore.version2 ==> FlaggedRows(blockStore.blocks, blockStore.flagged, main)
      modifies coinStore, blockStore`flagged, blockStore`peak
      ensures blockStore.peak == Some(r.block.headerHash)
      ensures Moved(c, main, branch, f, blockStore.blocks, coinStore.records, blockStore.flagged, blockStore.version2,
          records, change)
    {
      var toAdd, rolledBack := MoveCoins(s, onPeak, f, npc, r.block.headerHash, main, branch);
      var rewards;
      records, rewards := InOrder(toAdd, branch, f);
      MoveFlags(records, f, r.block.headerHash, main, branch);
      change := Some(StateChange(if f < 0 then 0 else f, rolledBack, rewards));
    }

    /** Decides whether a fresh block is the new peak, and moves the main chain if it is. */
    method ReconsiderPeak(r: BlockRecord, forkPoint: Option<nat>, npc: Option<NpcResult>)
      returns (records: seq<BlockRecord>, change: Option<StateChange>, ghost fork: int)
      requires Matched() && Arrives(c, W(), r, npc) && blockStore.blocks == blockRecords[r.block.headerHash := r]
      requires forkPoint.Some? ==> Agree(Main(W()), ParentPath(blockRecords, r.block), forkPoint.value)
      modifies coinStore, blockStore`flagged, blockStore`peak
      ensures !Outweighs(old(W()), r) ==> records == [] && change.None? && unchanged(coinStore) && unchanged(blockStore)
      ensures Outweighs(old(W()), r) ==>
        && blockStore.peak == Some(r.block.headerHash)
        && Moved(c, old(Main(W())), old(Branch(W(), r)), fork, blockStore.blocks, coinStore.records, blockStore.flagged,
                 blockStore.version2, records, change)
        && (old(W()).peak == Some(r.block.prevHash) ==> fork == Height(old(Main(W()))))
    {
      var peak := GetPeak();
      records, change, fork := [], None, -1;
      BranchOf(c, W(), r, npc);
      ReadyToValidate(c, W(), View(peak), coinStore.records);
      if r.block.height == 0 {
        if peak.None? { records, change := AdoptGenesis(r, npc); }
        else { GenesisIsLight(c, W(), r); }
      } else if peak.Some? && r.block.weight > peak.value.block.weight {
        GoodPaths(c, W(), blockStore.peak.value);
        var f := ForkOf(r, peak.value, forkPoint, npc);
        fork := f;
        records, change := Reorganise(View(peak), r, r.block.prevHash == peak.value.block.headerHash, f, npc,
          Main(W()), Branch(W(), r));
      }
    }

    /** What happens in the database: the row of the block, and with a new peak coins and flags. */
    method WriteBlock(r: BlockRecord, forkPoint: Option<nat>, npc: Option<NpcResult>)
      returns (records: seq<BlockRecord>, change: Option<StateChange>, ghost fork: int)
      requires Valid() && Arrives(c, W(), r, npc)
      requires forkPoint.Some? ==> Agree(Main(W()), ParentPath(blockRecords, r.block), forkPoint.value)
      modifies coinStore, blockStore
      ensures blockStore.blocks == blockRecords[r.block.headerHash := r]
      ensures !Outweighs(old(W()), r) ==>
        change.None? && unchanged(coinStore) && blockStore.flagged == old(blockStore.flagged)
          && blockStore.peak == old(blockStore.peak)
      ensures Outweighs(old(W()), r) ==>
        && blockStore.peak == Some(r.block.headerHash)
        && Moved(c, old(Main(W())), old(Branch(W(), r)), fork, blockStore.blocks, coinStore.records, blockStore.flagged,
                 blockStore.version2, records, change)
        && (old(W()).peak == Some(r.block.prevHash) ==> fork == Height(old(Main(W()))))
    {
      blockStore.AddFullBlock(r);
      records, change, fork := ReconsiderPeak(r, forkPoint, npc);
    }

    /** Brings the height map to the branch: cut at the fork, then one update per added record. */
    method UpdateHeights(records: seq<BlockRecord>, forkHeight: nat, ghost main: Chain, ghost branch: Chain,
                         ghost fork: int)
      requires heightMap.hashes == PathHashes(main) && heightMap.summaries == PathSummaries(main)
      requires Numbered(main) && Numbered(branch) && Agree(main, branch, fork) && records == Segment(branch, fork)
      requires fork < Height(branch) && 0 !in PathSummaries(main) && forkHeight == if fork < 0 then 0 else fork
      modifies heightMap
      ensures heightMap.hashes == PathHashes(branch) && heightMap.summaries == PathSummaries(branch)
    {
      CutHeights(main, branch, fork);
      heightMap.Rollback(forkHeight);
      SegmentByHeight(branch, fork);
      ghost var below := fork;
      for i := 0 to |records|
        invariant below == fork + i && heightMap.summaries == PathSummaries(UpTo(branch, below))
        invariant if below >= 0 then heightMap.hashes == PathHashes(UpTo(branch, below)) else |heightMap.hashes| <= 1
      {
        ghost var h := below + 1;
        HeightStep(branch, below, h);
        assert records[i] == At(branch, h);
        heightMap.UpdateHeight(records[i].block.height, records[i].block.headerHash, SummaryOf(records[i]));
        below := h;
      }
    }

    /** Stores a valid block; the coin table, the flags and the height map move only with a new peak. */
    method StoreBlock(r: BlockRecord, forkPoint: Option<nat>, npc: Option<NpcResult>)
      returns (change: Option<StateChange>, ghost fork: int)
      requires Valid() && Arrives(c, W(), r, npc)
      requires forkPoint.Some? ==> Agree(Main(W()), ParentPath(blockRecords, r.block), forkPoint.value)
      modifies this, coinStore, blockStore, heightMap
      ensures W() == Accept(old(W()), r) && blockStore.blocks == blockRecords
      ensures change.Some? <==> Outweighs(old(W()), r)
      ensures change.None? ==>
        unchanged(coinStore) && unchanged(heightMap) && unchanged(`peakHeight)
          && blockStore.flagged == old(blockStore.flagged)
      ensures change.Some? ==>
        var branch := old(Branch(W(), r));
        && coinStore.records == Replay(c, branch) && heightMap.hashes == PathHashes(branch)
        && heightMap.summaries == PathSummaries(branch)
        && (blockStore.version2 ==> FlaggedRows(blockRecords, blockStore.flagged, branch))
        && peakHeight == Some(r.block.height)
        && Reports(c, old(Main(W())), branch, fork, change.value)
      ensures change.Some? && old(W()).peak == Some(r.block.prevHash) ==> fork == Height(old(Main(W())))
    {
      ghost var w := W();
      MapReady(c, w, r, npc);
      var records;
      records, change, fork := WriteBlock(r, forkPoint, npc);
      blockRecords := blockRecords[r.block.headerHash := r];
      if change.Some? {
        UpdateHeights(records, change.value.forkHeight, Main(w), Branch(w, r), fork);
        peakHeight := Some(r.block.height);
      }
    }

    /** Adds a valid block; afterwards all stores describe the same main chain again. */
    method AddBlock(r: BlockRecord, forkPoint: Option<nat>, npc: Option<NpcResult>)
      returns (change: Option<StateChange>, ghost fork: int)
      requires Valid() && Arrives(c, W(), r, npc)
      requires forkPoint.Some? ==> Agree(Main(W()), ParentPath(blockRecords, r.block), forkPoint.value)
      modifies this, coinStore, blockStore, heightMap
      ensures Valid() && W() == Accept(old(W()), r)
      ensures change.Some? <==> Outweighs(old(W()), r)
      ensures change.Some? ==> Reports(c, old(Main(W())), Main(W()), fork, change.value)
      ensures change.Some? && old(W()).peak == Some(r.block.prevHash) ==> fork == Height(old(Main(W())))
    {
      ghost var w := W();
      AcceptKeeps(c, w, r);
      change, fork := StoreBlock(r, forkPoint, npc);
      if change.None? {
        AfterOrphan(c, w, r, coinStore.records, heightMap.hashes, heightMap.summaries, blockStore.flagged,
          blockStore.version2, peakHeight);
      } else {
        AfterMove(c, w, r, coinStore.records, heightMap.hashes, heightMap.summaries, blockStore.flagged,
          blockStore.version2);
      }
    }

    /** Validates the body of a block with a valid header and adds the block. */
    method AddValidated(block: FullBlock, npc: Option<NpcResult>, forkPoint: Option<nat>)
      returns (error: Option<Error>, change: Option<StateChange>, ghost fork: int)
      requires Valid() && Connected(W(), block) && Vouched(c, W(), block, PreValidationResult(None, npc), forkPoint)
      modifies this, coinStore, blockStore, heightMap
      ensures Valid()
      ensures error.None? <==> BodyOk(c, ParentPath(old(blockRecords), block), block)
      ensures error.Some? ==> W() == old(W()) && change.None?
      ensures error.None? ==>
        exists r: BlockRecord :: r.block == block && Acceptable(c, old(W()), r) && W() == Accept(old(W()), r)
                    && (change.Some? <==> Outweighs(old(W()), r))
      ensures change.Some? ==> Reports(c, old(Main(W())), Main(W()), fork, change.value)
      ensures change.Some? && old(W()).peak == Some(block.prevHash) ==> fork == Height(old(Main(W())))
    {
      HeaderSettles(c, W(), block);
      var peak := GetPeak();
      ReadyToValidate(c, W(), View(peak), coinStore.records);
      error := ValidateBlockBody(c, View(peak), coinStore.records, Main(W()), block, npc, forkPoint);
      if error.Some? { return error, None, -1; }
      var r := BlockToBlockRecord(c, blockRecords, heightMap.hashes, Main(W()), block);
      assert Acceptable(c, W(), r);
      change, fork := AddBlock(r, forkPoint, npc);
    }

    /** Receives a block: refuses it and changes nothing, or adds it to the tree, and makes it the
        peak exactly when it outweighs the peak so far. */
    method ReceiveBlock(block: FullBlock, pre: PreValidationResult, forkPoint: Option<nat>)
      returns (result: ReceiveResult, error: Option<Error>, change: Option<StateChange>, ghost fork: int)
      requires Valid() && Vouched(c, W(), block, pre, forkPoint)
      modifies this, coinStore, blockStore, heightMap
      ensures Valid()
      ensures result.AlreadyHaveBlock? <==> block.headerHash in old(blockRecords)
      ensures result.DisconnectedBlock? <==>
                block.headerHash !in old(blockRecords) && block.height > 0 && block.prevHash !in old(blockRecords)
      ensures result.NewPeak? || result.AddedAsOrphan? <==> MustAccept(c, old(W()), block, pre)
      ensures !(result.NewPeak? || result.AddedAsOrphan?) ==> W() == old(W())
      ensures result.NewPeak? || result.AddedAsOrphan? ==>
        exists r: BlockRecord :: r.block == block && Acceptable(c, old(W()), r) && W() == Accept(old(W()), r)
                    && (result.NewPeak? <==> Outweighs(old(W()), r))
      ensures change.Some? <==> result.NewPeak?
      ensures change.Some? ==> Reports(c, old(Main(W())), Main(W()), fork, change.value)
      ensures change.Some? && old(W()).peak == Some(block.prevHash) ==> fork == Height(old(Main(W())))
    {
      error, change, fork := None, None, -1;
      if block.headerHash in blockRecords { return AlreadyHaveBlock, None, None, -1; }
      if block.height > 0 && block.prevHash !in blockRecords {
        return DisconnectedBlock, Some(InvalidPrevBlockHash), None, -1;
      }
      if block.height > 0 && blockRecords[block.prevHash].block.height + 1 != block.height {
        return InvalidBlock, Some(InvalidHeight), None, -1;
      }
      if pre.error.Some? { return InvalidBlock, pre.error, None, -1; }
      error, change, fork := AddValidated(block, pre.npc, forkPoint);
      result := if error.Some? then InvalidBlock else if change.Some? then NewPeak else AddedAsOrphan;
    }

    /** Runs the block's generator with what it refers to. */
    method RunGenerator(block: FullBlock, additional: map<Hash, FullBlock>, peak: Option<BlockRecord>,
                        ghost main: Chain, ghost ch: Chain)
      returns (npc: Result<Option<NpcResult>>)
      requires NodeOk(c, View(peak), coinStore.records, main) && Numbered(ch) && block.height == Height(ch) + 1
      requires Generators.SameBlocks(blockRecords, additional)
               && Generators.Ancestry(blockRecords, additional, block.prevHash, ch)
      requires c.genesisChallenge !in additional
      ensures npc.Ok? ==> Honest(c, ch, block, npc.value)
      ensures PastRefs(block) ==> (npc.Ok? && npc.value != Some(NpcError) <==> Runs(c, ch, block))
    {
      var gen := Generators.GetBlockGenerator(View(peak), main, block, additional, ch);
      if gen.Err? { return Err(gen.error); }
      npc := if gen.value.None? then Ok(None) else Ok(Some(c.run(gen.value.value.program, gen.value.value.refs)));
    }
  }
}
