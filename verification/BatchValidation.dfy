/**
  Pre-validation of a batch of contiguous blocks, as a node does it before it receives them: windows and
  parameters are prepared in the main process, and each header is validated with one of the windows alone.
 */
module BatchValidation {
  import opened Types
  import opened Chains
  import opened BlockTree
  import opened PotIterations
  import opened HeaderRules
  import opened HeaderValidation
  import opened CoinSet
  import opened ForkChoice
  import opened BodyValidation
  import opened FullNode
  import opened PreValidation
  import Generators
  import VdfInfo

  /** Each block is the parent of the next. */
  predicate Contiguous(batch: seq<FullBlock>) {
    forall i | 0 < i < |batch| ::
        batch[i].prevHash == batch[i - 1].headerHash && batch[i].height == batch[i - 1].height + 1
  }

  /** A chain with one more block, whose header is valid. */
  ghost function Extended(c: Consensus, ch: Chain, block: FullBlock): Chain
    requires ValidConstants(c) && HeaderValid(c, ch, block)
  {
    Snoc(ch, RecordOf(c, Top(ch), block, NextParams(c, ch, block.finishedSubSlots != []).value.subSlotIters))
  }

  /** Honest pre-validation of contiguous blocks on top of a chain, each as if those before it were accepted. */
  ghost predicate Prevalidated(c: Consensus, ch: Chain, batch: seq<FullBlock>, pres: seq<PreValidationResult>)
    requires ValidConstants(c) && |pres| == |batch|
    decreases |batch|
  {
    batch != [] && pres[0].error.None? ==>
      && HeaderValid(c, ch, batch[0]) && Honest(c, ch, batch[0], pres[0].npc)
      && Prevalidated(c, Extended(c, ch, batch[0]), batch[1..], pres[1..])
  }

  /** All headers and bodies are valid, each on top of the blocks before it. */
  ghost predicate AllValid(c: Consensus, ch: Chain, batch: seq<FullBlock>)
    requires ValidConstants(c)
    decreases |batch|
  {
    batch != [] ==>
      HeaderValid(c, ch, batch[0]) && BodyOk(c, ch, batch[0]) && AllValid(c, Extended(c, ch, batch[0]), batch[1..])
  }

  /** The header is valid, and the generator runs. */
  ghost predicate Fit(c: Consensus, ch: Chain, block: FullBlock)
    requires ValidConstants(c)
  {
    HeaderValid(c, ch, block) && Runs(c, ch, block)
  }

  /** The same for all blocks, each on top of those before it. */
  ghost predicate AllFit(c: Consensus, ch: Chain, batch: seq<FullBlock>)
    requires ValidConstants(c)
    decreases |batch|
  {
    batch != [] ==> Fit(c, ch, batch[0]) && AllFit(c, Extended(c, ch, batch[0]), batch[1..])
  }

  lemma {:induction false} AllFitStep(c: Consensus, ch: Chain, batch: seq<FullBlock>, i: nat)
    requires ValidConstants(c) && i < |batch|
    ensures AllFit(c, ch, batch[i..]) <==>
              Fit(c, ch, batch[i]) && AllFit(c, Extended(c, ch, batch[i]), batch[i + 1..])
  {
    assert batch[i..][0] == batch[i] && batch[i..][1..] == batch[i + 1..];
  }

  lemma {:induction false} ValidIsFit(c: Consensus, ch: Chain, batch: seq<FullBlock>)
    requires ValidConstants(c) && AllValid(c, ch, batch)
    ensures AllFit(c, ch, batch)
    decreases |batch|
  {
    if batch != [] {
      ValidBodyRuns(c, ch, batch[0]);
      ValidIsFit(c, Extended(c, ch, batch[0]), batch[1..]);
    }
  }

  lemma {:induction false} AllValidStep(c: Consensus, ch: Chain, batch: seq<FullBlock>, i: nat)
    requires ValidConstants(c) && i < |batch|
    ensures AllValid(c, ch, batch[i..]) <==>
              && HeaderValid(c, ch, batch[i]) && BodyOk(c, ch, batch[i])
              && AllValid(c, Extended(c, ch, batch[i]), batch[i + 1..])
  {
    assert batch[i..][0] == batch[i] && batch[i..][1..] == batch[i + 1..];
  }

  lemma {:induction false} PrevalidatedStep(c: Consensus, ch: Chain, batch: seq<FullBlock>,
                                            pres: seq<PreValidationResult>, i: nat)
    requires ValidConstants(c) && |pres| == |batch| && i < |batch|
    ensures Prevalidated(c, ch, batch[i..], pres[i..]) <==>
              (pres[i].error.None? ==>
                 && HeaderValid(c, ch, batch[i]) && Honest(c, ch, batch[i], pres[i].npc)
                 && Prevalidated(c, Extended(c, ch, batch[i]), batch[i + 1..], pres[i + 1..]))
  {
    assert batch[i..][0] == batch[i] && batch[i..][1..] == batch[i + 1..];
    assert pres[i..][0] == pres[i] && pres[i..][1..] == pres[i + 1..];
  }

  // ---------------------------------------------------------------- the chain of a batch

  /** New blocks that hang together, the first of which stands on its parent. */
  ghost predicate NewBatch(c: Consensus, blocks: Blocks, batch: seq<FullBlock>) {
    batch != [] && Chained(c, blocks, batch) && Attached(blocks, batch) && forall i | 0 <= i < |batch| ::
      batch[i].headerHash !in blocks
  }

  /** The ancestors of the next block are those of this one and this block's record. */
  lemma {:induction false} NextAncestors(c: Consensus, blocks: Blocks, batch: seq<FullBlock>, n: nat, tree: Blocks,
                                         j: nat)
    requires NewBatch(c, blocks, batch) && n <= |batch| && TreeWith(c, blocks, batch, n, tree) && j < n
             && j + 1 < |batch|
    ensures batch[j].headerHash in tree
            && Parents(tree, batch[j + 1]) == Snoc(Parents(tree, batch[j]), tree[batch[j].headerHash])
  {
    assert IsChild(batch[j], batch[j + 1]);
    assert Linked(tree, batch[j].headerHash);
  }

  /** After a valid header the tree continues with the record that the header rules ask for. */
  lemma {:induction false} ValidNext(c: Consensus, blocks: Blocks, batch: seq<FullBlock>, n: nat, tree: Blocks,
                                     recent: Blocks, compressed: Blocks, params: Params, j: nat)
    requires ValidConstants(c) && NewBatch(c, blocks, batch) && n <= |batch| && TreeWith(c, blocks, batch, n, tree)
             && j < n && j + 1 < |batch|
    requires Prepared(c, blocks, tree, recent, compressed, batch[j], params)
    requires ValidChain(c, Parents(tree, batch[j])) && HeaderValid(c, Parents(tree, batch[j]), batch[j])
    ensures Parents(tree, batch[j + 1]) == Extended(c, Parents(tree, batch[j]), batch[j])
            && ValidChain(c, Parents(tree, batch[j + 1]))
  {
    NextAncestors(c, blocks, batch, n, tree, j);
  }

  /** What is known about the blocks of a batch after the per-block loop. */
  ghost predicate Looped(c: Consensus, blocks: Blocks, batch: seq<FullBlock>, tree: Blocks, recent: Blocks,
                         compressed: Blocks, done: seq<Params>, proofOk: (FullBlock, Hash) -> bool,
                         summaryOk: FullBlock -> bool)
    requires ValidConstants(c)
  {
    && NewBatch(c, blocks, batch) && |done| <= |batch| && TreeWith(c, blocks, batch, |done|, tree)
    && ValidChain(c, Parents(tree, batch[0]))
    && AllSettled(c, blocks, tree, recent, compressed, batch, done, proofOk, summaryOk)
  }

  /** The proofs of space and the summaries of a batch are in order. */
  predicate Proven(batch: seq<FullBlock>, proofOk: (FullBlock, Hash) -> bool, summaryOk: FullBlock -> bool) {
    forall i | 0 <= i < |batch| :: proofOk(batch[i], batch[i].posChallenge) && summaryOk(batch[i])
  }

  /** A batch that is fit stays fit from any of its blocks on. */
  lemma {:induction false} FitFrom(c: Consensus, blocks: Blocks, batch: seq<FullBlock>, tree: Blocks, recent: Blocks,
                                     compressed: Blocks, done: seq<Params>, proofOk: (FullBlock, Hash) -> bool,
                                     summaryOk: FullBlock -> bool, j: nat)
    requires ValidConstants(c) && Looped(c, blocks, batch, tree, recent, compressed, done, proofOk, summaryOk)
    requires AllFit(c, Parents(tree, batch[0]), batch) && j <= |done| && j < |batch|
    ensures ValidChain(c, Parents(tree, batch[j])) && AllFit(c, Parents(tree, batch[j]), batch[j..])
  {
    if j == 0 {
      assert batch[0..] == batch;
    } else {
      FitFrom(c, blocks, batch, tree, recent, compressed, done, proofOk, summaryOk, j - 1);
      AllFitStep(c, Parents(tree, batch[j - 1]), batch, j - 1);
      assert Settled(c, blocks, tree, recent, compressed, batch[j - 1], done[j - 1], proofOk, summaryOk);
      ValidNext(c, blocks, batch, |done|, tree, recent, compressed, done[j - 1], j - 1);
    }
  }

  /** The challenge that the loop finds for a block with a valid header is the one it answers. */
  lemma {:induction false} AnsweredChallenge(c: Consensus, blocks: Blocks, batch: seq<FullBlock>, n: nat, tree: Blocks,
                                             j: nat)
    requires ValidConstants(c) && NewBatch(c, blocks, batch) && n <= |batch| && TreeWith(c, blocks, batch, n, tree)
             && j <= n && j < |batch|
    requires HeaderValid(c, Parents(tree, batch[j]), batch[j])
    ensures ChallengeIn(c, tree, batch[j]) == Ok(batch[j].posChallenge) && batch[j].signagePointIndex < c.numSpsSubSlot
  {
    var ch := Parents(tree, batch[j]);
    var r := RecordOf(c, Top(ch), batch[j], NextParams(c, ch, batch[j].finishedSubSlots != []).value.subSlotIters);
    assert ParamsOk(c, ch, r);
    HeightOrigin(c, ch, batch[j]);
  }

  /** No block of a batch that is fit and proven is refused. */
  lemma {:induction false} FitNotRefused(c: Consensus, blocks: Blocks, batch: seq<FullBlock>, tree: Blocks,
                                           recent: Blocks, compressed: Blocks, done: seq<Params>,
                                           proofOk: (FullBlock, Hash) -> bool, summaryOk: FullBlock -> bool,
                                           error: Error)
    requires ValidConstants(c) && Looped(c, blocks, batch, tree, recent, compressed, done, proofOk, summaryOk)
             && |done| < |batch|
    requires AllFit(c, Parents(tree, batch[0]), batch) && Proven(batch, proofOk, summaryOk)
    ensures !Refused(c, tree, batch[|done|], error, proofOk, summaryOk)
  {
    FitFrom(c, blocks, batch, tree, recent, compressed, done, proofOk, summaryOk, |done|);
    AllFitStep(c, Parents(tree, batch[|done|]), batch, |done|);
    AnsweredChallenge(c, blocks, batch, |done|, tree, |done|);
  }

  /** What the validation of one block says, if its ancestors are valid. */
  ghost predicate Vetted(c: Consensus, tree: Blocks, block: FullBlock, pre: PreValidationResult)
    requires ValidConstants(c) && Closed(tree)
  {
    var ch := Parents(tree, block);
    ValidChain(c, ch) ==>
      && (pre.error.None? ==> HeaderValid(c, ch, block) && Honest(c, ch, block, pre.npc))
      && (Fit(c, ch, block) ==> pre.error.None?) && (pre.error.None? && PastRefs(block) ==> Fit(c, ch, block))
  }

  ghost predicate AllVetted(c: Consensus, tree: Blocks, batch: seq<FullBlock>, pres: seq<PreValidationResult>)
    requires ValidConstants(c) && Closed(tree) && |pres| <= |batch|
  {
    forall i {:trigger Vetted(c, tree, batch[i], pres[i])} | 0 <= i < |pres| :: Vetted(c, tree, batch[i], pres[i])
  }

  lemma {:induction false} PrevalidatedFrom(c: Consensus, blocks: Blocks, batch: seq<FullBlock>, tree: Blocks,
                                            recent: Blocks, compressed: Blocks, done: seq<Params>,
                                            proofOk: (FullBlock, Hash) -> bool, summaryOk: FullBlock -> bool,
                                            pres: seq<PreValidationResult>, j: nat)
    requires ValidConstants(c) && Looped(c, blocks, batch, tree, recent, compressed, done, proofOk, summaryOk)
    requires |done| == |batch| == |pres| && AllVetted(c, tree, batch, pres) && j < |batch|
             && ValidChain(c, Parents(tree, batch[j]))
    ensures Prevalidated(c, Parents(tree, batch[j]), batch[j..], pres[j..])
    decreases |batch| - j
  {
    var ch := Parents(tree, batch[j]);
    assert Vetted(c, tree, batch[j], pres[j]);
    assert Settled(c, blocks, tree, recent, compressed, batch[j], done[j], proofOk, summaryOk);
    if pres[j].error.None? {
      if j + 1 < |batch| {
        ValidNext(c, blocks, batch, |done|, tree, recent, compressed, done[j], j);
        PrevalidatedFrom(c, blocks, batch, tree, recent, compressed, done, proofOk, summaryOk, pres, j + 1);
      } else {
        assert batch[j + 1..] == [] && pres[j + 1..] == [];
      }
    }
    PrevalidatedStep(c, ch, batch, pres, j);
  }

  /** No block of a batch that is fit gets an error. */
  lemma {:induction false} FitIsClean(c: Consensus, blocks: Blocks, batch: seq<FullBlock>, tree: Blocks,
                                        recent: Blocks, compressed: Blocks, done: seq<Params>,
                                        proofOk: (FullBlock, Hash) -> bool, summaryOk: FullBlock -> bool,
                                        pres: seq<PreValidationResult>)
    requires ValidConstants(c) && Looped(c, blocks, batch, tree, recent, compressed, done, proofOk, summaryOk)
    requires |done| == |batch| == |pres| && AllVetted(c, tree, batch, pres)
             && AllFit(c, Parents(tree, batch[0]), batch)
    ensures forall j | 0 <= j < |batch| :: pres[j].error.None?
  {
    forall j | 0 <= j < |batch| ensures pres[j].error.None? {
      FitFrom(c, blocks, batch, tree, recent, compressed, done, proofOk, summaryOk, j);
      AllFitStep(c, Parents(tree, batch[j]), batch, j);
      assert Vetted(c, tree, batch[j], pres[j]);
    }
  }

  /** In a batch without errors all proofs and summaries are in order. */
  lemma {:induction false} CleanFrom(c: Consensus, blocks: Blocks, batch: seq<FullBlock>, tree: Blocks, recent: Blocks,
                                     compressed: Blocks, done: seq<Params>, proofOk: (FullBlock, Hash) -> bool,
                                     summaryOk: FullBlock -> bool, pres: seq<PreValidationResult>, j: nat)
    requires ValidConstants(c) && Looped(c, blocks, batch, tree, recent, compressed, done, proofOk, summaryOk)
    requires |done| == |batch| == |pres| && AllVetted(c, tree, batch, pres) && j < |batch|
    requires forall i | 0 <= i < |batch| :: pres[i].error.None?
    ensures ValidChain(c, Parents(tree, batch[j])) && proofOk(batch[j], batch[j].posChallenge) && summaryOk(batch[j])
  {
    if j > 0 {
      CleanFrom(c, blocks, batch, tree, recent, compressed, done, proofOk, summaryOk, pres, j - 1);
      assert Vetted(c, tree, batch[j - 1], pres[j - 1]);
      assert Settled(c, blocks, tree, recent, compressed, batch[j - 1], done[j - 1], proofOk, summaryOk);
      ValidNext(c, blocks, batch, |done|, tree, recent, compressed, done[j - 1], j - 1);
    }
    assert Vetted(c, tree, batch[j], pres[j]);
    assert Settled(c, blocks, tree, recent, compressed, batch[j], done[j], proofOk, summaryOk);
    AnsweredChallenge(c, blocks, batch, |done|, tree, j);
  }

  /** A batch without errors is fit, unless it refers to what is not below. */
  lemma {:induction false} CleanIsFit(c: Consensus, blocks: Blocks, batch: seq<FullBlock>, tree: Blocks, recent: Blocks,
                                      compressed: Blocks, done: seq<Params>, proofOk: (FullBlock, Hash) -> bool,
                                      summaryOk: FullBlock -> bool, pres: seq<PreValidationResult>, j: nat)
    requires ValidConstants(c) && Looped(c, blocks, batch, tree, recent, compressed, done, proofOk, summaryOk)
    requires |done| == |batch| == |pres| && AllVetted(c, tree, batch, pres) && j < |batch|
    requires forall i | 0 <= i < |batch| :: pres[i].error.None? && PastRefs(batch[i])
    ensures AllFit(c, Parents(tree, batch[j]), batch[j..])
    decreases |batch| - j
  {
    CleanFrom(c, blocks, batch, tree, recent, compressed, done, proofOk, summaryOk, pres, j);
    assert Vetted(c, tree, batch[j], pres[j]);
    assert Settled(c, blocks, tree, recent, compressed, batch[j], done[j], proofOk, summaryOk);
    if j + 1 < |batch| {
      ValidNext(c, blocks, batch, |done|, tree, recent, compressed, done[j], j);
      CleanIsFit(c, blocks, batch, tree, recent, compressed, done, proofOk, summaryOk, pres, j + 1);
    } else {
      assert batch[j + 1..] == [];
    }
    AllFitStep(c, Parents(tree, batch[j]), batch, j);
  }

  // ---------------------------------------------------------------- what a generator may refer to

  /** The blocks of a batch from the k-th up to, not including, the j-th, by hash. */
  ghost predicate Listed(dict: map<Hash, FullBlock>, batch: seq<FullBlock>, k: int, j: int) {
    && 0 <= k <= j <= |batch|
    && (forall i | k <= i < j :: batch[i].headerHash in dict && dict[batch[i].headerHash] == batch[i])
    && forall h | h in dict :: h == dict[h].headerHash && h in Hashes(batch, j)
  }

  method ListBlocks(batch: seq<FullBlock>) returns (dict: map<Hash, FullBlock>)
    requires forall i, j | 0 <= i < j < |batch| :: batch[i].headerHash != batch[j].headerHash
    ensures Listed(dict, batch, 0, |batch|)
  {
    dict := map[];
    for i := 0 to |batch|
      invariant Listed(dict, batch, 0, i)
    {
      dict := dict[batch[i].headerHash := batch[i]];
    }
  }

  /** A hash that is not in a new batch: the parent of its first block. */
  lemma {:induction false} OriginNotListed(c: Consensus, blocks: Blocks, batch: seq<FullBlock>, n: nat)
    requires NewBatch(c, blocks, batch) && n <= |batch|
    ensures batch[0].prevHash !in Hashes(batch, n) && c.genesisChallenge !in Hashes(batch, n)
  {
    if batch[0].prevHash in Hashes(batch, n) { var i := HashIndex(batch, n, batch[0].prevHash); }
    if c.genesisChallenge in Hashes(batch, n) { var i := HashIndex(batch, n, c.genesisChallenge); }
  }

  /** The ancestors of a block within the batch. */
  method PrevBlocks(c: Consensus, dict: map<Hash, FullBlock>, block: FullBlock, ghost blocks: Blocks,
                    ghost batch: seq<FullBlock>, ghost j: nat)
    returns (prev: map<Hash, FullBlock>)
    requires NewBatch(c, blocks, batch) && Listed(dict, batch, 0, |batch|) && j < |batch| && block == batch[j]
    ensures Listed(prev, batch, 0, j)
  {
    prev := map[];
    var curr := block;
    ghost var k: int := j;
    OriginNotListed(c, blocks, batch, |batch|);
    while curr.prevHash in dict
      invariant Listed(prev, batch, k, j) && curr == batch[k]
      decreases k
    {
      if k == 0 { assert false; }
      assert IsChild(batch[k - 1], batch[k]);
      InHashes(batch, k - 1, j);
      curr := dict[curr.prevHash];
      prev := prev[curr.headerHash := curr];
      k := k - 1;
    }
    assert k > 0 ==> IsChild(batch[k - 1], batch[k]);
  }

  lemma {:induction false} InHashes(batch: seq<FullBlock>, i: nat, n: nat)
    requires i < n <= |batch|
    ensures batch[i].headerHash in Hashes(batch, n)
  {
    if i + 1 < n { InHashes(batch, i, n - 1); }
  }

  /** Tree and batch together give the ancestors of every block of the batch. */
  lemma {:induction false} BatchAncestry(c: Consensus, blocks: Blocks, batch: seq<FullBlock>, n: nat, tree: Blocks,
                                         prev: map<Hash, FullBlock>, j: nat, k: nat)
    requires Closed(blocks) && RootedAt(blocks, c.genesisChallenge) && NewBatch(c, blocks, batch)
             && k <= j < n <= |batch|
    requires TreeWith(c, blocks, batch, n, tree) && Listed(prev, batch, 0, j)
    ensures Generators.Ancestry(blocks, prev, batch[k].prevHash, Parents(tree, batch[k]))
  {
    if k == 0 {
      OriginNotListed(c, blocks, batch, j);
      ParentPresent(c, blocks, batch, 0, blocks);
      if batch[0].prevHash in blocks { PathMonotone(blocks, tree, batch[0].prevHash); }
    } else {
      BatchAncestry(c, blocks, batch, n, tree, prev, j, k - 1);
      assert IsChild(batch[k - 1], batch[k]);
      NextAncestors(c, blocks, batch, n, tree, k - 1);
    }
  }

  // ---------------------------------------------------------------- the workers

  /** The generator of a block of the batch, run with what it refers to. It fails only when a reference is bad. */
  method RunInBatch(node: Blockchain, peak: Option<BlockRecord>, dict: map<Hash, FullBlock>, block: FullBlock,
                    ghost batch: seq<FullBlock>, ghost tree: Blocks, ghost j: nat)
    returns (npc: Result<Option<NpcResult>>)
    requires node.Valid() && peak == Top(Main(node.W())) && NewBatch(node.c, node.blockRecords, batch) && j < |batch|
             && block == batch[j]
    requires TreeWith(node.c, node.blockRecords, batch, |batch|, tree) && Listed(dict, batch, 0, |batch|)
    ensures npc.Ok? ==> Honest(node.c, Parents(tree, block), block, npc.value)
    ensures PastRefs(block) ==>
        (npc.Ok? && npc.value != Some(NpcError) <==> Runs(node.c, Parents(tree, block), block))
  {
    ghost var ch := Parents(tree, block);
    var prev := PrevBlocks(node.c, dict, block, node.blockRecords, batch, j);
    BatchAncestry(node.c, node.blockRecords, batch, |batch|, tree, prev, j, j);
    OriginNotListed(node.c, node.blockRecords, batch, j);
    ParentsNumbered(node.c, node.blockRecords, batch, tree, j);
    PrevIsNew(node.blockRecords, batch, prev, j);
    ReadyToValidate(node.c, node.W(), node.View(peak), node.coinStore.records);
    npc := node.RunGenerator(block, prev, peak, Main(node.W()), ch);
  }

  lemma {:induction false} PrevIsNew(blocks: Blocks, batch: seq<FullBlock>, prev: map<Hash, FullBlock>, j: nat)
    requires j <= |batch| && Listed(prev, batch, 0, j) && forall i | 0 <= i < |batch| :: batch[i].headerHash !in blocks
    ensures Generators.SameBlocks(blocks, prev)
  {
    forall h | h in prev ensures h !in blocks { var i := HashIndex(batch, j, h); }
  }

  lemma {:induction false} ParentsNumbered(c: Consensus, blocks: Blocks, batch: seq<FullBlock>, tree: Blocks, j: nat)
    requires NewBatch(c, blocks, batch) && TreeWith(c, blocks, batch, |batch|, tree) && j < |batch|
    ensures Numbered(Parents(tree, batch[j])) && batch[j].height == Height(Parents(tree, batch[j])) + 1
  {
    if j == 0 {
      if batch[0].prevHash in tree { assert Linked(tree, batch[0].prevHash); }
      OriginNotListed(c, blocks, batch, |batch|);
    } else {
      assert IsChild(batch[j - 1], batch[j]);
      assert tree[batch[j - 1].headerHash].block == batch[j - 1];
    }
  }

  /** Validates one block: the header with one window, and the result of its generator. For a valid header the start of
      the VDF to its signage point is always found; the proofs of the VDF are not looked at. */
  method ValidateOne(c: Consensus, window: Blocks, block: FullBlock, params: Params, npc: Result<Option<NpcResult>>,
                     ghost ch: Chain)
    returns (pre: PreValidationResult)
    requires ValidConstants(c)
    requires ValidChain(c, ch) ==>
        Suffices(c, window, ch, block) && NextParams(c, ch, block.finishedSubSlots != []) == Some(params)
    requires npc.Ok? ==> Honest(c, ch, block, npc.value)
    requires PastRefs(block) ==> (npc.Ok? && npc.value != Some(NpcError) <==> Runs(c, ch, block))
    ensures ValidChain(c, ch) ==>
      && (pre.error.None? ==> HeaderValid(c, ch, block) && Honest(c, ch, block, pre.npc))
      && (Fit(c, ch, block) ==> pre.error.None?) && (pre.error.None? && PastRefs(block) ==> Fit(c, ch, block))
  {
    pre := ResultOf(npc);
    if pre.error.None? {
      var header := ValidateHeader(c, window, block, params, ch);
      if header.Err? { return PreValidationResult(Some(header.error), None); }
      var prev := if block.prevHash in window then Some(window[block.prevHash]) else None;
      var rec := RecordOf(c, prev, block, params.subSlotIters);
      var vdf := VdfInfo.GetSignagePointVdfInfo(c, block.finishedSubSlots, IsOverflowBlock(c, block.signagePointIndex),
          prev, window,
                                                SpTotalIters(c, rec), Sp(c, rec), rec, ch);
      if vdf.Err? { return PreValidationResult(Some(vdf.error), None); }
    }
  }

  /** Whether a part of a batch ends a sub-slot. */
  predicate EndsSlot(part: seq<FullBlock>) {
    exists i | 0 <= i < |part| :: part[i].finishedSubSlots != []
  }

  /** What the workers start from. */
  ghost predicate ReadyForWorkers(node: Blockchain, batch: seq<FullBlock>, tree: Blocks, recent: Blocks,
                                  compressed: Blocks, params: seq<Params>, proofOk: (FullBlock, Hash) -> bool,
                                  summaryOk: FullBlock -> bool)
    reads node, node.coinStore, node.blockStore, node.heightMap
  {
    && node.Valid() && |params| == |batch|
    && Looped(node.c, node.blockRecords, batch, tree, recent, compressed, params, proofOk, summaryOk)
  }

  /** Validates the j-th block of a batch. */
  method ValidateNth(node: Blockchain, batch: seq<FullBlock>, j: nat, params: Params, window: Blocks,
                     dict: map<Hash, FullBlock>, peak: Option<BlockRecord>, ghost tree: Blocks)
    returns (pre: Result<PreValidationResult>)
    requires node.Valid() && peak == Top(Main(node.W())) && NewBatch(node.c, node.blockRecords, batch) && j < |batch|
    requires TreeWith(node.c, node.blockRecords, batch, |batch|, tree) && Listed(dict, batch, 0, |batch|)
    requires var ch := Parents(tree, batch[j]);
             ValidChain(node.c, ch) ==>
               Suffices(node.c, window, ch, batch[j])
                 && NextParams(node.c, ch, batch[j].finishedSubSlots != []) == Some(params)
    ensures pre.Ok? ==> Vetted(node.c, tree, batch[j], pre.value)
    ensures pre.Err? ==> !Runs(node.c, Parents(tree, batch[j]), batch[j])
  {
    var npc := RunInBatch(node, peak, dict, batch[j], batch, tree, j);
    if npc.Err? { return Err(npc.error); }
    var result := ValidateOne(node.c, window, batch[j], params, npc, Parents(tree, batch[j]));
    pre := Ok(result);
  }

  /** Validates one part of a batch with one window: the small one unless the part ends a sub-slot. */
  method ValidatePart(node: Blockchain, batch: seq<FullBlock>, start: nat, end: nat, params: seq<Params>,
                      recent: Blocks, compressed: Blocks, dict: map<Hash, FullBlock>, peak: Option<BlockRecord>,
                      sofar: seq<PreValidationResult>, ghost tree: Blocks, ghost proofOk: (FullBlock, Hash) -> bool,
                      ghost summaryOk: FullBlock -> bool)
    returns (r: Result<seq<PreValidationResult>>, ghost bad: nat)
    requires ReadyForWorkers(node, batch, tree, recent, compressed, params, proofOk, summaryOk)
             && peak == Top(Main(node.W()))
    requires Listed(dict, batch, 0, |batch|) && start <= end <= |batch| && |sofar| == start
             && AllVetted(node.c, tree, batch, sofar)
    ensures r.Ok? ==> |r.value| == end && AllVetted(node.c, tree, batch, r.value)
    ensures r.Err? ==>
        r == Err(FailedGettingGenerator) && bad < |batch| && !Runs(node.c, Parents(tree, batch[bad]), batch[bad])
  {
    var window := if EndsSlot(batch[start..end]) then recent else compressed;
    var pres := sofar;
    bad := 0;
    for j := start to end
      invariant |pres| == j && AllVetted(node.c, tree, batch, pres)
    {
      PartSuffices(node.c, node.blockRecords, tree, recent, compressed, batch, params, proofOk, summaryOk, start, end,
        j);
      var pre := ValidateNth(node, batch, j, params[j], window, dict, peak, tree);
      if pre.Err? { return Err(FailedGettingGenerator), j; }
      OneMoreVetted(node.c, tree, batch, pres, pre.value);
      pres := pres + [pre.value];
    }
    r := Ok(pres);
  }

  /** The window of a part suffices for each of its blocks. */
  lemma {:induction false} PartSuffices(c: Consensus, blocks: Blocks, tree: Blocks, recent: Blocks, compressed: Blocks,
                                        batch: seq<FullBlock>, params: seq<Params>, proofOk: (FullBlock, Hash) -> bool,
                                        summaryOk: FullBlock -> bool, start: nat, end: nat, j: nat)
    requires ValidConstants(c) && Closed(tree) && start <= j < end <= |batch| == |params|
    requires AllSettled(c, blocks, tree, recent, compressed, batch, params, proofOk, summaryOk)
    ensures var window, ch := if EndsSlot(batch[start..end]) then recent else compressed, Parents(tree, batch[j]);
            ValidChain(c, ch) ==>
              Suffices(c, window, ch, batch[j]) && NextParams(c, ch, batch[j].finishedSubSlots != []) == Some(params[j])
  {
    assert batch[start..end][j - start] == batch[j];
    assert Settled(c, blocks, tree, recent, compressed, batch[j], params[j], proofOk, summaryOk);
  }

  lemma {:induction false} OneMoreVetted(c: Consensus, tree: Blocks, batch: seq<FullBlock>,
                                         pres: seq<PreValidationResult>, pre: PreValidationResult)
    requires ValidConstants(c) && Closed(tree) && |pres| < |batch| && AllVetted(c, tree, batch, pres)
             && Vetted(c, tree, batch[|pres|], pre)
    ensures AllVetted(c, tree, batch, pres + [pre])
  {
    var all := pres + [pre];
    forall i | 0 <= i < |all| ensures Vetted(c, tree, batch[i], all[i]) {
      if i < |pres| { assert Vetted(c, tree, batch[i], pres[i]); }
    }
  }

  /** Validates a batch part by part. */
  method RunWorkers(node: Blockchain, batch: seq<FullBlock>, params: seq<Params>, recent: Blocks, compressed: Blocks,
                    batchSize: nat, ghost tree: Blocks, ghost proofOk: (FullBlock, Hash) -> bool,
                    ghost summaryOk: FullBlock -> bool)
    returns (r: Result<seq<PreValidationResult>>, ghost bad: nat)
    requires ReadyForWorkers(node, batch, tree, recent, compressed, params, proofOk, summaryOk) && batchSize > 0
    ensures r.Ok? ==> |r.value| == |batch| && AllVetted(node.c, tree, batch, r.value)
    ensures r.Err? ==>
        r == Err(FailedGettingGenerator) && bad < |batch| && !Runs(node.c, Parents(tree, batch[bad]), batch[bad])
  {
    var dict := ListBlocks(batch);
    var peak := node.GetPeak();
    var pres: seq<PreValidationResult> := [];
    while |pres| < |batch|
      invariant |pres| <= |batch| && AllVetted(node.c, tree, batch, pres)
    {
      var end := if |pres| + batchSize < |batch| then |pres| + batchSize else |batch|;
      r, bad := ValidatePart(node, batch, |pres|, end, params, recent, compressed, dict, peak, pres, tree, proofOk,
        summaryOk);
      if r.Err? { return; }
      pres := r.value;
    }
    r, bad := Ok(pres), 0;
  }

  // ---------------------------------------------------------------- the whole of it

  /** Exits that leave temporary records in the tree. */
  predicate Hasty(r: Result<seq<PreValidationResult>>) {
    r == Err(InvalidSubEpochSummary) || r == Err(AssertionFailed)
  }

  /** What the results of pre-validation are worth: they are honest, and there is no error exactly when all headers are
      valid, all generators run, and all proofs of space and summaries are in order; only a batch with a reference that
      does not point below its block may be without an error and yet not fit. */
  ghost predicate Verdict(c: Consensus, ch: Chain, batch: seq<FullBlock>, r: Result<seq<PreValidationResult>>,
                          proofOk: (FullBlock, Hash) -> bool, summaryOk: FullBlock -> bool)
    requires ValidConstants(c)
  {
    && (r.Ok? ==> |r.value| == |batch| && Prevalidated(c, ch, batch, r.value))
    && (AllFit(c, ch, batch) && Proven(batch, proofOk, summaryOk) ==> Clean(r))
    && (Clean(r) ==> Proven(batch, proofOk, summaryOk) && (AllPast(batch) ==> AllFit(c, ch, batch)))
  }

  predicate AllPast(batch: seq<FullBlock>) {
    forall i | 0 <= i < |batch| :: PastRefs(batch[i])
  }

  predicate Clean(r: Result<seq<PreValidationResult>>) {
    r.Ok? && forall i | 0 <= i < |r.value| :: r.value[i].error.None?
  }

  lemma {:induction false} LoopVerdict(c: Consensus, blocks: Blocks, batch: seq<FullBlock>, tree: Blocks,
                                       recent: Blocks, compressed: Blocks, done: seq<Params>,
                                       proofOk: (FullBlock, Hash) -> bool, summaryOk: FullBlock -> bool, error: Error)
    requires ValidConstants(c) && Looped(c, blocks, batch, tree, recent, compressed, done, proofOk, summaryOk)
             && |done| < |batch|
    requires Refused(c, tree, batch[|done|], error, proofOk, summaryOk)
    ensures Verdict(c, Parents(tree, batch[0]), batch, Err(error), proofOk, summaryOk)
  {
    if AllFit(c, Parents(tree, batch[0]), batch) && Proven(batch, proofOk, summaryOk) {
      FitNotRefused(c, blocks, batch, tree, recent, compressed, done, proofOk, summaryOk, error);
    }
  }

  lemma {:induction false} WorkersVerdict(c: Consensus, blocks: Blocks, batch: seq<FullBlock>, tree: Blocks,
                                          recent: Blocks, compressed: Blocks, done: seq<Params>,
                                          proofOk: (FullBlock, Hash) -> bool, summaryOk: FullBlock -> bool,
                                          r: Result<seq<PreValidationResult>>, bad: nat)
    requires ValidConstants(c) && Looped(c, blocks, batch, tree, recent, compressed, done, proofOk, summaryOk)
             && |done| == |batch|
    requires r.Ok? ==> |r.value| == |batch| && AllVetted(c, tree, batch, r.value)
    requires r.Err? ==> bad < |batch| && !Runs(c, Parents(tree, batch[bad]), batch[bad])
    ensures Verdict(c, Parents(tree, batch[0]), batch, r, proofOk, summaryOk)
  {
    var ch := Parents(tree, batch[0]);
    if r.Ok? {
      PrevalidatedFrom(c, blocks, batch, tree, recent, compressed, done, proofOk, summaryOk, r.value, 0);
      assert batch[0..] == batch && r.value[0..] == r.value;
      if AllFit(c, ch, batch) {
        FitIsClean(c, blocks, batch, tree, recent, compressed, done, proofOk, summaryOk, r.value);
      }
      if Clean(r) {
        CleanIsProven(c, blocks, batch, tree, recent, compressed, done, proofOk, summaryOk, r.value);
        if AllPast(batch) {
          CleanIsFit(c, blocks, batch, tree, recent, compressed, done, proofOk, summaryOk, r.value, 0);
        }
      }
    } else if AllFit(c, ch, batch) {
      FitFrom(c, blocks, batch, tree, recent, compressed, done, proofOk, summaryOk, bad);
      AllFitStep(c, Parents(tree, batch[bad]), batch, bad);
    }
  }

  lemma {:induction false} CleanIsProven(c: Consensus, blocks: Blocks, batch: seq<FullBlock>, tree: Blocks,
                                         recent: Blocks, compressed: Blocks, done: seq<Params>,
                                         proofOk: (FullBlock, Hash) -> bool, summaryOk: FullBlock -> bool,
                                         pres: seq<PreValidationResult>)
    requires ValidConstants(c) && Looped(c, blocks, batch, tree, recent, compressed, done, proofOk, summaryOk)
    requires |done| == |batch| == |pres| && AllVetted(c, tree, batch, pres) && Clean(Ok(pres))
    ensures Proven(batch, proofOk, summaryOk)
  {
    forall j | 0 <= j < |batch| ensures proofOk(batch[j], batch[j].posChallenge) && summaryOk(batch[j]) {
      CleanFrom(c, blocks, batch, tree, recent, compressed, done, proofOk, summaryOk, pres, j);
    }
  }

  /** The ancestors of the first block are the same before and while the records of the batch are in the tree. */
  lemma {:induction false} FirstAncestors(c: Consensus, blocks: Blocks, batch: seq<FullBlock>, n: nat, tree: Blocks)
    requires Closed(blocks) && RootedAt(blocks, c.genesisChallenge) && NewBatch(c, blocks, batch) && n <= |batch|
    requires TreeWith(c, blocks, batch, n, tree)
    ensures Parents(tree, batch[0]) == ParentPath(blocks, batch[0]) == Parents(blocks, batch[0])
  {
    ParentPresent(c, blocks, batch, 0, blocks);
    OriginNotListed(c, blocks, batch, n);
    if batch[0].prevHash in blocks { PathMonotone(blocks, tree, batch[0].prevHash); }
  }

  /** Every exit but two restores the tree; those two leave the records of the blocks before the refused one. */
  ghost predicate Restored(c: Consensus, before: Blocks, after: Blocks, batch: seq<FullBlock>, stop: nat,
                           r: Result<seq<PreValidationResult>>, proofOk: (FullBlock, Hash) -> bool,
                           summaryOk: FullBlock -> bool)
    requires ValidConstants(c)
  {
    if Hasty(r) then
      && stop < |batch| && TreeWith(c, before, batch, stop, after)
      && Refused(c, after, batch[stop], r.error, proofOk, summaryOk)
      && (after == before <==> stop == 0)
    else after == before
  }

  /** What the per-block loop leaves: a refused block, or what the workers start from. */
  lemma {:induction false} AfterLoop(c: Consensus, blocks: Blocks, after: Blocks, batch: seq<FullBlock>, tree: Blocks,
                                     recent: Blocks, compressed: Blocks, done: seq<Params>, r: Result<seq<Params>>,
                                     proofOk: (FullBlock, Hash) -> bool, summaryOk: FullBlock -> bool)
    requires ValidConstants(c) && Closed(blocks) && RootedAt(blocks, c.genesisChallenge) && NewBatch(c, blocks, batch)
    requires ValidChain(c, Parents(blocks, batch[0])) && |done| <= |batch| && TreeWith(c, blocks, batch, |done|, tree)
    requires AllSettled(c, blocks, tree, recent, compressed, batch, done, proofOk, summaryOk)
    requires r.Err? ==> |done| < |batch| && Refused(c, tree, batch[|done|], r.error, proofOk, summaryOk)
    requires r.Ok? || r == Err(InvalidPospace) ==> after == blocks
    requires r == Err(InvalidSubEpochSummary) || r == Err(AssertionFailed) ==>
      after == tree && (after == blocks <==> forall i | 0 <= i < |done| :: batch[i].headerHash in blocks)
    ensures Looped(c, blocks, batch, tree, recent, compressed, done, proofOk, summaryOk)
    ensures Parents(tree, batch[0]) == ParentPath(blocks, batch[0])
    ensures r.Err? ==>
      && Restored(c, blocks, after, batch, |done|, Err(r.error), proofOk, summaryOk)
      && Verdict(c, ParentPath(blocks, batch[0]), batch, Err(r.error), proofOk, summaryOk)
  {
    FirstAncestors(c, blocks, batch, |done|, tree);
    if r.Err? { LoopVerdict(c, blocks, batch, tree, recent, compressed, done, proofOk, summaryOk, r.error); }
  }

  /** The part of pre-validation that runs in the main process, and what it makes of the tree. */
  method RunLoop(node: Blockchain, batch: seq<FullBlock>, proofOk: (FullBlock, Hash) -> bool,
                 summaryOk: FullBlock -> bool)
    returns (params: Result<seq<Params>>, after: Blocks, recent: Blocks, compressed: Blocks, ghost stop: nat,
        ghost tree: Blocks)
    requires node.Valid() && NewBatch(node.c, node.blockRecords, batch)
    ensures params.Ok? ==>
      && after == node.blockRecords && ReadyForWorkers(node, batch, tree, recent, compressed, params.value, proofOk,
        summaryOk)
      && Parents(tree, batch[0]) == ParentPath(node.blockRecords, batch[0])
    ensures params.Err? ==>
      && Restored(node.c, node.blockRecords, after, batch, stop, Err(params.error), proofOk, summaryOk)
      && Verdict(node.c, ParentPath(node.blockRecords, batch[0]), batch, Err(params.error), proofOk, summaryOk)
  {
    HeaderReady(node.c, node.W(), batch[0], node.heightMap.hashes);
    ghost var done;
    params, after, recent, compressed, done, tree :=
      PreValidateBlocks(node.c, node.blockRecords, ByHeight(node.heightMap.hashes), batch, proofOk, summaryOk);
    AfterLoop(node.c, node.blockRecords, after, batch, tree, recent, compressed, done, params, proofOk, summaryOk);
    stop := |done|;
  }

  /** Pre-validates a batch of new blocks. */
  method PreValidateBatch(node: Blockchain, batch: seq<FullBlock>, batchSize: nat, proofOk: (FullBlock, Hash) -> bool,
                          summaryOk: FullBlock -> bool)
    returns (r: Result<seq<PreValidationResult>>, ghost stop: nat)
    requires node.Valid() && NewBatch(node.c, node.blockRecords, batch) && batchSize > 0
    modifies node`blockRecords
    ensures Restored(node.c, old(node.blockRecords), node.blockRecords, batch, stop, r, proofOk, summaryOk)
    ensures !Hasty(r) ==> node.Valid() && node.W() == old(node.W())
    ensures Verdict(node.c, ParentPath(old(node.blockRecords), batch[0]), batch, r, proofOk, summaryOk)
  {
    var params, after, recent, compressed;
    ghost var tree, bad;
    params, after, recent, compressed, stop, tree := RunLoop(node, batch, proofOk, summaryOk);
    if params.Err? {
      node.blockRecords := after;
      return Err(params.error), stop;
    }
    r, bad := RunWorkers(node, batch, params.value, recent, compressed, batchSize, tree, proofOk, summaryOk);
    WorkersVerdict(node.c, node.blockRecords, batch, tree, recent, compressed, params.value, proofOk, summaryOk, r,
      bad);
  }
}
