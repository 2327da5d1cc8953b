/**
  Looking up the generator programs that a block refers to by height. A reference always means
  the block's own ancestor at that height, whichever branch the block is on and however the
  look-up is done.
 */
module Generators {
  import opened Types
  import opened Chains
  import opened BlockTree
  import opened CoinSet
  import opened ForkPoint
  import opened MainChain

  datatype BlockGenerator = BlockGenerator(program: Program, refs: seq<Program>)

  /** The references resolved one by one. */
  ghost predicate Resolves(ch: Chain, refs: seq<nat>, gs: seq<Program>) {
    |gs| == |refs| && forall i | 0 <= i < |refs| :: GeneratorAt(ch, refs[i]) == Some(gs[i])
  }

  lemma {:induction false} ResolvedRefs(ch: Chain, refs: seq<nat>, gs: seq<Program>)
    requires Resolves(ch, refs, gs)
    ensures ResolveRefs(ch, refs) == Some(gs)
  {
    if refs != [] {
      ResolvedRefs(ch, refs[..|refs| - 1], gs[..|gs| - 1]);
      assert gs == gs[..|gs| - 1] + [gs[|gs| - 1]];
    }
  }

  lemma {:induction false} UnresolvedRefs(ch: Chain, refs: seq<nat>, i: nat)
    requires i < |refs| && GeneratorAt(ch, refs[i]).None?
    ensures ResolveRefs(ch, refs).None?
  {
    if i < |refs| - 1 { UnresolvedRefs(ch, refs[..|refs| - 1], i); }
  }

  /** The generator at a height depends on the chain up to that height only. */
  lemma {:induction false} GeneratorAgrees(a: Chain, b: Chain, h: int, i: nat)
    requires Numbered(a) && Numbered(b) && Agree(a, b, h) && i <= h
    ensures GeneratorAt(a, i) == GeneratorAt(b, i)
  {
    UpToUpTo(a, h, i);
    UpToUpTo(b, h, i);
  }

  lemma {:induction false} GeneratorOf(ch: Chain, i: nat)
    requires Numbered(ch)
    ensures GeneratorAt(ch, i) == if i <= Height(ch) then At(ch, i).block.generator else None
  {
    if i <= Height(ch) { UpToReaches(ch, i); }
  }

  /** What is expected of a look-up: the programs of the chain at those heights, or an error. */
  ghost predicate Answers(ch: Chain, refs: seq<nat>, r: Result<seq<Program>>) {
    if r.Ok? then Resolves(ch, refs, r.value) else exists i | 0 <= i < |refs| :: GeneratorAt(ch, refs[i]).None?
  }

  /** By height, through the hash of each height of the main chain. */
  method GeneratorsByHash(blocks: Blocks, hashes: seq<Hash>, ghost main: Chain, refs: seq<nat>)
    returns (r: Result<seq<Program>>)
    requires Closed(blocks) && InTree(blocks, main) && Numbered(main) && hashes == PathHashes(main)
    ensures Answers(main, refs, r)
  {
    var result := [];
    for i := 0 to |refs|
      invariant Resolves(main, refs[..i], result)
    {
      PathHashesAt(main, refs[i]);
      GeneratorOf(main, refs[i]);
      if refs[i] >= |hashes| { return Err(AssertionFailed); }
      MainAt(blocks, main, refs[i]);
      var gen := blocks[hashes[refs[i]]].block.generator;
      if gen.None? { return Err(GeneratorRefHasNoGenerator); }
      result := result + [gen.value];
    }
    assert refs[..|refs|] == refs;
    r := Ok(result);
  }

  lemma {:induction false} FlaggedIsMain(blocks: Blocks, flagged: set<Hash>, main: Chain, h: Hash)
    requires Closed(blocks) && InTree(blocks, main) && Numbered(main) && FlaggedRows(blocks, flagged, main)
             && h in flagged
    ensures var i := blocks[h].block.height; i <= Height(main) && At(main, i) == blocks[h]
  {
    var j :| 0 <= j < |PathHashes(main)| && PathHashes(main)[j] == h;
    PathHashesAt(main, j);
    MainAt(blocks, main, j);
    UpToReaches(main, j);
  }

  lemma {:induction false} MainIsFlagged(blocks: Blocks, flagged: set<Hash>, main: Chain, i: nat)
    requires Closed(blocks) && InTree(blocks, main) && Numbered(main) && FlaggedRows(blocks, flagged, main)
             && i <= Height(main)
    ensures var h := At(main, i).block.headerHash; h in flagged && blocks[h].block.height == i
  {
    PathHashesAt(main, i);
    MainAt(blocks, main, i);
    UpToReaches(main, i);
    assert PathHashes(main)[i] in PathHashes(main);
  }

  /** By height, from the rows flagged as main chain, in whatever order they come. */
  method GetGeneratorsAt(blocks: Blocks, flagged: set<Hash>, ghost main: Chain, heights: seq<nat>)
    returns (r: Result<seq<Program>>)
    requires Closed(blocks) && InTree(blocks, main) && Numbered(main) && FlaggedRows(blocks, flagged, main)
    ensures Answers(main, heights, r)
  {
    var rows := set h | h in flagged && blocks[h].block.height in heights;
    var generators: map<nat, Program> := map[];
    ghost var all := rows;
    while rows != {}
      invariant rows <= all
      invariant forall h | h in all && h !in rows :: blocks[h].block.height in generators
      invariant forall i | i in generators :: GeneratorAt(main, i) == Some(generators[i])
      decreases |rows|
    {
      var h :| h in rows;
      FlaggedIsMain(blocks, flagged, main, h);
      var height := blocks[h].block.height;
      GeneratorOf(main, height);
      var gen := blocks[h].block.generator;
      if gen.None? {
        var k :| 0 <= k < |heights| && heights[k] == height;
        assert GeneratorAt(main, heights[k]).None?;
        return Err(GeneratorRefHasNoGenerator);
      }
      generators := generators[height := gen.value];
      rows := rows - {h};
    }
    r := ByHeight(generators, heights, main);
    if r.Err? {
      var i :| 0 <= i < |heights| && heights[i] !in generators;
      GeneratorOf(main, heights[i]);
      if heights[i] <= Height(main) {
        MainIsFlagged(blocks, flagged, main, heights[i]);
      }
    }
  }

  method ByHeight(generators: map<nat, Program>, heights: seq<nat>, ghost main: Chain) returns (r: Result<seq<Program>>)
    requires forall i | i in generators :: GeneratorAt(main, i) == Some(generators[i])
    ensures if r.Ok? then Resolves(main, heights, r.value) else exists i | 0 <= i < |heights| ::
        heights[i] !in generators
  {
    var result := [];
    for i := 0 to |heights|
      invariant Resolves(main, heights[..i], result)
    {
      if heights[i] !in generators { return Err(MissingBlock); }
      result := result + [generators[heights[i]]];
    }
    assert heights[..|heights|] == heights;
    r := Ok(result);
  }

  // ---------------------------------------------------------------- off the main chain

  /** Blocks under their own hashes, the same ones that the tree has under these hashes. */
  ghost predicate SameBlocks(blocks: Blocks, additional: map<Hash, FullBlock>) {
    forall h | h in additional :: additional[h].headerHash == h && (h in blocks ==> blocks[h].block == additional[h])
  }

  /** The ancestors that a hash stands for, partly in the tree and partly among the additional blocks. */
  ghost predicate Ancestry(blocks: Blocks, additional: map<Hash, FullBlock>, h: Hash, ch: Chain)
    requires Closed(blocks)
    decreases ch
  {
    if h in blocks then ch == Path(blocks, h)
    else if h in additional then
      ch.Snoc? && ch.top.block == additional[h] && Ancestry(blocks, additional, additional[h].prevHash, ch.prev)
    else ch.Empty?
  }

  lemma {:induction false} AncestryStep(blocks: Blocks, additional: map<Hash, FullBlock>, h: Hash, ch: Chain)
    requires Closed(blocks) && SameBlocks(blocks, additional) && h in additional && Ancestry(blocks, additional, h, ch)
    requires forall k | k in blocks && blocks[k].block.height == 0 :: blocks[k].block.prevHash !in additional
    ensures ch.Snoc? && ch.top.block == additional[h] && Ancestry(blocks, additional, additional[h].prevHash, ch.prev)
  {
    if h in blocks { assert Linked(blocks, h); }
  }

  /** A height-indexed part of a chain: all blocks above a height. */
  ghost predicate Holds(reorg: map<nat, FullBlock>, ch: Chain, above: int)
    requires Numbered(ch)
  {
    && (forall i: nat | above < i <= Height(ch) :: i in reorg)
    && (forall i | i in reorg :: i <= Height(ch) && reorg[i] == At(ch, i).block)
  }

  lemma {:induction false} HoldsStep(reorg: map<nat, FullBlock>, ch: Chain, a: Chain)
    requires Numbered(ch) && Holds(reorg, ch, Height(a)) && IsPrefix(a, ch) && a.Snoc?
    ensures Holds(reorg[a.top.block.height := a.top.block], ch, Height(a) - 1)
    ensures IsPrefix(a.prev, ch) && a.top.block.height == Height(a.prev) + 1 && Numbered(a)
  {
    PrefixIsUpTo(a, ch);
    NumberedHeight(a.prev);
    PrefixTrans(a.prev, a, ch);
  }

  /** Collects a block's ancestors down to the fork with the main chain: first those among the
      additional blocks, then those of the tree. */
  method CollectReorgChain(blocks: Blocks, peak: Option<BlockRecord>, ghost main: Chain, block: FullBlock,
                           additional: map<Hash, FullBlock>, ghost ancestors: Chain)
    returns (reorg: map<nat, FullBlock>, ghost fork: int)
    requires Closed(blocks) && InTree(blocks, main) && Numbered(main)
    requires if main.Empty? then peak.None? && blocks == map[] else peak == Some(main.top)
    requires SameBlocks(blocks, additional) && Ancestry(blocks, additional, block.prevHash, ancestors)
             && Numbered(ancestors)
    requires forall k | k in blocks && blocks[k].block.height == 0 :: blocks[k].block.prevHash !in additional
    requires block.height == Height(ancestors) + 1
    ensures -1 <= fork && Holds(reorg, ancestors, fork)
    ensures fork >= 0 ==> Agree(main, ancestors, fork)
  {
    reorg := map[];
    var curr := block;
    ghost var below := ancestors;
    while curr.prevHash in additional
      invariant Ancestry(blocks, additional, curr.prevHash, below) && IsPrefix(below, ancestors)
      invariant Holds(reorg, ancestors, Height(below))
      invariant curr.height == Height(below) + 1
      decreases below
    {
      AncestryStep(blocks, additional, curr.prevHash, below);
      HoldsStep(reorg, ancestors, below);
      var prev := additional[curr.prevHash];
      assert curr.height == prev.height + 1;
      reorg := reorg[prev.height := prev];
      curr, below := prev, below.prev;
    }
    fork := Height(below);
    PrefixIsUpTo(below, ancestors);
    NumberedHeight(below);
    if curr.prevHash in blocks && peak.Some? {
      assert Linked(blocks, curr.prevHash);
      reorg, fork := CollectToFork(blocks, peak.value, main, curr.prevHash, reorg, ancestors);
    }
  }

  /** Adds the blocks of the tree, from a block down to its fork with the main chain. */
  method CollectToFork(blocks: Blocks, peak: BlockRecord, ghost main: Chain, start: Hash,
                       collected: map<nat, FullBlock>, ghost ancestors: Chain)
    returns (reorg: map<nat, FullBlock>, ghost fork: int)
    requires Closed(blocks) && InTree(blocks, main) && main.Snoc? && Numbered(main) && peak == main.top
    requires start in blocks && Numbered(ancestors) && IsPrefix(Path(blocks, start), ancestors)
    requires Holds(collected, ancestors, Height(Path(blocks, start)))
    ensures -1 <= fork && Holds(reorg, ancestors, fork)
    ensures fork >= 0 ==> Agree(main, ancestors, fork)
  {
    assert Linked(blocks, start) && Linked(blocks, peak.block.headerHash);
    ghost var path := Path(blocks, start);
    var f := ForkPoint.FindForkPointInChain(blocks, peak, blocks[start]);
    assert Agree(main, path, f);
    var curr := blocks[start].block;
    HoldsStep(collected, ancestors, path);
    reorg := collected[curr.height := curr];
    while curr.height > f && curr.height > 0
      invariant curr.headerHash in blocks && blocks[curr.headerHash].block == curr
      invariant IsPrefix(Path(blocks, curr.headerHash), ancestors)
      invariant Holds(reorg, ancestors, curr.height - 1)
      invariant f <= curr.height
      decreases curr.height
    {
      assert Linked(blocks, curr.headerHash);
      ghost var a := Path(blocks, curr.headerHash);
      PrefixTrans(a.prev, a, ancestors);
      curr := blocks[curr.prevHash].block;
      assert Linked(blocks, curr.headerHash);
      HoldsStep(reorg, ancestors, a.prev);
      reorg := reorg[curr.height := curr];
    }
    fork := f;
    PrefixIsUpTo(path, ancestors);
    UpToUpTo(ancestors, Height(path), f);
  }

  /** The references of a block on another branch: from the collected ancestors where these have
      the height, from the main chain below. */
  method GeneratorsInReorg(blocks: Blocks, hashes: seq<Hash>, ghost main: Chain, reorg: map<nat, FullBlock>,
                           ghost ancestors: Chain, ghost fork: int, refs: seq<nat>) returns (r: Result<seq<Program>>)
    requires Closed(blocks) && InTree(blocks, main) && Numbered(main) && hashes == PathHashes(main)
    requires Numbered(ancestors) && -1 <= fork && Holds(reorg, ancestors, fork)
             && (fork >= 0 ==> Agree(main, ancestors, fork))
    ensures (forall i | 0 <= i < |refs| :: refs[i] <= Height(ancestors)) ==> Answers(ancestors, refs, r)
  {
    var result := [];
    ghost var own := forall i | 0 <= i < |refs| :: refs[i] <= Height(ancestors);
    for i := 0 to |refs|
      invariant own ==> Resolves(ancestors, refs[..i], result)
    {
      GeneratorOf(ancestors, refs[i]);
      var gen: Option<Program>;
      if refs[i] in reorg {
        gen := reorg[refs[i]].generator;
      } else {
        PathHashesAt(main, refs[i]);
        if own { GeneratorAgrees(main, ancestors, fork, refs[i]); }
        if refs[i] >= |hashes| { return Err(GeneratorRefHasNoGenerator); }
        GeneratorOf(main, refs[i]);
        MainAt(blocks, main, refs[i]);
        gen := blocks[hashes[refs[i]]].block.generator;
      }
      if gen.None? { return Err(GeneratorRefHasNoGenerator); }
      result := result + [gen.value];
    }
    assert refs[..|refs|] == refs;
    r := Ok(result);
  }

  // ---------------------------------------------------------------- the look-up as a whole

  /** A block's generator with the programs it refers to. When no reference points at the block's
      own height or above, each program is the generator of the block's own ancestor there. */
  method GetBlockGenerator(s: Stores, ghost main: Chain, block: FullBlock, additional: map<Hash, FullBlock>,
                           ghost ancestors: Chain)
    returns (r: Result<Option<BlockGenerator>>)
    requires Describes(s, main)
    requires SameBlocks(s.blocks, additional) && Ancestry(s.blocks, additional, block.prevHash, ancestors)
             && Numbered(ancestors)
    requires forall k | k in s.blocks && s.blocks[k].block.height == 0 :: s.blocks[k].block.prevHash !in additional
    requires block.height == Height(ancestors) + 1
    ensures block.generator.None? ==> r == if block.generatorRefs == [] then Ok(None) else Err(AssertionFailed)
    ensures block.generator.Some? && (forall i | 0 <= i < |block.generatorRefs| ::
        block.generatorRefs[i] < block.height) ==>
              var refs := ResolveRefs(ancestors, block.generatorRefs);
              if refs.Some? then r == Ok(Some(BlockGenerator(block.generator.value, refs.value))) else r.Err?
    ensures r.Ok? ==> (r.value.Some? <==> block.generator.Some?)
  {
    var refs := block.generatorRefs;
    if block.generator.None? { return if refs == [] then Ok(None) else Err(AssertionFailed); }
    if refs == [] { return Ok(Some(BlockGenerator(block.generator.value, []))); }
    var result: Result<seq<Program>>;
    ghost var own := forall i | 0 <= i < |refs| :: refs[i] < block.height;
    if block.prevHash in s.blocks && s.blocks[block.prevHash].block.height < |s.hashes|
       && s.hashes[s.blocks[block.prevHash].block.height] == block.prevHash {
      OnMainChain(s.blocks, main, block.prevHash);
      if s.version2 { result := GetGeneratorsAt(s.blocks, s.flagged, main, refs); }
      else { result := GeneratorsByHash(s.blocks, s.hashes, main, refs); }
      if own { AnswersAgree(main, ancestors, refs, result); }
    } else {
      ghost var fork;
      var reorg;
      reorg, fork := CollectReorgChain(s.blocks, s.peak, main, block, additional, ancestors);
      result := GeneratorsInReorg(s.blocks, s.hashes, main, reorg, ancestors, fork, refs);
    }
    if own { AnswerIsResolved(ancestors, refs, result); }
    if result.Err? { return Err(result.error); }
    r := Ok(Some(BlockGenerator(block.generator.value, result.value)));
  }

  lemma {:induction false} AnswersAgree(main: Chain, ch: Chain, refs: seq<nat>, r: Result<seq<Program>>)
    requires Numbered(main) && Numbered(ch) && Agree(main, ch, Height(ch)) && Answers(main, refs, r)
    requires forall i | 0 <= i < |refs| :: refs[i] <= Height(ch)
    ensures Answers(ch, refs, r)
  {
    forall i | 0 <= i < |refs| ensures GeneratorAt(main, refs[i]) == GeneratorAt(ch, refs[i]) {
      GeneratorAgrees(main, ch, Height(ch), refs[i]);
    }
  }

  lemma {:induction false} AnswerIsResolved(ch: Chain, refs: seq<nat>, r: Result<seq<Program>>)
    requires Answers(ch, refs, r)
    ensures if r.Ok? then ResolveRefs(ch, refs) == Some(r.value) else ResolveRefs(ch, refs).None?
  {
    if r.Ok? { ResolvedRefs(ch, refs, r.value); }
    else {
      var i :| 0 <= i < |refs| && GeneratorAt(ch, refs[i]).None?;
      UnresolvedRefs(ch, refs, i);
    }
  }
}
