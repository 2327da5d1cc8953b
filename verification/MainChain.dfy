/** The main chain as the program stores it: one header hash per height, ending with the peak. */
module MainChain {
  import opened Types
  import opened Chains
  import opened BlockTree
  import opened ForkPoint

  /** What look-ups read: the records by hash, the peak, the hashes of the main chain by height, and
      for a version 2 database the rows flagged as main chain. */
  datatype Stores = Stores(blocks: Blocks, peak: Option<BlockRecord>, hashes: seq<Hash>, flagged: set<Hash>,
    version2: bool)

  /** The stores describe one main chain. */
  ghost predicate Describes(s: Stores, main: Chain) {
    && Closed(s.blocks) && InTree(s.blocks, main) && Numbered(main) && s.hashes == PathHashes(main)
    && (s.version2 ==> FlaggedRows(s.blocks, s.flagged, main))
    && if main.Empty? then s.peak.None? && s.blocks == map[] else s.peak == Some(main.top)
  }

  /** The rows flagged as main chain are those of the main chain. */
  ghost predicate FlaggedRows(blocks: Blocks, flagged: set<Hash>, main: Chain) {
    flagged == (set h | h in PathHashes(main)) && forall h | h in flagged :: h in blocks
  }

  /** The header hashes of a chain, by height. */
  function PathHashes(ch: Chain): seq<Hash> {
    if ch.Empty? then [] else PathHashes(ch.prev) + [ch.top.block.headerHash]
  }

  lemma {:induction false} PathHashesAt(ch: Chain, i: nat)
    requires Numbered(ch)
    ensures |PathHashes(ch)| == Height(ch) + 1
    ensures i <= Height(ch) ==> PathHashes(ch)[i] == At(ch, i).block.headerHash
  {
    if ch.Snoc? { PathHashesAt(ch.prev, i); }
  }

  /** A chain of the tree, from genesis to one of its blocks. */
  ghost predicate InTree(blocks: Blocks, ch: Chain)
    requires Closed(blocks)
  {
    ch.Snoc? ==> ch.top.block.headerHash in blocks && ch == Path(blocks, ch.top.block.headerHash)
  }

  lemma {:induction false} InTreeCut(blocks: Blocks, ch: Chain, h: int)
    requires Closed(blocks) && InTree(blocks, ch) && -1 <= h <= Height(ch)
    ensures InTree(blocks, UpTo(ch, h)) && Numbered(ch)
  {
    if ch.Snoc? && h >= 0 { PathUpTo(blocks, ch.top.block.headerHash, h); }
    if ch.Snoc? && h == -1 { UpToReaches(ch, h); NumberedHeight(UpTo(ch, h)); }
  }

  /** A block is on the main chain exactly when the height map names it at its own height. */
  lemma {:induction false} OnMainChain(blocks: Blocks, main: Chain, h: Hash)
    requires Closed(blocks) && InTree(blocks, main) && h in blocks
    ensures var i := blocks[h].block.height;
            i < |PathHashes(main)| && PathHashes(main)[i] == h <==> Agree(main, Path(blocks, h), i)
  {
    var i := blocks[h].block.height;
    InTreeCut(blocks, main, -1);
    PathHashesAt(main, i);
    if i <= Height(main) {
      InTreeCut(blocks, main, i);
      UpToReaches(main, i);
      NumberedHeight(UpTo(main, i));
      assert UpTo(Path(blocks, h), i) == Path(blocks, h);
    }
  }

  /** The block that the height map names at a height. */
  lemma {:induction false} MainAt(blocks: Blocks, main: Chain, i: nat)
    requires Closed(blocks) && InTree(blocks, main) && Numbered(main) && i <= Height(main)
    ensures |PathHashes(main)| == Height(main) + 1
    ensures var h := PathHashes(main)[i]; h in blocks && blocks[h] == At(main, i) && Path(blocks, h) == UpTo(main, i)
  {
    PathHashesAt(main, i);
    InTreeCut(blocks, main, i);
    UpToReaches(main, i);
    NumberedHeight(UpTo(main, i));
  }
}
