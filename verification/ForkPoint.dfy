/** The height at which two chains part. */
module ForkPoint {
  import opened Types
  import opened Chains
  import opened BlockTree

  /** Two chains agree up to and including a height that both reach. */
  ghost predicate Agree(a: Chain, b: Chain, h: int) {
    -1 <= h <= Height(a) && h <= Height(b) && UpTo(a, h) == UpTo(b, h)
  }

  /** The greatest height up to which two chains agree. */
  ghost predicate IsForkHeight(a: Chain, b: Chain, h: int) {
    Agree(a, b, h) && forall i :: Agree(a, b, i) ==> i <= h
  }

  lemma {:induction false} ForkHeightUnique(a: Chain, b: Chain, h: int, i: int)
    requires IsForkHeight(a, b, h) && IsForkHeight(a, b, i)
    ensures h == i && IsForkHeight(b, a, h)
  {
    assert Agree(a, b, h) && Agree(a, b, i);
    forall j | Agree(b, a, j) ensures j <= h { assert Agree(a, b, j); }
    assert Agree(b, a, h);
  }

  /** Dropping the newest block of a chain does not move a fork below it. */
  lemma {:induction false} ForkBelow(a: Chain, b: Chain, h: int)
    requires Numbered(a) && Numbered(b) && a.Snoc? && IsForkHeight(a.prev, b, h)
    requires Height(a) > Height(b) || (Height(a) == Height(b) && a != b)
    ensures IsForkHeight(a, b, h)
  {
    assert Agree(a.prev, b, h);
    forall i | Agree(a, b, i) ensures i <= h {
      UpToReaches(b, i);
      assert Agree(a.prev, b, i);
    }
  }

  lemma {:induction false} ForkAtTop(ch: Chain)
    requires Numbered(ch)
    ensures IsForkHeight(ch, ch, Height(ch))
  {
    NumberedHeight(ch);
  }

  lemma {:induction false} ForkFlip(a: Chain, b: Chain, h: int)
    requires IsForkHeight(a, b, h)
    ensures IsForkHeight(b, a, h)
  {
    forall i | Agree(b, a, i) ensures i <= h { assert Agree(a, b, i); }
  }

  /** Chains that do not share their first block have no height in common. */
  lemma {:induction false} ForkAtGenesis(a: Chain, b: Chain)
    requires Numbered(a) && Numbered(b) && Height(a) == 0 && Height(b) == 0 && a != b
    ensures IsForkHeight(a, b, -1)
  {
    NumberedHeight(a.prev);
    NumberedHeight(b.prev);
    assert UpTo(a, -1) == UpTo(b, -1);
  }

  /** There is nothing in common exactly when the genesis blocks differ. */
  lemma {:induction false} NoForkHeight(a: Chain, b: Chain, h: int)
    requires Numbered(a) && Numbered(b) && a.Snoc? && b.Snoc? && IsForkHeight(a, b, h)
    ensures h == -1 <==> At(a, 0) != At(b, 0)
  {
    NumberedHeight(a.prev);
    NumberedHeight(b.prev);
    UpToReaches(a, 0);
    UpToReaches(b, 0);
    NumberedHeight(UpTo(a, 0).prev);
    NumberedHeight(UpTo(b, 0).prev);
    if h >= 0 {
      UpToUpTo(a, h, 0);
      UpToUpTo(b, h, 0);
    }
    assert At(a, 0) == At(b, 0) ==> Agree(a, b, 0);
  }

  /** A record together with its ancestors in the tree. It may itself not be in the tree yet. */
  ghost predicate Attached(blocks: Blocks, r: BlockRecord)
    requires Closed(blocks)
  {
    && (r.block.height > 0 ==>
      r.block.prevHash in blocks && blocks[r.block.prevHash].block.height + 1 == r.block.height)
    && (r.block.headerHash in blocks ==> blocks[r.block.headerHash] == r)
  }

  ghost function ChainOf(blocks: Blocks, r: BlockRecord): (ch: Chain)
    requires Closed(blocks) && Attached(blocks, r)
    ensures ch.Snoc? && ch.top == r && Numbered(ch) && Height(ch) == r.block.height
    ensures r.block.headerHash in blocks ==> ch == Path(blocks, r.block.headerHash)
  {
    if r.block.headerHash in blocks then
      assert Linked(blocks, r.block.headerHash);
      Path(blocks, r.block.headerHash)
    else Snoc(ParentPath(blocks, r.block), r)
  }

  lemma {:induction false} ParentOf(blocks: Blocks, r: BlockRecord)
    requires Closed(blocks) && Attached(blocks, r) && r.block.height > 0
    ensures var p := blocks[r.block.prevHash]; Attached(blocks, p) && ChainOf(blocks, r).prev == ChainOf(blocks, p)
  {
    assert Linked(blocks, r.block.prevHash);
    if r.block.headerHash in blocks { assert Linked(blocks, r.block.headerHash); }
  }

  /** Walks both chains down, the higher one first, until they meet. */
  method FindForkPointInChain(blocks: Blocks, first: BlockRecord, second: BlockRecord) returns (fork: int)
    requires Closed(blocks) && Attached(blocks, first) && Attached(blocks, second)
    requires first.block.headerHash == second.block.headerHash ==> first == second
    ensures IsForkHeight(ChainOf(blocks, first), ChainOf(blocks, second), fork)
  {
    var block1, block2 := first, second;
    ghost var a, b := ChainOf(blocks, first), ChainOf(blocks, second);
    while block2.block.height > 0 || block1.block.height > 0
      invariant Attached(blocks, block1) && Attached(blocks, block2)
      invariant block1.block.headerHash == block2.block.headerHash ==> block1 == block2
      invariant forall h | IsForkHeight(ChainOf(blocks, block1), ChainOf(blocks, block2), h) :: IsForkHeight(a, b, h)
      decreases block1.block.height + block2.block.height
    {
      ghost var x, y := ChainOf(blocks, block1), ChainOf(blocks, block2);
      if block2.block.height > block1.block.height {
        ParentOf(blocks, block2);
        forall h | IsForkHeight(x, y.prev, h) ensures IsForkHeight(x, y, h) { DropSecond(x, y, h); }
        block2 := blocks[block2.block.prevHash];
      } else if block1.block.height > block2.block.height {
        ParentOf(blocks, block1);
        forall h | IsForkHeight(x.prev, y, h) ensures IsForkHeight(x, y, h) { ForkBelow(x, y, h); }
        block1 := blocks[block1.block.prevHash];
      } else {
        if block2.block.headerHash == block1.block.headerHash {
          ForkAtTop(x);
          return block2.block.height;
        }
        ParentOf(blocks, block1);
        ParentOf(blocks, block2);
        forall h | IsForkHeight(x.prev, y.prev, h) ensures IsForkHeight(x, y, h) { DropBoth(x, y, h); }
        block2 := blocks[block2.block.prevHash];
        block1 := blocks[block1.block.prevHash];
      }
    }
    if block2 != block1 {
      ForkAtGenesis(ChainOf(blocks, block1), ChainOf(blocks, block2));
      return -1;
    }
    ForkAtTop(ChainOf(blocks, block1));
    fork := 0;
  }

  lemma {:induction false} DropSecond(a: Chain, b: Chain, h: int)
    requires Numbered(a) && Numbered(b) && b.Snoc? && IsForkHeight(a, b.prev, h)
    requires Height(b) > Height(a) || (Height(a) == Height(b) && a != b)
    ensures IsForkHeight(a, b, h)
  {
    ForkFlip(a, b.prev, h);
    ForkBelow(b, a, h);
    ForkFlip(b, a, h);
  }

  lemma {:induction false} DropBoth(a: Chain, b: Chain, h: int)
    requires Numbered(a) && Numbered(b) && a.Snoc? && b.Snoc? && Height(a) == Height(b) && a != b
    requires IsForkHeight(a.prev, b.prev, h)
    ensures IsForkHeight(a, b, h)
  {
    DropSecond(a.prev, b, h);
    ForkBelow(a, b, h);
  }
}
