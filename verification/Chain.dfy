/**
  A chain is the list of a block's ancestors, the newest on top. It is the reference
  view of the block tree: whatever the program computes by following parent hashes,
  height maps or cached windows is compared with a function of such a chain.
 */
module Chains {
  import opened Types

  datatype Chain = Empty | Snoc(prev: Chain, top: BlockRecord)

  /** Height of the newest block, -1 for the empty chain. */
  function Height(ch: Chain): int {
    if ch.Empty? then -1 else ch.top.block.height
  }

  /** Heights count up from zero. */
  ghost predicate Numbered(ch: Chain) {
    ch.Snoc? ==> Numbered(ch.prev) && ch.top.block.height == Height(ch.prev) + 1
  }

  /** The part of a chain up to and including height h. */
  function UpTo(ch: Chain, h: int): Chain {
    if ch.Empty? || ch.top.block.height <= h then ch else UpTo(ch.prev, h)
  }

  /** The block at height h of a chain that reaches that height. */
  function At(ch: Chain, h: int): BlockRecord
    requires Numbered(ch) && 0 <= h <= Height(ch)
  {
    UpToReaches(ch, h);
    UpTo(ch, h).top
  }

  /** Whether a is ch itself or one of the chains it was built from. */
  ghost predicate IsPrefix(a: Chain, ch: Chain) {
    a == ch || (ch.Snoc? && IsPrefix(a, ch.prev))
  }

  lemma {:induction false} UpToReaches(ch: Chain, h: int)
    requires Numbered(ch) && -1 <= h <= Height(ch)
    ensures Height(UpTo(ch, h)) == h && Numbered(UpTo(ch, h))
    ensures IsPrefix(UpTo(ch, h), ch)
  {
    if ch.Snoc? && h < ch.top.block.height { UpToReaches(ch.prev, h); }
    NumberedHeight(ch);
  }

  lemma {:induction false} NumberedHeight(ch: Chain)
    requires Numbered(ch)
    ensures -1 <= Height(ch)
    ensures Height(ch) == -1 <==> ch.Empty?
  {
    if ch.Snoc? { NumberedHeight(ch.prev); }
  }

  lemma {:induction false} UpToUpTo(ch: Chain, i: int, j: int)
    requires Numbered(ch) && j <= i
    ensures UpTo(UpTo(ch, i), j) == UpTo(ch, j)
  {
    if ch.Snoc? && ch.top.block.height > i { UpToUpTo(ch.prev, i, j); }
  }

  /** A prefix is the chain cut at the prefix's own height. */
  lemma {:induction false} PrefixIsUpTo(a: Chain, ch: Chain)
    requires Numbered(ch) && IsPrefix(a, ch)
    ensures Numbered(a) && Height(a) <= Height(ch)
    ensures UpTo(ch, Height(a)) == a
  {
    if a != ch { PrefixIsUpTo(a, ch.prev); }
  }

  lemma {:induction false} PrefixTrans(a: Chain, b: Chain, ch: Chain)
    requires IsPrefix(a, b) && IsPrefix(b, ch)
    ensures IsPrefix(a, ch)
  {
    if b != ch { PrefixTrans(a, b, ch.prev); }
  }
}

/** The block tree: records keyed by header hash, closed under the parent link. */
module BlockTree {
  import opened Types
  import opened Chains

  type Blocks = map<Hash, BlockRecord>

  /** Every record sits under its own hash, and above its parent unless it is at height 0; what a
      block at height 0 points back to is not a block. */
  ghost predicate Closed(blocks: Blocks) {
    forall h | h in blocks :: Linked(blocks, h)
  }

  ghost predicate Linked(blocks: Blocks, h: Hash)
    requires h in blocks
  {
    var b := blocks[h].block;
    && b.headerHash == h
    && (b.height > 0 <==> b.prevHash in blocks)
    && (b.height > 0 ==> blocks[b.prevHash].block.height + 1 == b.height)
  }

  /** The ancestors of a block, itself on top: the chain that parent hashes spell out. */
  ghost function Path(blocks: Blocks, h: Hash): (ch: Chain)
    requires Closed(blocks) && h in blocks
    ensures ch.Snoc? && ch.top == blocks[h]
    ensures Numbered(ch) && Height(ch) == blocks[h].block.height
    decreases blocks[h].block.height
  {
    assert Linked(blocks, h);
    if blocks[h].block.height == 0 then Snoc(Empty, blocks[h])
    else Snoc(Path(blocks, blocks[h].block.prevHash), blocks[h])
  }

  /** The chain a block would extend. */
  ghost function ParentPath(blocks: Blocks, block: FullBlock): Chain
    requires Closed(blocks) && (block.height > 0 ==> block.prevHash in blocks)
  {
    if block.height == 0 then Empty else Path(blocks, block.prevHash)
  }

  /** Cutting a path at a height gives the path of the ancestor found there. */
  lemma {:induction false} PathUpTo(blocks: Blocks, h: Hash, i: int)
    requires Closed(blocks) && h in blocks && 0 <= i <= blocks[h].block.height
    ensures var a := UpTo(Path(blocks, h), i);
            a.Snoc? && a.top.block.headerHash in blocks && a == Path(blocks, a.top.block.headerHash)
    decreases blocks[h].block.height
  {
    assert Linked(blocks, h);
    if i < blocks[h].block.height { PathUpTo(blocks, blocks[h].block.prevHash, i); }
  }

  /** Adding blocks to the tree does not change the path of a block already there. */
  lemma {:induction false} PathMonotone(blocks: Blocks, more: Blocks, h: Hash)
    requires Closed(blocks) && Closed(more) && h in blocks
    requires forall k | k in blocks :: k in more && more[k] == blocks[k]
    ensures Path(more, h) == Path(blocks, h)
    decreases blocks[h].block.height
  {
    assert Linked(blocks, h);
    if blocks[h].block.height > 0 { PathMonotone(blocks, more, blocks[h].block.prevHash); }
  }

  /** What blocks at height 0 point back to. */
  ghost predicate RootedAt(blocks: Blocks, origin: Hash) {
    origin !in blocks && forall h | h in blocks && blocks[h].block.height == 0 :: blocks[h].block.prevHash == origin
  }

  /** A record fits on a tree: its parent is there one height below, or it is a new root. */
  ghost predicate Fits(blocks: Blocks, origin: Hash, r: BlockRecord) {
    && r.block.headerHash !in blocks && r.block.headerHash != origin
    && if r.block.height == 0 then r.block.prevHash == origin
       else r.block.prevHash in blocks && blocks[r.block.prevHash].block.height + 1 == r.block.height
  }

  lemma {:induction false} AddBlock(blocks: Blocks, origin: Hash, r: BlockRecord)
    requires Closed(blocks) && RootedAt(blocks, origin) && Fits(blocks, origin, r)
    ensures var more := blocks[r.block.headerHash := r];
            && Closed(more) && RootedAt(more, origin)
            && Path(more, r.block.headerHash) == Snoc(ParentPath(blocks, r.block), r)
            && forall h | h in blocks :: Path(more, h) == Path(blocks, h)
  {
    var more := blocks[r.block.headerHash := r];
    forall h | h in more ensures Linked(more, h) {
      if h in blocks { assert Linked(blocks, h); }
    }
    forall h | h in blocks ensures Path(more, h) == Path(blocks, h) {
      PathMonotone(blocks, more, h);
    }
  }

  // ---------------------------------------------------------------- partial views of the tree

  /** Each block names the one below by its hash. */
  ghost predicate HashLinked(ch: Chain) {
    ch.Snoc? && ch.prev.Snoc? ==> ch.top.block.prevHash == ch.prev.top.block.headerHash && HashLinked(ch.prev)
  }

  /** The chain ends in the block with the given hash. */
  ghost predicate EndsIn(ch: Chain, h: Hash) {
    ch.Snoc? && Numbered(ch) && HashLinked(ch) && ch.top.block.headerHash == h
  }

  /** A set of records holds a block. */
  predicate Has(window: Blocks, r: BlockRecord) {
    r.block.headerHash in window && window[r.block.headerHash] == r
  }

  /** A set of records holds the blocks of a chain from its top down to that of a prefix. */
  ghost predicate Sees(window: Blocks, ch: Chain, a: Chain) {
    ch.Snoc? && Has(window, ch.top) && (ch == a || Sees(window, ch.prev, a))
  }

  ghost predicate Within(window: Blocks, blocks: Blocks) {
    forall h | h in window :: h in blocks && blocks[h] == window[h]
  }

  lemma {:induction false} SeesPrefix(window: Blocks, ch: Chain, a: Chain)
    requires Sees(window, ch, a)
    ensures a.Snoc? && IsPrefix(a, ch)
  {
    if ch != a { SeesPrefix(window, ch.prev, a); }
  }

  /** With more records, and not as far down. */
  lemma {:induction false} SeesMore(window: Blocks, more: Blocks, ch: Chain, a: Chain, b: Chain)
    requires Numbered(ch) && Sees(window, ch, a) && IsPrefix(a, b) && IsPrefix(b, ch) && Within(window, more)
    ensures Sees(more, ch, b)
  {
    if ch != b {
      PrefixIsUpTo(b, ch.prev);
      PrefixIsUpTo(a, b);
      SeesMore(window, more, ch.prev, a, b);
    }
  }

  /** The whole tree sees all of a path. */
  lemma {:induction false} PathSeen(blocks: Blocks, h: Hash, a: Chain)
    requires Closed(blocks) && h in blocks && a.Snoc? && IsPrefix(a, Path(blocks, h))
    ensures Sees(blocks, Path(blocks, h), a) && EndsIn(Path(blocks, h), h)
    decreases blocks[h].block.height
  {
    assert Linked(blocks, h);
    PathLinked(blocks, h);
    if a != Path(blocks, h) { PathSeen(blocks, blocks[h].block.prevHash, a); }
  }

  lemma {:induction false} PathLinked(blocks: Blocks, h: Hash)
    requires Closed(blocks) && h in blocks
    ensures HashLinked(Path(blocks, h))
    decreases blocks[h].block.height
  {
    assert Linked(blocks, h);
    if blocks[h].block.height > 0 {
      assert Linked(blocks, blocks[h].block.prevHash);
      PathLinked(blocks, blocks[h].block.prevHash);
    }
  }

  lemma {:induction false} SeesBelow(window: Blocks, ch: Chain, a: Chain)
    requires Sees(window, ch, a) && ch != a
    ensures ch.prev.Snoc? && Has(window, ch.prev.top) && Sees(window, ch.prev, a)
  {
    assert Sees(window, ch.prev, a);
  }

  /** Looks up the parent of a record. It is found whenever the view goes farther down. */
  method ParentRecord(window: Blocks, curr: BlockRecord, ghost rest: Chain, ghost a: Chain)
    returns (r: Result<BlockRecord>)
    ensures r.Ok? ==> r.value.block.height < curr.block.height
    ensures rest.Snoc? && rest.top == curr && Numbered(rest) && HashLinked(rest) && Sees(window, rest, a)
            && rest != a ==>
              rest.prev.Snoc? && r == Ok(rest.prev.top)
  {
    if Sees(window, rest, a) && rest != a { SeesBelow(window, rest, a); }
    if curr.block.prevHash !in window { return Err(MissingBlock); }
    var parent := window[curr.block.prevHash];
    if parent.block.height >= curr.block.height { return Err(AssertionFailed); }
    r := Ok(parent);
  }
}
