/**
  Creating a block in two steps: at the signage point, when its body and reward claims are fixed,
  and at the infusion point, when it is put on top of whatever has been infused in between.
 */
module BlockCreation {
  import opened Types
  import opened Chains
  import opened BlockTree
  import opened PotIterations
  import opened HeaderRules
  import opened ChainIterations
  import opened CoinSet
  import opened CoinHistory
  import opened Supply
  import opened BodyValidation
  import HeaderValidation

  /** Whether a block with the given signage point on top of a chain is a transaction block. */
  predicate IsTxOn(ch: Chain, spTotalIters: int) {
    var t := LastTx(ch);
    t.Empty? || spTotalIters > t.top.block.totalIters
  }

  /** Walks back to the newest transaction block and compares it with the signage point. When the
      block is not a transaction block, the given block itself is returned. */
  method GetPrevTransactionBlock(c: Consensus, blocks: Blocks, prev: BlockRecord, spTotalIters: int, ghost ch: Chain)
    returns (isTx: bool, prevTx: BlockRecord)
    requires Closed(blocks) && prev.block.headerHash in blocks && blocks[prev.block.headerHash] == prev
    requires ch == Path(blocks, prev.block.headerHash) && GoodBodies(c, ch)
    ensures isTx == IsTxOn(ch, spTotalIters)
    ensures LastTx(ch).Snoc? && prevTx == if isTx then LastTx(ch).top else prev
  {
    BodiesNumbered(c, ch);
    HeaderValidation.TreeInView(blocks, prev.block.headerHash);
    var curr := HeaderValidation.WalkToTransactionBlock(blocks, prev, ch);
    prevTx := prev;
    isTx := spTotalIters > curr.value.block.totalIters;
    if isTx { prevTx := curr.value; }
  }

  /** A list of distinct rewards of the heights above low, up to high. */
  ghost predicate ClaimList(claims: seq<Coin>, low: int, high: int) {
    Distinct(claims) && forall x | x in claims :: RewardOf(x, low, high)
  }

  /** Appends the rewards of a block and the ones below it, down to the next transaction block. */
  method AppendLower(blocks: Blocks, start: BlockRecord, first: seq<Coin>, ghost high: int) returns (claims: seq<Coin>)
    requires Closed(blocks) && start.block.headerHash in blocks && blocks[start.block.headerHash] == start
    requires LastTx(Path(blocks, start.block.headerHash)).Snoc? && start.block.height <= high
             && ClaimList(first, start.block.height, high)
    ensures Members(claims) == Members(first) + RewardsBelow(Path(blocks, start.block.headerHash)) && Distinct(claims)
  {
    ghost var all := Members(first) + RewardsBelow(Path(blocks, start.block.headerHash));
    claims := first;
    var curr := start;
    while !curr.IsTransactionBlock()
      invariant curr.block.headerHash in blocks && blocks[curr.block.headerHash] == curr && curr.block.height <= high
      invariant LastTx(Path(blocks, curr.block.headerHash)).Snoc? && ClaimList(claims, curr.block.height, high)
      invariant Members(claims) + RewardsBelow(Path(blocks, curr.block.headerHash)) == all
      decreases curr.block.height
    {
      assert Linked(blocks, curr.block.headerHash);
      AddPair(claims, curr.block, high);
      claims := claims + [PoolCoin(curr.block), FarmerCoin(curr.block, 0)];
      curr := blocks[curr.block.prevHash];
      assert Linked(blocks, curr.block.headerHash);
    }
  }

  /** The claims that follow a transaction block: its own rewards with its fees, then the ones below. */
  method ClaimsAfter(blocks: Blocks, t: BlockRecord, ghost tx: Chain) returns (claims: seq<Coin>)
    requires Closed(blocks) && t.block.headerHash in blocks && blocks[t.block.headerHash] == t
    requires tx == Path(blocks, t.block.headerHash) && t.block.info.Some? && (tx.prev.Snoc? ==> LastTx(tx.prev).Snoc?)
    ensures Members(claims) == {PoolCoin(t.block), FarmerCoin(t.block, FeesOf(t.block))} + RewardsBelow(tx.prev)
            && Distinct(claims)
  {
    assert Linked(blocks, t.block.headerHash);
    var pool, farmer := PoolCoin(t.block), FarmerCoin(t.block, t.block.info.value.fees);
    claims := [pool, farmer];
    assert Members(claims) == {pool, farmer};
    if t.block.height > 0 {
      assert Linked(blocks, t.block.prevHash);
      claims := AppendLower(blocks, blocks[t.block.prevHash], claims, t.block.height);
    }
  }

  /** The reward claims as a list, in the order in which they are found. */
  method BuildRewardClaims(c: Consensus, blocks: Blocks, prev: BlockRecord, ghost ch: Chain) returns (claims: seq<Coin>)
    requires Closed(blocks) && prev.block.headerHash in blocks && blocks[prev.block.headerHash] == prev
    requires ch == Path(blocks, prev.block.headerHash) && GoodBodies(c, ch)
    ensures Members(claims) == ExpectedRewards(ch) && Distinct(claims)
  {
    RewardsReady(c, ch);
    LastTxInTree(blocks, ch);
    HeaderValidation.TreeInView(blocks, prev.block.headerHash);
    var t := HeaderValidation.WalkToTransactionBlock(blocks, prev, ch);
    claims := ClaimsAfter(blocks, t.value, LastTx(ch));
  }

  /** The two rewards of a lower block are new to the list. */
  lemma {:induction false} AddPair(claims: seq<Coin>, b: FullBlock, high: int)
    requires b.height <= high && ClaimList(claims, b.height, high)
    ensures var more := claims + [PoolCoin(b), FarmerCoin(b, 0)];
            ClaimList(more, b.height - 1, high) && Members(more) == Members(claims) + {PoolCoin(b), FarmerCoin(b, 0)}
  {
    var p, f := PoolCoin(b), FarmerCoin(b, 0);
    assert claims + [p, f] == (claims + [p]) + [f];
    DistinctSnoc(claims, p);
    DistinctSnoc(claims + [p], f);
  }

  // ---------------------------------------------------------------- at the signage point

  /** What block creation fixes at the signage point, on top of the chain known then. */
  ghost predicate MadeOn(c: Consensus, ch: Chain, spTotalIters: int, foliage: Option<Foliage>,
                         info: Option<TransactionsInfo>) {
    && (foliage.Some? <==> IsTxOn(ch, spTotalIters)) && (info.Some? <==> foliage.Some?)
    && (foliage.Some? ==>
          && foliage.value.prevTransactionBlock == (if LastTx(ch).Empty? then c.genesisChallenge
            else LastTx(ch).top.block.headerHash)
          && Members(info.value.rewardClaims) == ExpectedRewards(ch) && Distinct(info.value.rewardClaims))
  }

  method CreateFoliage(c: Consensus, blocks: Blocks, prev: Option<BlockRecord>, spTotalIters: int, timestamp: nat,
                       fees: nat, cost: nat, ghost ch: Chain)
    returns (foliage: Option<Foliage>, info: Option<TransactionsInfo>)
    requires Closed(blocks) && GoodBodies(c, ch)
    requires prev.Some? ==> prev.value.block.headerHash in blocks && blocks[prev.value.block.headerHash] == prev.value
    requires ch == if prev.None? then Empty else Path(blocks, prev.value.block.headerHash)
    ensures MadeOn(c, ch, spTotalIters, foliage, info)
    ensures foliage.Some? ==> foliage.value.timestamp == timestamp && info.value.fees == fees && info.value.cost == cost
  {
    foliage, info := None, None;
    var isTx, prevTxHash, claims := true, c.genesisChallenge, [];
    if prev.Some? {
      var prevTx;
      isTx, prevTx := GetPrevTransactionBlock(c, blocks, prev.value, spTotalIters, ch);
      prevTxHash := prevTx.block.headerHash;
      if isTx { claims := BuildRewardClaims(c, blocks, prev.value, ch); }
    }
    if isTx {
      foliage := Some(Foliage(prevTxHash, timestamp));
      info := Some(TransactionsInfo(fees, cost, claims));
    }
  }

  /** The total iterations written at the signage point put signage and infusion point where they
      belong: the sub-slot of the signage point starts where the caller says it does. */
  lemma {:induction false} CreatedIters(c: Consensus, r: BlockRecord, start: nat)
    requires ValidConstants(c) && Placeable(c, r.subSlotIters, r.block.signagePointIndex, r.block.requiredIters)
    requires r.block.totalIters == start + Ip(c, r) + (if Sp(c, r) > Ip(c, r) then r.subSlotIters else 0)
    ensures SpSlotStart(c, r) == start && SpTotalIters(c, r) == start + Sp(c, r)
  {
    OverflowDefinitionsAgree(c, r.subSlotIters, r.block.signagePointIndex, r.block.requiredIters);
  }

  // ---------------------------------------------------------------- at the infusion point

  /** Everything infused since is infused at or after the signage point. */
  ghost predicate InfusedSince(before: Chain, now: Chain, spTotalIters: int)
    requires Numbered(now)
  {
    forall h: nat | Height(before) < h <= Height(now) :: At(now, h).block.totalIters >= spTotalIters
  }

  /** Reward claims made on one chain fit another chain that grew from it exactly when no transaction
      block has been added in between. */
  lemma {:induction false} ClaimsFit(c: Consensus, before: Chain, now: Chain)
    requires GoodBodies(c, now) && IsPrefix(before, now) && Numbered(now)
    ensures ExpectedRewards(before) == ExpectedRewards(now) <==> LastTx(before) == LastTx(now)
  {
    PrefixIsUpTo(before, now);
    BodiesCut(c, now, Height(before));
    if LastTx(before) != LastTx(now) {
      if Height(LastTx(now)) <= Height(before) { LastTxCut(before, now); }
      LastTxBelow(now);
      LastTxBelow(before);
      var x := PoolCoin(LastTx(now).top.block);
      assert x in ExpectedRewards(now);
      if x in ExpectedRewards(before) { ExpectedHeights(before, x); }
    }
  }

  /** A block that was made as a transaction block is still one on top of what has been infused
      since exactly when none of that is a transaction block; then its claims still fit. A block that
      was not made as one does not become one. */
  lemma {:induction false} StillTransactionBlock(c: Consensus, before: Chain, now: Chain, spTotalIters: int)
    requires ValidConstants(c) && FullyValid(c, now) && IsPrefix(before, now) && Numbered(now) && before.Snoc?
    requires InfusedSince(before, now, spTotalIters)
    ensures IsTxOn(now, spTotalIters) <==> IsTxOn(before, spTotalIters) && LastTx(before) == LastTx(now)
  {
    FullyValidIsValid(c, now);
    FullyValidBodies(c, now);
    PrefixIsUpTo(before, now);
    BodiesCut(c, now, Height(before));
    BodiesNumbered(c, now);
    BodiesNumbered(c, before);
    var t := LastTx(now);
    LastTxPrefix(now);
    if Height(t) <= Height(before) {
      LastTxCut(before, now);
    } else {
      PrefixIsUpTo(t, now);
      assert At(now, Height(t)) == t.top;
    }
  }

  /** Finishes a block on top of what is there at the infusion point. */
  method UnfinishedToFullBlock(c: Consensus, blocks: Blocks, u: FullBlock, prev: Option<BlockRecord>,
                               finishedSubSlots: seq<SubSlot>, spTotalIters: int, difficulty: nat, ghost before: Chain,
                               ghost now: Chain)
                               returns (b: FullBlock)
    requires ValidConstants(c) && Closed(blocks) && FullyValid(c, now) && Numbered(now)
    requires prev.Some? ==> prev.value.block.headerHash in blocks && blocks[prev.value.block.headerHash] == prev.value
    requires now == if prev.None? then Empty else Path(blocks, prev.value.block.headerHash)
    requires IsPrefix(before, now) && (before.Empty? ==> now.Empty?) && InfusedSince(before, now, spTotalIters)
    requires MadeOn(c, before, spTotalIters, u.foliage, u.info)
             && (now.Empty? ==> u.height == 0 && u.prevHash == c.genesisChallenge)
    ensures b.height == Height(now) + 1 && b.weight == (if now.Empty? then 0 else now.top.block.weight) + difficulty
    ensures b.prevHash == if now.Empty? then c.genesisChallenge else now.top.block.headerHash
    ensures b.finishedSubSlots == finishedSubSlots && b.totalIters == u.totalIters
    ensures b.signagePointIndex == u.signagePointIndex && b.posChallenge == u.posChallenge
            && b.requiredIters == u.requiredIters && b.ccOutput == u.ccOutput && b.rewardChallenge == u.rewardChallenge
            && b.poolPuzzleHash == u.poolPuzzleHash && b.farmerPuzzleHash == u.farmerPuzzleHash
    ensures MadeOn(c, now, spTotalIters, b.foliage, b.info)
    ensures b.foliage.Some? ==>
        b.foliage == u.foliage && b.info == u.info && b.generator == u.generator && b.generatorRefs == u.generatorRefs
    ensures b.foliage.None? ==> b.generator.None? && b.generatorRefs == []
  {
    b := u.(finishedSubSlots := finishedSubSlots);
    if prev.None? {
      b := b.(weight := difficulty);
    } else {
      FullyValidBodies(c, now);
      var isTx, _ := GetPrevTransactionBlock(c, blocks, prev.value, spTotalIters, now);
      StillTransactionBlock(c, before, now, spTotalIters);
      ClaimsFit(c, before, now);
      b := b.(weight := prev.value.block.weight + difficulty, height := prev.value.block.height + 1,
        prevHash := prev.value.block.headerHash);
      if !isTx { b := b.(foliage := None, info := None, generator := None, generatorRefs := []); }
    }
  }
}
