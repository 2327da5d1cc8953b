/**
  Rewards and supply: every height is paid exactly once, and apart from rewards no value
  enters or leaves the coin set.
 */
module Supply {
  import opened Types
  import opened Chains
  import opened HeaderRules
  import opened CoinSet
  import opened CoinHistory

  // ---------------------------------------------------------------- who is paid

  /** The reward coin of a block for one of its two reward parents. */
  function RewardCoin(p: Parent, b: FullBlock): Coin {
    if p.PoolReward? then PoolCoin(b) else FarmerCoin(b, FeesOf(b))
  }

  /** A coin is one of the rewards of the heights above low, up to high, of a chain. */
  ghost predicate PaysHeight(ch: Chain, low: int, high: int, x: Coin)
    requires Numbered(ch) && high <= Height(ch)
  {
    && RewardOf(x, low, high)
    && x == RewardCoin(x.parent, At(ch, x.parent.height).block)
  }

  /** A reward goes to the puzzle hash that the block of its height names: seven eighths of what the height issues to
      the pool's, one eighth and the fees of the block to the farmer's. */
  lemma {:induction false} RewardMeans(ch: Chain, low: int, high: int, x: Coin)
    requires Numbered(ch) && -1 <= low && high <= Height(ch)
    ensures PaysHeight(ch, low, high, x) <==>
              && !x.parent.SpentCoin? && low < x.parent.height <= high
              && var b := At(ch, x.parent.height).block;
              if x.parent.PoolReward? then
                x.puzzleHash == b.poolPuzzleHash && 8 * x.amount == 7 * BaseReward(x.parent.height)
              else
                x.puzzleHash == b.farmerPuzzleHash && 8 * x.amount == BaseReward(x.parent.height) + 8 * FeesOf(b)
  {
    if RewardOf(x, low, high) {
      UpToReaches(ch, x.parent.height);
      AtHeight(ch, x.parent.height);
    }
  }

  lemma {:induction false} AtHeight(ch: Chain, h: nat)
    requires Numbered(ch) && h <= Height(ch)
    ensures At(ch, h).block.height == h
  {
    UpToReaches(ch, h);
  }

  lemma {:induction false} LastTxPrefix(ch: Chain)
    requires Numbered(ch)
    ensures IsPrefix(LastTx(ch), ch)
  {
    if ch.Snoc? && !ch.top.IsTransactionBlock() { LastTxPrefix(ch.prev); }
  }

  lemma {:induction false} AtPrefix(a: Chain, ch: Chain, h: nat)
    requires Numbered(ch) && Numbered(a) && IsPrefix(a, ch) && h <= Height(a) <= Height(ch)
    ensures At(a, h) == At(ch, h)
  {
    PrefixIsUpTo(a, ch);
    UpToUpTo(ch, Height(a), h);
  }

  lemma {:induction false} RewardsBelowExact(c: Consensus, ch: Chain, x: Coin)
    requires GoodBodies(c, ch) && Numbered(ch)
    ensures x in RewardsBelow(ch) <==> PaysHeight(ch, Height(LastTx(ch)), Height(ch), x)
  {
    LastTxBelow(ch);
    if ch.Snoc? && !ch.top.IsTransactionBlock() {
      RewardsBelowExact(c, ch.prev, x);
      LastTxBelow(ch.prev);
      if RewardOf(x, -1, Height(ch.prev)) { AtPrefix(ch.prev, ch, x.parent.height); }
    }
  }

  /** A transaction block must claim exactly the rewards of the heights not yet paid, up to and
      including the previous transaction block. */
  lemma {:induction false} ExpectedExact(c: Consensus, ch: Chain, x: Coin)
    requires GoodBodies(c, ch) && Numbered(ch) && Height(LastTx(ch)) <= Height(ch)
    ensures x in ExpectedRewards(ch) <==> PaysHeight(ch, PaidUpTo(ch), Height(LastTx(ch)), x)
  {
    var t := LastTx(ch);
    LastTxBelow(ch);
    LastTxPrefix(ch);
    LastTxBodies(c, ch);
    if t.Snoc? {
      BodiesNumbered(c, t);
      LastTxBelow(t.prev);
      RewardsBelowExact(c, t.prev, x);
      if RewardOf(x, -1, Height(t)) {
        AtPrefix(t, ch, x.parent.height);
        if x.parent.height < Height(t) { AtPrefix(t.prev, t, x.parent.height); }
      }
    }
  }

  /** In every valid chain the rewards of a height are paid exactly once, in full and to the right
      puzzle hashes: a reward coin is in the coin table if and only if it is the reward of a height
      that a transaction block has already claimed. */
  lemma {:induction false} RewardsPaidOnce(c: Consensus, ch: Chain, x: Coin)
    requires GoodBodies(c, ch) && Numbered(ch) && PaidUpTo(ch) <= Height(ch) && !x.parent.SpentCoin?
    ensures x in Replay(c, ch) <==> PaysHeight(ch, -1, PaidUpTo(ch), x)
  {
    if ch.Snoc? {
      PaidBelow(ch.prev);
      RewardsPaidOnce(c, ch.prev, x);
      if RewardOf(x, -1, Height(ch.prev)) { AtPrefix(ch.prev, ch, x.parent.height); }
      if ch.top.IsTransactionBlock() {
        LastTxBelow(ch.prev);
        ExpectedExact(c, ch.prev, x);
        BodyFacts(c, ch.prev, ch.top.block, x);
        ReplayExplained(c, ch.prev);
        ExtendStep(c, ch.prev, ch.top.block);
        assert RowStep(Replay(c, ch.prev), Replay(c, ch), ch.top.block.height, ch.top.block.foliage.value.timestamp,
                       Added(c, ch.prev, ch.top.block), Spent(c, ch.prev, ch.top.block), x);
      }
    }
  }

  lemma {:induction false} PaidBelow(ch: Chain)
    requires Numbered(ch)
    ensures -1 <= PaidUpTo(ch) <= Height(LastTx(ch)) <= Height(ch)
  {
    LastTxBelow(ch);
    if LastTx(ch).Snoc? { LastTxBelow(LastTx(ch).prev); }
  }

  // ---------------------------------------------------------------- how much there is

  /** Total amount of a set of coins. */
  ghost function Value(s: set<Coin>): nat {
    if s == {} then 0 else var x :| x in s; x.amount + Value(s - {x})
  }

  lemma {:induction false} ValueRemove(s: set<Coin>, x: Coin)
    requires x in s
    ensures Value(s) == x.amount + Value(s - {x})
    decreases s
  {
    var y :| y in s && Value(s) == y.amount + Value(s - {y});
    if y != x {
      ValueRemove(s - {y}, x);
      ValueRemove(s - {x}, y);
      assert s - {y} - {x} == s - {x} - {y};
    }
  }

  lemma {:induction false} ValueUnion(a: set<Coin>, b: set<Coin>)
    requires a !! b
    ensures Value(a + b) == Value(a) + Value(b)
    decreases a
  {
    if a == {} {
      assert a + b == b;
    } else {
      var x :| x in a;
      ValueRemove(a, x);
      ValueRemove(a + b, x);
      assert a + b - {x} == (a - {x}) + b;
      ValueUnion(a - {x}, b);
    }
  }

  lemma {:induction false} ValueOfSeq(xs: seq<Coin>)
    requires Distinct(xs)
    ensures Value(Members(xs)) == Sum(xs)
  {
    if xs != [] {
      var init, last := xs[..|xs| - 1], xs[|xs| - 1];
      ValueOfSeq(init);
      assert Members(xs) - {last} == Members(init);
      ValueRemove(Members(xs), last);
    }
  }

  lemma {:induction false} SumConcat(xs: seq<Coin>, ys: seq<Coin>)
    ensures Sum(xs + ys) == Sum(xs) + Sum(ys)
  {
    if ys == [] {
      assert xs + ys == xs;
    } else {
      assert (xs + ys)[..|xs + ys| - 1] == xs + ys[..|ys| - 1];
      SumConcat(xs, ys[..|ys| - 1]);
    }
  }

  function Unspent(coins: Coins): set<Coin> {
    set x | x in coins && coins[x].spent == 0
  }

  lemma {:induction false} UnspentStep(coins: Coins, next: Coins, height: nat, timestamp: nat, added: seq<Coin>,
                                       spent: seq<Coin>)
    requires TableStep(coins, next, height, timestamp, added, spent) && height > 0
    ensures Unspent(coins) !! Members(added)
    ensures Members(spent) <= Unspent(coins) + Members(added)
    ensures Unspent(next) == Unspent(coins) + Members(added) - Members(spent)
  {
    forall x: Coin
      ensures x in coins ==> x !in added
      ensures x in spent ==> x in Unspent(coins) || x in added
      ensures x in Unspent(next) <==> (x in Unspent(coins) || x in added) && x !in spent
    {
      assert RowStep(coins, next, height, timestamp, added, spent, x);
    }
  }

  /** One block changes the total by what it adds less what it spends. */
  lemma {:induction false} ValueStep(coins: Coins, next: Coins, height: nat, timestamp: nat, added: seq<Coin>,
                                     spent: seq<Coin>)
    requires TableStep(coins, next, height, timestamp, added, spent) && height > 0
    requires Distinct(added) && Distinct(spent)
    ensures Value(Unspent(next)) + Sum(spent) == Value(Unspent(coins)) + Sum(added)
  {
    UnspentStep(coins, next, height, timestamp, added, spent);
    var all := Unspent(coins) + Members(added);
    ValueUnion(Unspent(coins), Members(added));
    ValueUnion(Unspent(next), Members(spent));
    assert Unspent(next) + Members(spent) == all;
    ValueOfSeq(added);
    ValueOfSeq(spent);
  }

  /** What one height issues: one part to the farmer, seven to the pool. */
  function BaseReward(h: nat): (r: nat)
    ensures r == 8 * CalculateBaseFarmerReward(h)
  {
    CalculatePoolReward(h) + CalculateBaseFarmerReward(h)
  }

  /** What the heights up to h issue together. */
  function Issued(h: int): nat
    decreases h + 1
  {
    if h < 0 then 0 else Issued(h - 1) + BaseReward(h)
  }

  /** The schedule: twenty-one million coins with the first block, then two coins with each block, and half as much
      after every three years of 1_681_920 blocks, four times. */
  lemma {:induction false} IssuedSchedule(h: nat)
    ensures h < 5_045_760 ==> Issued(h) == (21_000_000 + 2 * h) * 1_000_000_000_000
    ensures 5_045_760 <= h < 10_091_520 ==> Issued(h) == (31_091_518 + (h - 5_045_759)) * 1_000_000_000_000
    ensures 10_091_520 <= h < 15_137_280 ==> Issued(h) == (2 * 36_137_278 + (h - 10_091_519)) * 500_000_000_000
    ensures 15_137_280 <= h < 20_183_040 ==> Issued(h) == (4 * 38_660_158 + (h - 15_137_279)) * 250_000_000_000
    ensures 20_183_040 <= h ==> Issued(h) == (8 * 39_921_598 + (h - 20_183_039)) * 125_000_000_000
  {
    if h == 0 {
      assert Issued(-1) == 0;
    } else {
      IssuedSchedule(h - 1);
    }
  }

  lemma {:induction false} RewardsBelowValue(c: Consensus, ch: Chain)
    requires GoodBodies(c, ch)
    ensures Value(RewardsBelow(ch)) + Issued(Height(LastTx(ch))) == Issued(Height(ch))
  {
    if ch.Snoc? && !ch.top.IsTransactionBlock() {
      RewardsBelowValue(c, ch.prev);
      PairValue(c, ch.prev, ch.top.block, 0);
    }
  }

  lemma {:induction false} PairValue(c: Consensus, below: Chain, b: FullBlock, fees: nat)
    requires GoodBodies(c, below) && b.height == Height(below) + 1
    ensures Value({PoolCoin(b), FarmerCoin(b,
        fees)} + RewardsBelow(below)) == BaseReward(b.height) + fees + Value(RewardsBelow(below))
  {
    BodiesNumbered(c, below);
    var p, f, rest := PoolCoin(b), FarmerCoin(b, fees), RewardsBelow(below);
    if p in rest { RewardsBelowHeights(below, p); }
    if f in rest { RewardsBelowHeights(below, f); }
    ValueRemove({p, f} + rest, p);
    assert {p, f} + rest - {p} == {f} + rest;
    ValueRemove({f} + rest, f);
    assert {f} + rest - {f} == rest;
  }

  /** What a transaction block must claim: the base rewards since the last claim, and the fees of
      the previous transaction block. */
  lemma {:induction false} ExpectedValue(c: Consensus, ch: Chain)
    requires GoodBodies(c, ch) && ch.Snoc?
    ensures LastTx(ch).Snoc?
    ensures Value(ExpectedRewards(ch)) + Issued(PaidUpTo(ch))
         == Issued(Height(LastTx(ch))) + FeesOf(LastTx(ch).top.block)
  {
    BodiesNumbered(c, ch);
    LastTxBodies(c, ch);
    var t := LastTx(ch);
    PairValue(c, t.prev, t.top.block, FeesOf(t.top.block));
    RewardsBelowValue(c, t.prev);
  }

  lemma {:induction false} HasMember(xs: seq<Coin>)
    ensures xs != [] ==> exists x :: x in xs
  {
    if xs != [] { assert xs[0] in xs; }
  }

  lemma {:induction false} GenesisValue(c: Consensus, b: FullBlock)
    requires BodyOk(c, Empty, b) && b.foliage.Some?
    ensures Unspent(Extend(c, Empty, map[], b)) == {} && FeesOf(b) == 0
  {
    forall x ensures x !in Spent(c, Empty, b) && x !in Added(c, Empty, b) { GenesisSpendsNothing(c, b, x); }
    HasMember(Spent(c, Empty, b));
    HasMember(Added(c, Empty, b));
    assert Additions(Spends(c, Empty, b)) == [];
  }

  /** The claims of a block and the fees it declares, as amounts. */
  lemma {:induction false} BlockAmounts(c: Consensus, ch: Chain, b: FullBlock)
    requires BodyOk(c, ch, b) && b.foliage.Some?
    ensures Distinct(Added(c, ch, b)) && Distinct(Spent(c, ch, b))
    ensures Sum(Added(c, ch, b)) + FeesOf(b) == Sum(Spent(c, ch, b)) + Value(ExpectedRewards(ch))
  {
    var claims := b.info.value.rewardClaims;
    SumConcat(Additions(Spends(c, ch, b)), claims);
    ValueOfSeq(claims);
  }

  /** Supply: in every valid chain the unspent coins, together with the fees that the last
      transaction block collected and nobody has been paid yet, amount to exactly what the heights
      paid so far have issued. */
  lemma {:induction false} SupplyConserved(c: Consensus, ch: Chain)
    requires GoodBodies(c, ch) && ch.Snoc?
    ensures LastTx(ch).Snoc?
    ensures Value(Unspent(Replay(c, ch))) + FeesOf(LastTx(ch).top.block) == Issued(PaidUpTo(ch))
  {
    BodiesNumbered(c, ch);
    var b := ch.top.block;
    if !ch.top.IsTransactionBlock() {
      SupplyConserved(c, ch.prev);
    } else if ch.prev.Empty? {
      GenesisValue(c, b);
    } else {
      SupplyConserved(c, ch.prev);
      ReplayExplained(c, ch.prev);
      ExtendStep(c, ch.prev, b);
      BlockAmounts(c, ch.prev, b);
      ValueStep(Replay(c, ch.prev), Replay(c, ch), b.height, b.foliage.value.timestamp, Added(c, ch.prev, b),
        Spent(c, ch.prev, b));
      ExpectedValue(c, ch.prev);
    }
  }
}
