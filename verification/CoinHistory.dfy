/**
  What every valid chain keeps about its coins: where each row of the coin table comes from,
  that no coin is ever added twice, and that rolling back is the same as never having gone on.
 */
module CoinHistory {
  import opened Types
  import opened Chains
  import opened HeaderRules
  import opened CoinSet

  /** The part of chain validity that the coin set depends on. */
  ghost predicate GoodBodies(c: Consensus, ch: Chain) {
    ch.Snoc? ==>
      && GoodBodies(c, ch.prev)
      && ch.top.block.height == Height(ch.prev) + 1
      && (ch.prev.Empty? ==> ch.top.IsTransactionBlock())
      && BodyOk(c, ch.prev, ch.top.block)
  }

  lemma {:induction false} FullyValidBodies(c: Consensus, ch: Chain)
    requires ValidConstants(c) && FullyValid(c, ch)
    ensures GoodBodies(c, ch)
  {
    if ch.Snoc? { FullyValidBodies(c, ch.prev); }
  }

  lemma {:induction false} BodiesNumbered(c: Consensus, ch: Chain)
    requires GoodBodies(c, ch)
    ensures Numbered(ch) && -1 <= Height(ch)
    ensures ch.Snoc? ==> LastTx(ch).Snoc? && 0 <= Height(LastTx(ch)) <= Height(ch)
  {
    if ch.Snoc? { BodiesNumbered(c, ch.prev); }
  }

  lemma {:induction false} BodiesCut(c: Consensus, ch: Chain, h: int)
    requires GoodBodies(c, ch)
    ensures GoodBodies(c, UpTo(ch, h))
  {
    if ch.Snoc? && ch.top.block.height > h { BodiesCut(c, ch.prev, h); }
  }

  lemma {:induction false} LastTxBodies(c: Consensus, ch: Chain)
    requires GoodBodies(c, ch)
    ensures GoodBodies(c, LastTx(ch))
    ensures LastTx(ch).Snoc? ==> LastTx(ch).top.IsTransactionBlock()
  {
    if ch.Snoc? && !ch.top.IsTransactionBlock() { LastTxBodies(c, ch.prev); }
  }

  // ---------------------------------------------------------------- rewards

  /** Height up to which all block rewards have been paid out. */
  function PaidUpTo(ch: Chain): int {
    var t := LastTx(ch);
    if t.Empty? then -1 else Height(LastTx(t.prev))
  }

  predicate RewardOf(x: Coin, low: int, high: int) {
    !x.parent.SpentCoin? && low < x.parent.height <= high
  }

  lemma {:induction false} RewardsBelowHeights(ch: Chain, x: Coin)
    requires Numbered(ch) && x in RewardsBelow(ch)
    ensures RewardOf(x, Height(LastTx(ch)), Height(ch))
  {
    if x in RewardsBelow(ch.prev) { RewardsBelowHeights(ch.prev, x); }
    else { LastTxBelow(ch.prev); }
  }

  lemma {:induction false} LastTxBelow(ch: Chain)
    requires Numbered(ch)
    ensures -1 <= Height(LastTx(ch)) <= Height(ch) && Numbered(LastTx(ch))
  {
    if ch.Snoc? { LastTxBelow(ch.prev); }
  }

  /** A transaction block claims the rewards of the heights since the last claim. */
  lemma {:induction false} ExpectedHeights(ch: Chain, x: Coin)
    requires Numbered(ch) && x in ExpectedRewards(ch)
    ensures RewardOf(x, PaidUpTo(ch), Height(LastTx(ch)))
  {
    LastTxBelow(ch);
    var t := LastTx(ch);
    LastTxBelow(t.prev);
    if x in RewardsBelow(t.prev) { RewardsBelowHeights(t.prev, x); }
  }

  // ---------------------------------------------------------------- additions and removals

  lemma {:induction false} CreatedParent(parent: Coin, created: seq<NewCoin>, x: Coin)
    requires x in Created(parent, created)
    ensures x.parent == SpentCoin(parent)
  {
    var n := created[|created| - 1];
    if x != Coin(SpentCoin(parent), n.puzzleHash, n.amount) { CreatedParent(parent, created[..|created| - 1], x); }
  }

  /** Whatever a block creates descends from a coin that it spends. */
  lemma {:induction false} AdditionParent(spends: seq<Spend>, x: Coin)
    requires x in Additions(spends)
    ensures x.parent.SpentCoin? && x.parent.coin in Removals(spends)
  {
    var s := spends[|spends| - 1];
    if x in Created(s.coin, s.created) { CreatedParent(s.coin, s.created, x); }
    else { AdditionParent(spends[..|spends| - 1], x); }
  }

  // ---------------------------------------------------------------- where rows come from

  /** What is known of a row of the coin table. */
  ghost predicate Recorded(ch: Chain, coins: Coins, x: Coin)
    requires x in coins
  {
    && coins[x].confirmed <= Height(ch) && coins[x].spent <= Height(ch)
    && (coins[x].spent > 0 ==> coins[x].confirmed <= coins[x].spent)
    && if x.parent.SpentCoin? then
         && x.parent.coin in coins
         && coins[x.parent.coin].spent == coins[x].confirmed > 0
       else x.parent.height <= PaidUpTo(ch)
  }

  ghost predicate Explained(ch: Chain, coins: Coins) {
    forall x | x in coins :: Recorded(ch, coins, x)
  }

  /** What a block adds: its rewards and what its spends create. */
  function Added(c: Consensus, ch: Chain, b: FullBlock): seq<Coin> {
    Additions(Spends(c, ch, b)) + b.IncludedRewardCoins()
  }

  function Spent(c: Consensus, ch: Chain, b: FullBlock): seq<Coin> {
    Removals(Spends(c, ch, b))
  }

  /** What a valid transaction block tells about the coins it touches. */
  lemma {:induction false} BodyFacts(c: Consensus, ch: Chain, b: FullBlock, x: Coin)
    requires BodyOk(c, ch, b) && b.foliage.Some?
    ensures x in b.IncludedRewardCoins() <==> x in ExpectedRewards(ch)
    ensures x in Spent(c, ch, b) ==> x in Added(c, ch, b) || (x in Replay(c, ch) && Replay(c, ch)[x].spent == 0)
    ensures x in Additions(Spends(c, ch, b)) ==> x.parent.SpentCoin? && x.parent.coin in Spent(c, ch, b)
    ensures x in Added(c, ch, b) <==> x in Additions(Spends(c, ch, b)) || x in b.IncludedRewardCoins()
  {
    var spends := Spends(c, ch, b);
    assert b.IncludedRewardCoins() == b.info.value.rewardClaims;
    assert x in Members(b.info.value.rewardClaims) <==> x in b.info.value.rewardClaims;
    if x in Additions(spends) { AdditionParent(spends, x); }
    if x in Removals(spends) { assert Spendable(Replay(c, ch), Added(c, ch, b), x); }
  }

  /** No coin that a valid block adds has ever been in the coin table of its ancestors. */
  lemma {:induction false} AddedIsNew(c: Consensus, ch: Chain, b: FullBlock, x: Coin)
    requires Numbered(ch) && Explained(ch, Replay(c, ch))
    requires BodyOk(c, ch, b) && b.foliage.Some? && x in Added(c, ch, b)
    ensures x !in Replay(c, ch)
    decreases x
  {
    BodyFacts(c, ch, b, x);
    var coins := Replay(c, ch);
    if x in coins {
      assert Recorded(ch, coins, x);
      if x in b.IncludedRewardCoins() {
        ExpectedHeights(ch, x);
      } else {
        var p := x.parent.coin;
        BodyFacts(c, ch, b, p);
        if p in Added(c, ch, b) { AddedIsNew(c, ch, b, p); }
      }
    }
  }

  /** Genesis neither spends nor creates coins, although its body rules do not say so. */
  lemma {:induction false} GenesisSpendsNothing(c: Consensus, b: FullBlock, x: Coin)
    requires BodyOk(c, Empty, b) && b.foliage.Some?
    ensures x !in Spent(c, Empty, b) && x !in Added(c, Empty, b)
    decreases x
  {
    BodyFacts(c, Empty, b, x);
    if x in Spent(c, Empty, b) || x in Added(c, Empty, b) {
      if x in Additions(Spends(c, Empty, b)) { GenesisSpendsNothing(c, b, x.parent.coin); }
    }
  }

  // ---------------------------------------------------------------- one block

  /** What a transaction block does to the row of one coin. */
  ghost predicate RowStep(coins: Coins, next: Coins, height: nat, timestamp: nat, added: seq<Coin>, spent: seq<Coin>,
                          x: Coin) {
    && (x in next <==> x in coins || x in added)
    && !(x in coins && x in added)
    && (x in spent ==> x in next)
    && (x in next ==> next[x].spent == if x in spent then height else if x in coins then coins[x].spent else 0)
    && (x in added ==>
          next[x].confirmed == height && next[x].timestamp == timestamp && next[x].coinbase == !x.parent.SpentCoin?)
    && (x in coins ==> next[x] == coins[x].(spent := next[x].spent) && (x in spent ==> coins[x].spent == 0))
  }

  /** One coin table leads to the next by a transaction block. */
  ghost predicate TableStep(coins: Coins, next: Coins, height: nat, timestamp: nat, added: seq<Coin>,
                            spent: seq<Coin>) {
    forall x :: RowStep(coins, next, height, timestamp, added, spent, x)
  }

  lemma {:induction false} ExtendStep(c: Consensus, ch: Chain, b: FullBlock)
    requires Numbered(ch) && Explained(ch, Replay(c, ch)) && BodyOk(c, ch, b) && b.foliage.Some?
    ensures TableStep(Replay(c, ch), Extend(c, ch, Replay(c, ch), b), b.height, b.foliage.value.timestamp,
                      Added(c, ch, b), Spent(c, ch, b))
  {
    var next := Extend(c, ch, Replay(c, ch), b);
    forall x ensures RowStep(Replay(c, ch), next, b.height, b.foliage.value.timestamp, Added(c, ch, b),
        Spent(c, ch, b), x) {
      BodyFacts(c, ch, b, x);
      if x in Added(c, ch, b) { AddedIsNew(c, ch, b, x); }
      if x in b.IncludedRewardCoins() { ExpectedHeights(ch, x); }
    }
  }

  // ---------------------------------------------------------------- every valid chain

  lemma {:induction false} AddedRow(c: Consensus, ch: Chain, x: Coin)
    requires GoodBodies(c, ch) && ch.Snoc? && ch.top.IsTransactionBlock()
    requires x in Added(c, ch.prev, ch.top.block)
    ensures if x.parent.SpentCoin? then x.parent.coin in Spent(c, ch.prev, ch.top.block) && ch.top.block.height > 0
            else x.parent.height <= PaidUpTo(ch)
  {
    BodiesNumbered(c, ch);
    BodyFacts(c, ch.prev, ch.top.block, x);
    if x in ch.top.block.IncludedRewardCoins() { ExpectedHeights(ch.prev, x); }
    else if ch.prev.Empty? { GenesisSpendsNothing(c, ch.top.block, x); }
  }

  lemma {:induction false} PaidGrows(ch: Chain)
    requires Numbered(ch) && ch.Snoc?
    ensures PaidUpTo(ch.prev) <= PaidUpTo(ch)
  {
    LastTxBelow(ch.prev);
    if LastTx(ch.prev).Snoc? { LastTxBelow(LastTx(ch.prev).prev); }
  }

  lemma {:induction false} ExplainedStep(c: Consensus, ch: Chain, coins: Coins, next: Coins)
    requires GoodBodies(c, ch) && ch.Snoc? && ch.top.IsTransactionBlock() && Explained(ch.prev, coins)
    requires TableStep(coins, next, ch.top.block.height, ch.top.block.foliage.value.timestamp,
                       Added(c, ch.prev, ch.top.block), Spent(c, ch.prev, ch.top.block))
    ensures Explained(ch, next)
  {
    var b := ch.top.block;
    var added, spent := Added(c, ch.prev, b), Spent(c, ch.prev, b);
    BodiesNumbered(c, ch);
    PaidGrows(ch);
    forall x | x in next ensures Recorded(ch, next, x) {
      assert RowStep(coins, next, b.height, b.foliage.value.timestamp, added, spent, x);
      if x in coins { assert Recorded(ch.prev, coins, x); }
      if x in added { AddedRow(c, ch, x); }
      if x.parent.SpentCoin? {
        assert RowStep(coins, next, b.height, b.foliage.value.timestamp, added, spent, x.parent.coin);
      }
    }
  }

  /** Every row of every valid chain is explained: a created coin by a coin spent in the same
      block, a reward by a height already paid. */
  lemma {:induction false} ReplayExplained(c: Consensus, ch: Chain)
    requires GoodBodies(c, ch)
    ensures Explained(ch, Replay(c, ch))
  {
    if ch.Snoc? {
      ReplayExplained(c, ch.prev);
      if ch.top.IsTransactionBlock() {
        BodiesNumbered(c, ch);
        ExtendStep(c, ch.prev, ch.top.block);
        ExplainedStep(c, ch, Replay(c, ch.prev), Replay(c, ch));
      } else {
        forall x | x in Replay(c, ch) ensures Recorded(ch, Replay(c, ch), x) {
          assert Recorded(ch.prev, Replay(c, ch.prev), x);
        }
      }
    }
  }

  /** A coin once added stays in the coin table. */
  lemma {:induction false} StaysKnown(c: Consensus, ch: Chain, i: nat, x: Coin)
    requires GoodBodies(c, ch) && Numbered(ch) && i <= Height(ch)
    requires At(ch, i).IsTransactionBlock() && x in Added(c, UpTo(ch, i - 1), At(ch, i).block)
    ensures x in Replay(c, ch)
  {
    ReplayExplained(c, ch.prev);
    if ch.top.IsTransactionBlock() { ExtendStep(c, ch.prev, ch.top.block); }
    if i == Height(ch) {
      assert UpTo(ch, i - 1) == ch.prev;
    } else {
      StaysKnown(c, ch.prev, i, x);
    }
    if ch.top.IsTransactionBlock() {
      assert RowStep(Replay(c, ch.prev), Replay(c, ch), ch.top.block.height, ch.top.block.foliage.value.timestamp,
                     Added(c, ch.prev, ch.top.block), Spent(c, ch.prev, ch.top.block), x);
    }
  }

  /** No coin is added by two blocks of a valid chain. */
  lemma {:induction false} AddedOnce(c: Consensus, ch: Chain, i: nat, j: nat, x: Coin)
    requires GoodBodies(c, ch) && Numbered(ch) && i < j <= Height(ch)
    requires At(ch, i).IsTransactionBlock() && At(ch, j).IsTransactionBlock()
    requires x in Added(c, UpTo(ch, i - 1), At(ch, i).block)
    ensures x !in Added(c, UpTo(ch, j - 1), At(ch, j).block)
  {
    if j < Height(ch) {
      AddedOnce(c, ch.prev, i, j, x);
    } else {
      assert UpTo(ch, j - 1) == ch.prev;
      StaysKnown(c, ch.prev, i, x);
      ReplayExplained(c, ch.prev);
      if x in Added(c, ch.prev, ch.top.block) { AddedIsNew(c, ch.prev, ch.top.block, x); }
    }
  }

  /** A coin once spent stays spent at that height. */
  lemma {:induction false} StaysSpent(c: Consensus, ch: Chain, i: nat, x: Coin)
    requires GoodBodies(c, ch) && Numbered(ch) && i <= Height(ch)
    requires At(ch, i).IsTransactionBlock() && x in Spent(c, UpTo(ch, i - 1), At(ch, i).block)
    ensures i > 0 && x in Replay(c, ch) && Replay(c, ch)[x].spent == i
  {
    ReplayExplained(c, ch.prev);
    if ch.top.IsTransactionBlock() { ExtendStep(c, ch.prev, ch.top.block); }
    if i == Height(ch) {
      assert UpTo(ch, i - 1) == ch.prev;
      if ch.prev.Empty? { GenesisSpendsNothing(c, ch.top.block, x); }
      NumberedHeight(ch.prev);
    } else {
      StaysSpent(c, ch.prev, i, x);
    }
    if ch.top.IsTransactionBlock() {
      assert RowStep(Replay(c, ch.prev), Replay(c, ch), ch.top.block.height, ch.top.block.foliage.value.timestamp,
                     Added(c, ch.prev, ch.top.block), Spent(c, ch.prev, ch.top.block), x);
    }
  }

  /** No coin is spent by two blocks of a valid chain. */
  lemma {:induction false} SpentOnce(c: Consensus, ch: Chain, i: nat, j: nat, x: Coin)
    requires GoodBodies(c, ch) && Numbered(ch) && i < j <= Height(ch)
    requires At(ch, i).IsTransactionBlock() && At(ch, j).IsTransactionBlock()
    requires x in Spent(c, UpTo(ch, i - 1), At(ch, i).block)
    ensures x !in Spent(c, UpTo(ch, j - 1), At(ch, j).block)
  {
    UpToReaches(ch, j);
    BodiesCut(c, ch, j);
    BodiesCut(c, ch, j - 1);
    if x in Spent(c, UpTo(ch, j - 1), At(ch, j).block) {
      StaysSpent(c, ch, i, x);
      StaysSpent(c, ch, j, x);
    }
  }

  // ---------------------------------------------------------------- rollback

  lemma {:induction false} RollbackStep(coins: Coins, next: Coins, height: nat, timestamp: nat, added: seq<Coin>,
                                        spent: seq<Coin>, h: int)
    requires TableStep(coins, next, height, timestamp, added, spent) && height > h
    ensures Rollback(next, h) == Rollback(coins, h)
  {
    var after, before := Rollback(next, h), Rollback(coins, h);
    forall x: Coin
      ensures x in after <==> x in before
      ensures x in after ==> after[x] == before[x]
    {
      assert RowStep(coins, next, height, timestamp, added, spent, x);
    }
  }

  lemma {:induction false} RollbackNothing(ch: Chain, coins: Coins, h: int)
    requires Explained(ch, coins) && Height(ch) <= h
    ensures Rollback(coins, h) == coins
  {
    forall x | x in coins ensures coins[x].confirmed <= h && coins[x].spent <= h { assert Recorded(ch, coins, x); }
  }

  /** Rolling the coin table back to a height is the same as replaying the chain only so far. */
  lemma {:induction false} RollbackIsReplay(c: Consensus, ch: Chain, h: int)
    requires GoodBodies(c, ch)
    ensures Rollback(Replay(c, ch), h) == Replay(c, UpTo(ch, h))
  {
    if ch.Snoc? && ch.top.block.height > h {
      if ch.top.IsTransactionBlock() {
        BodiesNumbered(c, ch);
        ReplayExplained(c, ch.prev);
        var b := ch.top.block;
        ExtendStep(c, ch.prev, b);
        RollbackStep(Replay(c, ch.prev), Replay(c, ch), b.height, b.foliage.value.timestamp, Added(c, ch.prev, b),
                     Spent(c, ch.prev, b), h);
      }
      RollbackIsReplay(c, ch.prev, h);
    } else if ch.Snoc? {
      ReplayExplained(c, ch);
      RollbackNothing(ch, Replay(c, ch), h);
    }
  }
}
