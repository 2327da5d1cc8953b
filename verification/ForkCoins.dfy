/**
  Spending on a fork. The coin table holds the coins of the main chain only; a block on another
  branch is checked against that table, cut at the fork point, and against what its own branch
  has added and spent since.
 */
module ForkCoins {
  import opened Types
  import opened Chains
  import opened CoinSet
  import opened CoinHistory
  import opened ForkPoint

  /** What a branch has done since the fork: coins added with height and time, and coins spent. */
  datatype Delta = Delta(added: map<Coin, (nat, nat)>, spent: set<Coin>)

  /** Coins with the height and time at which they were added. */
  function Dated(xs: seq<Coin>, height: nat, timestamp: nat): (m: map<Coin, (nat, nat)>)
    ensures forall x :: x in m <==> x in xs
    ensures forall x | x in m :: m[x] == (height, timestamp)
  {
    if xs == [] then map[] else Dated(xs[..|xs| - 1], height, timestamp)[xs[|xs| - 1] := (height, timestamp)]
  }

  /** One more block of the branch. */
  function AddBlock(c: Consensus, ch: Chain, d: Delta, b: FullBlock): Delta {
    if b.foliage.None? then d
    else
      Delta(d.added + Dated(Added(c, ch, b), b.height, b.foliage.value.timestamp), d.spent + Members(Spent(c, ch, b)))
  }

  /** Everything a chain has done above a height. */
  function Since(c: Consensus, ch: Chain, fork: int): Delta {
    if ch.Empty? || ch.top.block.height <= fork then Delta(map[], {})
    else AddBlock(c, ch.prev, Since(c, ch.prev, fork), ch.top.block)
  }

  /** How a coin table, cut at a height, and a delta make up another coin table. */
  ghost predicate RowSplit(base: Coins, d: Delta, now: Coins, fork: int, x: Coin) {
    && (x in now <==> x in base || x in d.added)
    && !(x in base && x in d.added)
    && (x in d.added ==> now[x].confirmed == d.added[x].0 > fork && now[x].timestamp == d.added[x].1)
    && (x in base ==> now[x] == base[x].(spent := now[x].spent))
    && (x in d.spent ==> x in now && now[x].spent > 0 && now[x].spent > fork && (x in base ==> base[x].spent == 0))
    && (x in now && x !in d.spent ==> now[x].spent == if x in base then base[x].spent else 0)
  }

  ghost predicate Split(base: Coins, d: Delta, now: Coins, fork: int) {
    forall x :: RowSplit(base, d, now, fork, x)
  }

  lemma {:induction false} SplitStep(base: Coins, d: Delta, now: Coins, fork: int, d': Delta, next: Coins, height: nat,
                                     timestamp: nat, added: seq<Coin>, spent: seq<Coin>)
    requires Split(base, d, now, fork) && TableStep(now, next, height, timestamp, added, spent)
    requires height > fork && (spent != [] ==> height > 0)
    requires d'.added == d.added + Dated(added, height, timestamp)
    requires d'.spent == d.spent + Members(spent)
    ensures Split(base, d', next, fork)
  {
    forall x ensures RowSplit(base, d', next, fork, x) {
      assert RowSplit(base, d, now, fork, x);
      assert RowStep(now, next, height, timestamp, added, spent, x);
    }
  }

  lemma {:induction false} SplitNothing(coins: Coins, fork: int)
    ensures Split(coins, Delta(map[], {}), coins, fork)
  {
    forall x ensures RowSplit(coins, Delta(map[], {}), coins, fork, x) {}
  }

  lemma {:induction false} SpendsAboveGenesis(c: Consensus, ch: Chain)
    requires GoodBodies(c, ch) && ch.Snoc? && ch.top.IsTransactionBlock() && Spent(c, ch.prev, ch.top.block) != []
    ensures ch.top.block.height > 0
  {
    BodiesNumbered(c, ch);
    if ch.prev.Empty? { GenesisSpendsNothing(c, ch.top.block, Spent(c, ch.prev, ch.top.block)[0]); }
  }

  /** The coin table of a chain is its table at the fork together with what happened since. */
  lemma {:induction false} SinceSplits(c: Consensus, ch: Chain, fork: int)
    requires GoodBodies(c, ch)
    ensures Split(Replay(c, UpTo(ch, fork)), Since(c, ch, fork), Replay(c, ch), fork)
  {
    if ch.Empty? || ch.top.block.height <= fork {
      SplitNothing(Replay(c, ch), fork);
    } else {
      SinceSplits(c, ch.prev, fork);
      if ch.top.IsTransactionBlock() {
        var b := ch.top.block;
        var added, spent := Added(c, ch.prev, b), Spent(c, ch.prev, b);
        if spent != [] { SpendsAboveGenesis(c, ch); }
        BodiesNumbered(c, ch);
        ReplayExplained(c, ch.prev);
        ExtendStep(c, ch.prev, b);
        SplitStep(Replay(c, UpTo(ch.prev, fork)), Since(c, ch.prev, fork), Replay(c, ch.prev), fork,
                  AddBlock(c, ch.prev, Since(c, ch.prev, fork), b), Extend(c, ch.prev, Replay(c, ch.prev), b),
                  b.height, b.foliage.value.timestamp, added, spent);
      }
    }
  }

  /** The program's look-up of a coin to spend that the block itself does not add: in the branch
      first, then in the main-chain table as far as the fork, then among the branch's additions. */
  function Lookup(table: Coins, fork: int, d: Delta, x: Coin): Result<(nat, nat)> {
    if x in d.spent then Err(DoubleSpendInFork)
    else if x in table && table[x].confirmed <= fork then
      if 0 < table[x].spent <= fork then Err(DoubleSpend) else Ok((table[x].confirmed, table[x].timestamp))
    else if x in d.added then Ok(d.added[x])
    else Err(UnknownUnspent)
  }

  /** Whatever the main chain is, the look-up finds a coin exactly when the coin exists and is
      unspent in the history of the block's own ancestors, and then it reports that history's
      height and time. */
  lemma {:induction false} LookupSeesOwnHistory(c: Consensus, main: Chain, ch: Chain, fork: int, x: Coin)
    requires GoodBodies(c, main) && GoodBodies(c, ch) && Agree(main, ch, fork)
    ensures var own, r := Replay(c, ch), Lookup(Replay(c, main), fork, Since(c, ch, fork), x);
            && (r.Ok? <==> x in own && own[x].spent == 0)
            && (r.Ok? ==> r.value == (own[x].confirmed, own[x].timestamp))
            && (r == Err(UnknownUnspent) <==> x !in own)
            && (r == Err(DoubleSpendInFork) <==> x in own && own[x].spent > 0 && own[x].spent > fork)
  {
    RollbackIsReplay(c, main, fork);
    SinceSplits(c, ch, fork);
    var base, d := Replay(c, UpTo(ch, fork)), Since(c, ch, fork);
    assert base == Rollback(Replay(c, main), fork);
    assert RowSplit(base, d, Replay(c, ch), fork, x);
    if x in base { BaseSpentBelow(c, ch, fork, x); }
  }

  lemma {:induction false} BaseSpentBelow(c: Consensus, ch: Chain, fork: int, x: Coin)
    requires GoodBodies(c, ch) && -1 <= fork <= Height(ch) && x in Replay(c, UpTo(ch, fork))
    ensures Replay(c, UpTo(ch, fork))[x].spent <= fork
  {
    BodiesCut(c, ch, fork);
    BodiesNumbered(c, ch);
    UpToReaches(ch, fork);
    ReplayExplained(c, UpTo(ch, fork));
    assert Recorded(UpTo(ch, fork), Replay(c, UpTo(ch, fork)), x);
  }
}
