/**
  What a valid body means, told by the spends that its generator yields and the rows of the coin table, and where
  every row of the coin table comes from.
 */
module BodyLaws {
  import opened Types
  import opened Chains
  import opened HeaderRules
  import opened CoinSet
  import opened CoinHistory
  import opened Supply
  import Generators
  import NodeStores

  // ---------------------------------------------------------------- outputs

  /** A coin is the j-th output of a spend: a child of the spent coin with the puzzle hash and amount asked for. */
  ghost predicate Outputs(s: Spend, j: int, x: Coin) {
    && 0 <= j < |s.created|
    && x.parent.SpentCoin? && x.parent.coin == s.coin
    && x.puzzleHash == s.created[j].puzzleHash && x.amount == s.created[j].amount
  }

  /** How many outputs the first spends have together. */
  function OutputCount(spends: seq<Spend>): nat {
    if spends == [] then 0 else OutputCount(spends[..|spends| - 1]) + |spends[|spends| - 1].created|
  }

  lemma {:induction false} CreatedAt(parent: Coin, created: seq<NewCoin>, j: nat)
    ensures |Created(parent, created)| == |created|
    ensures j < |created| ==>
              Created(parent, created)[j] == Coin(SpentCoin(parent), created[j].puzzleHash, created[j].amount)
  {
    if created != [] {
      var init := created[..|created| - 1];
      CreatedAt(parent, init, j);
      if j < |init| { assert init[j] == created[j]; }
    }
  }

  /** The added coins are the outputs of the spends, in their order. */
  lemma {:induction false} AdditionAt(spends: seq<Spend>, i: nat, j: nat)
    requires i < |spends| && j < |spends[i].created|
    ensures OutputCount(spends[..i]) + j < |Additions(spends)| == OutputCount(spends)
    ensures Outputs(spends[i], j, Additions(spends)[OutputCount(spends[..i]) + j])
  {
    var init, last := spends[..|spends| - 1], spends[|spends| - 1];
    AdditionCount(init);
    if i < |init| {
      AdditionAt(init, i, j);
      CreatedAt(last.coin, last.created, 0);
      assert init[..i] == spends[..i];
    } else {
      CreatedAt(last.coin, last.created, j);
    }
  }

  lemma {:induction false} AdditionCount(spends: seq<Spend>)
    ensures |Additions(spends)| == OutputCount(spends)
  {
    if spends != [] {
      AdditionCount(spends[..|spends| - 1]);
      CreatedAt(spends[|spends| - 1].coin, spends[|spends| - 1].created, 0);
    }
  }

  /** Every added coin is one of the outputs. */
  lemma {:induction false} AdditionIs(spends: seq<Spend>, k: nat) returns (i: nat, j: nat)
    requires k < |Additions(spends)|
    ensures i < |spends| && j < |spends[i].created| && k == OutputCount(spends[..i]) + j
    ensures Outputs(spends[i], j, Additions(spends)[k])
  {
    var init := spends[..|spends| - 1];
    AdditionCount(init);
    if k < |Additions(init)| {
      i, j := AdditionIs(init, k);
      assert init[..i] == spends[..i];
    } else {
      i, j := |init|, k - |Additions(init)|;
      CreatedAt(spends[i].coin, spends[i].created, j);
    }
  }

  /** A block adds exactly what its spends ask for. */
  lemma {:induction false} AdditionsExact(spends: seq<Spend>, x: Coin)
    ensures x in Additions(spends) <==> exists i, j | 0 <= i < |spends| :: Outputs(spends[i], j, x)
    ensures |Additions(spends)| == OutputCount(spends)
  {
    AdditionCount(spends);
    if x in Additions(spends) {
      var k :| 0 <= k < |Additions(spends)| && Additions(spends)[k] == x;
      var i, j := AdditionIs(spends, k);
    }
    if i, j :| 0 <= i < |spends| && Outputs(spends[i], j, x) {
      AdditionAt(spends, i, j);
      SameOutput(spends[i], j, x, Additions(spends)[OutputCount(spends[..i]) + j]);
    }
  }

  lemma {:induction false} SameOutput(s: Spend, j: int, x: Coin, y: Coin)
    requires Outputs(s, j, x) && Outputs(s, j, y)
    ensures x == y
  {}

  /** A block removes the spent coins, in their order. */
  lemma {:induction false} RemovalAt(spends: seq<Spend>, i: nat)
    ensures |Removals(spends)| == |spends|
    ensures i < |spends| ==> Removals(spends)[i] == spends[i].coin
  {
    if spends != [] {
      RemovalAt(spends[..|spends| - 1], i);
      if i < |spends| - 1 { assert spends[..|spends| - 1][i] == spends[i]; }
    }
  }

  // ---------------------------------------------------------------- what is asked of a body

  /** A coin that the block itself adds: an output of one of its spends, or one of its claims. */
  ghost predicate AddedHere(spends: seq<Spend>, claims: seq<Coin>, x: Coin) {
    x in claims || exists i, j | 0 <= i < |spends| :: Outputs(spends[i], j, x)
  }

  function SpentTotal(spends: seq<Spend>): nat {
    if spends == [] then 0 else SpentTotal(spends[..|spends| - 1]) + spends[|spends| - 1].coin.amount
  }

  function AmountTotal(created: seq<NewCoin>): nat {
    if created == [] then 0 else AmountTotal(created[..|created| - 1]) + created[|created| - 1].amount
  }

  function CreatedTotal(spends: seq<Spend>): nat {
    if spends == [] then 0 else CreatedTotal(spends[..|spends| - 1]) + AmountTotal(spends[|spends| - 1].created)
  }

  /** Checks 5 and 6: the claims are the rewards not yet paid, each once. */
  ghost predicate ClaimsRight(ch: Chain, claims: seq<Coin>)
    requires Numbered(ch) && Height(LastTx(ch)) <= Height(ch)
  {
    && (forall x :: x in claims <==> PaysHeight(ch, PaidUpTo(ch), Height(LastTx(ch)), x))
    && forall i, j | 0 <= i < j < |claims| :: claims[i] != claims[j]
  }

  /** References point below the block and are not too many. */
  ghost predicate RefsRight(c: Consensus, b: FullBlock) {
    && (b.generator.None? ==> b.generatorRefs == []) && |b.generatorRefs| <= c.maxGeneratorRefs
    && forall i | 0 <= i < |b.generatorRefs| :: b.generatorRefs[i] < b.height
  }

  /** No amount is out of range, no coin is spent twice, and no spend asks for the same output twice. */
  ghost predicate OutputsRight(c: Consensus, spends: seq<Spend>, claims: seq<Coin>) {
    && (forall i, j | 0 <= i < |spends| && 0 <= j < |spends[i].created| ::
          spends[i].created[j].amount <= c.maxCoinAmount)
    && (forall i | 0 <= i < |claims| :: claims[i].amount <= c.maxCoinAmount)
    && (forall i, k | 0 <= i < k < |spends| :: spends[i].coin != spends[k].coin)
    && forall i, j, k | 0 <= i < |spends| && 0 <= j < k < |spends[i].created| ::
         spends[i].created[j] != spends[i].created[k]
  }

  /** What one spend may spend, and when. A coin counts from the block and the time at which it was confirmed; one that
      the block adds itself from the block and its time. */
  ghost predicate SpendRight(coins: Coins, spends: seq<Spend>, claims: seq<Coin>, height: nat, timestamp: nat,
                             prevTx: nat, s: Spend) {
    var here := AddedHere(spends, claims, s.coin);
    && s.coin.puzzleHash == s.puzzleHash
    && (here || (s.coin in coins && coins[s.coin].spent == 0))
    && var confirmed, since := if here then height else coins[s.coin].confirmed,
                               if here then timestamp else coins[s.coin].timestamp;
    && (s.heightRelative.Some? ==> prevTx >= confirmed + s.heightRelative.value)
    && timestamp >= since + s.secondsRelative
  }

  /** The fees are what is spent and not created again, and cover what was reserved. */
  ghost predicate FeesRight(c: Consensus, b: FullBlock, spends: seq<Spend>, reserved: nat, fees: nat) {
    && SpentTotal(spends) == CreatedTotal(spends) + fees && reserved <= fees
    && fees + CalculateBaseFarmerReward(b.height) <= c.maxCoinAmount
  }

  /** A transaction block whose generator yields these conditions. */
  ghost predicate TransactionsRight(c: Consensus, ch: Chain, b: FullBlock, coins: Coins, conditions: Conditions,
                                    prevTx: nat)
    requires b.foliage.Some? && b.info.Some? && Numbered(ch) && Height(LastTx(ch)) <= Height(ch)
  {
    var spends, claims, timestamp := conditions.spends, b.info.value.rewardClaims, b.foliage.value.timestamp;
    && ClaimsRight(ch, claims) && OutputsRight(c, spends, claims)
    && FeesRight(c, b, spends, conditions.reserveFee, b.info.value.fees)
    && prevTx >= conditions.heightAbsolute && timestamp >= conditions.secondsAbsolute
    && forall i | 0 <= i < |spends| :: SpendRight(coins, spends, claims, b.height, timestamp, prevTx, spends[i])
  }

  // ---------------------------------------------------------------- and that it is what is checked

  lemma {:induction false} Totals(spends: seq<Spend>)
    ensures Sum(Removals(spends)) == SpentTotal(spends) && Sum(Additions(spends)) == CreatedTotal(spends)
  {
    if spends != [] {
      var init, last := spends[..|spends| - 1], spends[|spends| - 1];
      Totals(init);
      SumConcat(Removals(init), [last.coin]);
      SumConcat(Additions(init), Created(last.coin, last.created));
      assert Sum([last.coin]) == last.coin.amount by { assert [last.coin][..0] == []; }
      CreatedAmounts(last.coin, last.created);
    }
  }

  lemma {:induction false} CreatedAmounts(parent: Coin, created: seq<NewCoin>)
    ensures Sum(Created(parent, created)) == AmountTotal(created)
  {
    if created != [] {
      var init, n := created[..|created| - 1], created[|created| - 1];
      CreatedAmounts(parent, init);
      assert Created(parent, created)[..|Created(parent, init)|] == Created(parent, init);
    }
  }

  lemma {:induction false} FeesMean(c: Consensus, b: FullBlock, conditions: Conditions)
    requires b.info.Some?
    ensures FeesOk(c, b, conditions) <==>
              FeesRight(c, b, conditions.spends, conditions.reserveFee, b.info.value.fees)
  {
    Totals(conditions.spends);
  }

  lemma {:induction false} DistinctRemovals(spends: seq<Spend>)
    ensures Distinct(Removals(spends)) <==> forall i, k | 0 <= i < k < |spends| :: spends[i].coin != spends[k].coin
  {
    forall i: nat ensures |Removals(spends)| == |spends| && (i < |spends| ==> Removals(spends)[i] == spends[i].coin) {
      RemovalAt(spends, i);
    }
  }

  lemma {:induction false} AmountsMean(c: Consensus, spends: seq<Spend>)
    ensures (forall k | 0 <= k < |Additions(spends)| :: Additions(spends)[k].amount <= c.maxCoinAmount) <==>
              forall i, j | 0 <= i < |spends| && 0 <= j < |spends[i].created| ::
                spends[i].created[j].amount <= c.maxCoinAmount
  {
    var adds := Additions(spends);
    if forall k | 0 <= k < |adds| :: adds[k].amount <= c.maxCoinAmount {
      forall i, j | 0 <= i < |spends| && 0 <= j < |spends[i].created|
        ensures spends[i].created[j].amount <= c.maxCoinAmount
      {
        AdditionAt(spends, i, j);
      }
    }
    if forall i, j | 0 <= i < |spends| && 0 <= j < |spends[i].created| ::
         spends[i].created[j].amount <= c.maxCoinAmount {
      forall k | 0 <= k < |adds| ensures adds[k].amount <= c.maxCoinAmount {
        var i, j := AdditionIs(spends, k);
      }
    }
  }

  lemma {:induction false} CountsGrow(spends: seq<Spend>, i: nat, k: nat)
    requires i <= k <= |spends|
    ensures OutputCount(spends[..i]) <= OutputCount(spends[..k])
    ensures i < k ==> OutputCount(spends[..i]) + |spends[i].created| <= OutputCount(spends[..k])
    decreases k
  {
    if i < k {
      assert spends[..k][..k - 1] == spends[..k - 1];
      CountsGrow(spends, i, k - 1);
    }
  }

  /** Outputs of different spends have different parents, so only outputs of one spend can coincide. */
  lemma {:induction false} DistinctAdditions(spends: seq<Spend>)
    requires forall i, k | 0 <= i < k < |spends| :: spends[i].coin != spends[k].coin
    ensures Distinct(Additions(spends)) <==>
              forall i, j, k | 0 <= i < |spends| && 0 <= j < k < |spends[i].created| ::
                spends[i].created[j] != spends[i].created[k]
  {
    var adds := Additions(spends);
    if Distinct(adds) {
      forall i, j, k | 0 <= i < |spends| && 0 <= j < k < |spends[i].created|
        ensures spends[i].created[j] != spends[i].created[k]
      {
        AdditionAt(spends, i, j);
        AdditionAt(spends, i, k);
      }
    }
    if forall i, j, k | 0 <= i < |spends| && 0 <= j < k < |spends[i].created| ::
         spends[i].created[j] != spends[i].created[k] {
      forall m, n | 0 <= m < n < |adds| ensures adds[m] != adds[n] {
        var i, j := AdditionIs(spends, m);
        var i', j' := AdditionIs(spends, n);
        if i == i' { assert j < j'; }
      }
    }
  }

  lemma {:induction false} AmountsConcat(limit: nat, xs: seq<Coin>, ys: seq<Coin>)
    ensures (forall i | 0 <= i < |xs + ys| :: (xs + ys)[i].amount <= limit) <==>
              && (forall i | 0 <= i < |xs| :: xs[i].amount <= limit)
              && (forall i | 0 <= i < |ys| :: ys[i].amount <= limit)
  {
    var all := xs + ys;
    assert forall i | 0 <= i < |xs| :: all[i] == xs[i];
    assert forall i | 0 <= i < |ys| :: all[|xs| + i] == ys[i];
  }

  lemma {:induction false} NamesMean(c: Consensus, spends: seq<Spend>, claims: seq<Coin>)
    requires Distinct(claims) && forall x | x in claims :: !x.parent.SpentCoin?
    ensures NamesOk(c, Additions(spends) + claims, Removals(spends)) <==> OutputsRight(c, spends, claims)
  {
    var adds := Additions(spends);
    DistinctRemovals(spends);
    AmountsMean(c, spends);
    DistinctConcat(adds, claims);
    forall x | x in adds ensures x !in claims { AdditionParent(spends, x); }
    AmountsConcat(c.maxCoinAmount, adds, claims);
    if Distinct(Removals(spends)) { DistinctAdditions(spends); }
  }

  lemma {:induction false} AddedHereIs(spends: seq<Spend>, claims: seq<Coin>, x: Coin)
    ensures AddedHere(spends, claims, x) <==> x in Additions(spends) + claims
  {
    AdditionsExact(spends, x);
  }

  /** Checks 15, 20 and 21 for one spend. */
  lemma {:induction false} SpendMeans(coins: Coins, spends: seq<Spend>, claims: seq<Coin>, b: FullBlock, prevTx: nat,
                                      i: nat)
    requires i < |spends| && b.foliage.Some?
    ensures var s, added, timestamp := spends[i], Additions(spends) + claims, b.foliage.value.timestamp;
            SpendRight(coins, spends, claims, b.height, timestamp, prevTx, s) <==>
              && s.coin.puzzleHash == s.puzzleHash && Spendable(coins, added, s.coin)
              && TimeLockOk(s, Origin(coins, added, b, s.coin), prevTx, timestamp)
  {
    AddedHereIs(spends, claims, spends[i].coin);
  }

  lemma {:induction false} AllSpendable(coins: Coins, spends: seq<Spend>, added: seq<Coin>)
    ensures (forall x | x in Removals(spends) :: Spendable(coins, added, x)) <==>
              forall i | 0 <= i < |spends| :: Spendable(coins, added, spends[i].coin)
  {
    forall i: nat ensures |Removals(spends)| == |spends| && (i < |spends| ==> Removals(spends)[i] == spends[i].coin) {
      RemovalAt(spends, i);
    }
    if forall x | x in Removals(spends) :: Spendable(coins, added, x) {
      forall i | 0 <= i < |spends| ensures Spendable(coins, added, spends[i].coin) {
        assert Removals(spends)[i] in Removals(spends);
      }
    }
  }

  lemma {:induction false} SpendsMean(coins: Coins, prevTx: nat, b: FullBlock, conditions: Conditions,
                                      claims: seq<Coin>)
    requires b.foliage.Some?
    ensures var spends, timestamp := conditions.spends, b.foliage.value.timestamp;
            var added := Additions(spends) + claims;
            (forall x | x in Removals(spends) :: Spendable(coins, added, x))
              && LocksOk(coins, prevTx, b, conditions, added) <==>
              && prevTx >= conditions.heightAbsolute && timestamp >= conditions.secondsAbsolute
              && forall i | 0 <= i < |spends| ::
                   SpendRight(coins, spends, claims, b.height, timestamp, prevTx, spends[i])
  {
    var spends := conditions.spends;
    AllSpendable(coins, spends, Additions(spends) + claims);
    forall i | 0 <= i < |spends|
      ensures var s, added, timestamp := spends[i], Additions(spends) + claims, b.foliage.value.timestamp;
              SpendRight(coins, spends, claims, b.height, timestamp, prevTx, s) <==>
                && s.coin.puzzleHash == s.puzzleHash && Spendable(coins, added, s.coin)
                && TimeLockOk(s, Origin(coins, added, b, s.coin), prevTx, timestamp)
    {
      SpendMeans(coins, spends, claims, b, prevTx, i);
    }
  }

  lemma {:induction false} ClaimsMean(c: Consensus, ch: Chain, claims: seq<Coin>)
    requires GoodBodies(c, ch) && Numbered(ch) && Height(LastTx(ch)) <= Height(ch)
    ensures ClaimsRight(ch, claims) <==> Members(claims) == ExpectedRewards(ch) && Distinct(claims)
    ensures ClaimsRight(ch, claims) ==> forall x | x in claims :: !x.parent.SpentCoin?
  {
    forall x ensures x in ExpectedRewards(ch) <==> PaysHeight(ch, PaidUpTo(ch), Height(LastTx(ch)), x) {
      ExpectedExact(c, ch, x);
    }
    if ClaimsRight(ch, claims) {
      assert forall x :: x in Members(claims) <==> x in ExpectedRewards(ch);
      forall x | x in claims ensures !x.parent.SpentCoin? {
        assert PaysHeight(ch, PaidUpTo(ch), Height(LastTx(ch)), x);
      }
    }
    if Members(claims) == ExpectedRewards(ch) {
      forall x ensures x in claims <==> PaysHeight(ch, PaidUpTo(ch), Height(LastTx(ch)), x) {
        assert x in claims <==> x in Members(claims);
      }
    }
  }

  lemma {:induction false} TransactionsMean(c: Consensus, ch: Chain, b: FullBlock, coins: Coins,
                                            conditions: Conditions, prevTx: nat)
    requires GoodBodies(c, ch) && Numbered(ch) && Height(LastTx(ch)) <= Height(ch) && b.foliage.Some? && b.info.Some?
    ensures TransactionsRight(c, ch, b, coins, conditions, prevTx) <==>
              && Members(b.info.value.rewardClaims) == ExpectedRewards(ch) && Distinct(b.info.value.rewardClaims)
              && SpendsOk(c, coins, prevTx, b, conditions)
  {
    var spends, claims := conditions.spends, b.info.value.rewardClaims;
    ClaimsMean(c, ch, claims);
    FeesMean(c, b, conditions);
    SpendsMean(coins, prevTx, b, conditions, claims);
    if ClaimsRight(ch, claims) { NamesMean(c, spends, claims); }
  }

  /** A block body is valid on top of valid ancestors if and only if: a block that is no transaction block carries
      nothing; a transaction block claims exactly the rewards not yet paid, its generator refers to generators of its
      own ancestors, runs at the declared cost within the limit, and each of its spends spends an unspent coin of its
      ancestors, or one that it adds itself, in time. */
  lemma {:induction false} BodyMeans(c: Consensus, ch: Chain, b: FullBlock)
    requires GoodBodies(c, ch) && Numbered(ch) && Height(LastTx(ch)) <= Height(ch)
    ensures b.foliage.None? ==>
      (BodyOk(c, ch, b) <==> b.info.None? && b.generator.None? && b.generatorRefs == [])
    ensures b.foliage.Some? ==>
      (BodyOk(c, ch, b) <==>
         && b.info.Some? && RefsRight(c, b)
         && var r := RunBlock(c, ch, b);
         && r.NpcResult? && r.cost == b.info.value.cost <= c.maxBlockCost
         && TransactionsRight(c, ch, b, Replay(c, ch), r.conditions, NewestTxHeight(ch)))
  {
    LastTxTop(ch);
    if b.foliage.Some? && b.info.Some? && RunBlock(c, ch, b).NpcResult? {
      TransactionsMean(c, ch, b, Replay(c, ch), RunBlock(c, ch, b).conditions, NewestTxHeight(ch));
    }
  }

  /** The height of the newest transaction block; zero if there is none. */
  function NewestTxHeight(ch: Chain): nat {
    if ch.Empty? then 0 else if ch.top.block.foliage.Some? then ch.top.block.height else NewestTxHeight(ch.prev)
  }

  lemma {:induction false} LastTxTop(ch: Chain)
    ensures PrevTxHeight(ch) == NewestTxHeight(ch)
  {
    if ch.Snoc? && !ch.top.IsTransactionBlock() { LastTxTop(ch.prev); }
  }

  // ---------------------------------------------------------------- where rows come from

  ghost predicate AddedAt(c: Consensus, ch: Chain, i: int, x: Coin)
    requires Numbered(ch)
  {
    0 <= i <= Height(ch) && At(ch, i).IsTransactionBlock() && x in Added(c, UpTo(ch, i - 1), At(ch, i).block)
  }

  ghost predicate SpentAt(c: Consensus, ch: Chain, i: int, x: Coin)
    requires Numbered(ch)
  {
    0 <= i <= Height(ch) && At(ch, i).IsTransactionBlock() && x in Spent(c, UpTo(ch, i - 1), At(ch, i).block)
  }

  /** A row tells the block that added the coin, its time, whether the coin is a reward, and the block that spent it. */
  ghost predicate RowTold(c: Consensus, ch: Chain, x: Coin, row: CoinRecord)
    requires Numbered(ch)
  {
    && AddedAt(c, ch, row.confirmed, x) && row.timestamp == At(ch, row.confirmed).block.foliage.value.timestamp
    && (row.coinbase <==> !x.parent.SpentCoin?) && (row.spent > 0 ==> SpentAt(c, ch, row.spent, x))
  }

  lemma {:induction false} ToldOn(c: Consensus, ch: Chain, x: Coin, row: CoinRecord)
    requires Numbered(ch) && ch.Snoc? && RowTold(c, ch.prev, x, row)
    ensures RowTold(c, ch, x, row)
  {
    NumberedHeight(ch.prev);
  }

  lemma {:induction false} TopIsNewest(ch: Chain)
    requires Numbered(ch) && ch.Snoc?
    ensures At(ch, Height(ch)) == ch.top && UpTo(ch, Height(ch) - 1) == ch.prev && 0 <= Height(ch)
  {
    NumberedHeight(ch.prev);
    assert ch.prev.Empty? || ch.prev.top.block.height <= Height(ch) - 1;
  }

  lemma {:induction false} ToldStep(c: Consensus, ch: Chain, x: Coin, coins: Coins, next: Coins)
    requires Numbered(ch) && ch.Snoc? && ch.top.IsTransactionBlock() && x in next
    requires RowStep(coins, next, Height(ch), ch.top.block.foliage.value.timestamp, Added(c, ch.prev, ch.top.block),
        Spent(c, ch.prev, ch.top.block), x)
    requires x in coins ==> RowTold(c, ch, x, coins[x])
    ensures RowTold(c, ch, x, next[x])
  {
    TopIsNewest(ch);
    if x in Spent(c, ch.prev, ch.top.block) { assert SpentAt(c, ch, Height(ch), x); }
    if x in Added(c, ch.prev, ch.top.block) { assert AddedAt(c, ch, Height(ch), x); }
  }

  lemma {:induction false} RowsTold(c: Consensus, ch: Chain, x: Coin)
    requires GoodBodies(c, ch) && Numbered(ch) && x in Replay(c, ch)
    ensures RowTold(c, ch, x, Replay(c, ch)[x])
  {
    var b, coins, next := ch.top.block, Replay(c, ch.prev), Replay(c, ch);
    if x in coins {
      RowsTold(c, ch.prev, x);
      ToldOn(c, ch, x, coins[x]);
    }
    if ch.top.IsTransactionBlock() {
      ReplayExplained(c, ch.prev);
      ExtendStep(c, ch.prev, b);
      assert RowStep(coins, next, b.height, b.foliage.value.timestamp, Added(c, ch.prev, b), Spent(c, ch.prev, b), x);
      ToldStep(c, ch, x, coins, next);
    }
  }

  /** The coin table holds exactly the coins that some block of the chain has added, and a coin is marked as spent
      exactly when some block has spent it, and by that block. */
  lemma {:induction false} RowHistory(c: Consensus, ch: Chain, x: Coin)
    requires GoodBodies(c, ch) && Numbered(ch)
    ensures x in Replay(c, ch) <==> exists i :: AddedAt(c, ch, i, x)
    ensures x in Replay(c, ch) ==> RowTold(c, ch, x, Replay(c, ch)[x])
    ensures forall i | SpentAt(c, ch, i, x) :: x in Replay(c, ch) && Replay(c, ch)[x].spent == i > 0
  {
    if x in Replay(c, ch) { RowsTold(c, ch, x); }
    if i :| AddedAt(c, ch, i, x) { StaysKnown(c, ch, i, x); }
    forall i | SpentAt(c, ch, i, x) ensures x in Replay(c, ch) && Replay(c, ch)[x].spent == i > 0 {
      StaysSpent(c, ch, i, x);
    }
  }

  /** What the block at a height spends. */
  ghost function SpendsAt(c: Consensus, ch: Chain, i: int): seq<Spend>
    requires Numbered(ch)
  {
    if 0 <= i <= Height(ch) then Spends(c, UpTo(ch, i - 1), At(ch, i).block) else []
  }

  ghost predicate AskedFor(spends: seq<Spend>, x: Coin) {
    exists k, j | 0 <= k < |spends| :: Outputs(spends[k], j, x)
  }

  lemma {:induction false} ChainAt(c: Consensus, ch: Chain, i: nat)
    requires GoodBodies(c, ch) && Numbered(ch) && i <= Height(ch)
    ensures Numbered(UpTo(ch, i - 1)) && GoodBodies(c, UpTo(ch, i - 1))
            && BodyOk(c, UpTo(ch, i - 1), At(ch, i).block)
  {
    TopIsNewest(ch);
    if i < Height(ch) { ChainAt(c, ch.prev, i); }
  }

  lemma {:induction false} AskedBy(c: Consensus, ch: Chain, b: FullBlock, x: Coin)
    requires Numbered(ch) && BodyOk(c, ch, b) && b.foliage.Some? && x in Added(c, ch, b) && x.parent.SpentCoin?
    ensures AskedFor(Spends(c, ch, b), x)
  {
    BodyFacts(c, ch, b, x);
    if x in b.IncludedRewardCoins() { ExpectedHeights(ch, x); }
    AdditionsExact(Spends(c, ch, b), x);
  }

  lemma {:induction false} AskedAt(c: Consensus, ch: Chain, i: nat, x: Coin)
    requires GoodBodies(c, ch) && Numbered(ch) && AddedAt(c, ch, i, x) && x.parent.SpentCoin?
    ensures AskedFor(SpendsAt(c, ch, i), x)
  {
    ChainAt(c, ch, i);
    AskedBy(c, UpTo(ch, i - 1), At(ch, i).block, x);
  }

  /** Every coin that is no reward has the puzzle hash and the amount that a spend of its parent asked for, in the
      block that confirmed it. */
  lemma {:induction false} CreatedAsAsked(c: Consensus, ch: Chain, x: Coin, row: CoinRecord)
    requires GoodBodies(c, ch) && Numbered(ch) && x in Replay(c, ch) && row == Replay(c, ch)[x] && x.parent.SpentCoin?
    ensures AskedFor(SpendsAt(c, ch, row.confirmed), x)
  {
    RowsTold(c, ch, x);
    AskedAt(c, ch, row.confirmed, x);
  }

  // ---------------------------------------------------------------- generators and reports

  /** A block's generator is run with the generators of its own ancestors at the heights it refers to. */
  lemma {:induction false} RunMeans(c: Consensus, ch: Chain, b: FullBlock, gs: seq<Program>)
    ensures b.generator.None? ==> RunBlock(c, ch, b).NpcResult? && Spends(c, ch, b) == []
    ensures b.generator.Some? && Generators.Resolves(ch, b.generatorRefs, gs) ==>
              RunBlock(c, ch, b) == c.run(b.generator.value, gs)
    ensures forall i | 0 <= i < |b.generatorRefs| ::
              b.generator.Some? && GeneratorAt(ch, b.generatorRefs[i]).None? ==> RunBlock(c, ch, b) == NpcError
  {
    if Generators.Resolves(ch, b.generatorRefs, gs) { Generators.ResolvedRefs(ch, b.generatorRefs, gs); }
    forall i | 0 <= i < |b.generatorRefs| && GeneratorAt(ch, b.generatorRefs[i]).None?
      ensures ResolveRefs(ch, b.generatorRefs).None?
    {
      Generators.UnresolvedRefs(ch, b.generatorRefs, i);
    }
  }

  lemma {:induction false} BelowGenesis(ch: Chain, i: int)
    requires Numbered(ch) && i < 0
    ensures UpTo(ch, i) == Empty
  {
    NumberedHeight(ch);
    if ch.Snoc? { BelowGenesis(ch.prev, i); }
  }

  lemma {:induction false} GenesisAddsNothing(c: Consensus, below: Chain, b: FullBlock, x: Coin)
    requires below == Empty && BodyOk(c, below, b) && b.foliage.Some?
    ensures x !in Added(c, below, b)
  {
    GenesisSpendsNothing(c, b, x);
  }

  lemma {:induction false} AddedAboveGenesis(c: Consensus, ch: Chain, i: nat, x: Coin)
    requires GoodBodies(c, ch) && Numbered(ch) && AddedAt(c, ch, i, x)
    ensures i > 0
  {
    if i == 0 {
      BelowGenesis(ch, i - 1);
      ChainAt(c, ch, i);
      GenesisAddsNothing(c, UpTo(ch, i - 1), At(ch, i).block, x);
    }
  }

  /** No row is confirmed at height 0. */
  lemma {:induction false} NothingAtGenesis(c: Consensus, ch: Chain, x: Coin, row: CoinRecord)
    requires GoodBodies(c, ch) && Numbered(ch) && x in Replay(c, ch) && row == Replay(c, ch)[x]
    ensures row.confirmed > 0
  {
    RowsTold(c, ch, x);
    AddedAboveGenesis(c, ch, row.confirmed, x);
  }

  /** What a listener makes of reported rows: a row confirmed at height 0 means that the coin is gone, and any other
      replaces the one it had. */
  ghost predicate Listened(before: Coins, changes: Coins, after: Coins, x: Coin) {
    if x in changes then (x in after <==> changes[x].confirmed > 0) && (x in after ==> after[x] == changes[x])
    else (x in after <==> x in before) && (x in after ==> after[x] == before[x])
  }

  /** A listener who had the coins of the main chain has those at the fork after the reported rows. */
  lemma {:induction false} ReportsSuffice(c: Consensus, main: Chain, branch: Chain, fork: int, changes: Coins, x: Coin)
    requires GoodBodies(c, main) && GoodBodies(c, branch) && Numbered(main) && Numbered(branch)
    requires UpTo(main, fork) == UpTo(branch, fork)
    requires NodeStores.Undone(Replay(c, main), Replay(c, UpTo(branch, fork)), changes)
    ensures Listened(Replay(c, main), changes, Replay(c, UpTo(branch, fork)), x)
  {
    var before, after := Replay(c, main), Replay(c, UpTo(branch, fork));
    RollbackIsReplay(c, main, fork);
    if x in after {
      BodiesCut(c, branch, fork);
      BodiesNumbered(c, UpTo(branch, fork));
      NothingAtGenesis(c, UpTo(branch, fork), x, after[x]);
    }
  }
}
