/**
  The coin set by replay: what each block adds and removes, when a block body is valid on top
  of its own ancestors, and what follows for every valid chain.
 */
module CoinSet {
  import opened Types
  import opened Chains
  import opened HeaderRules

  type Coins = map<Coin, CoinRecord>

  // ---------------------------------------------------------------- rewards

  const MOJO_PER_LOTUS := 1_000_000_000_000
  const BLOCKS_PER_YEAR := 1_681_920

  function CalculatePoolReward(height: nat): nat {
    if height == 0 then 18_375_000 * MOJO_PER_LOTUS
    else if height < 3 * BLOCKS_PER_YEAR then 1_750_000_000_000
    else if height < 6 * BLOCKS_PER_YEAR then 875_000_000_000
    else if height < 9 * BLOCKS_PER_YEAR then 437_500_000_000
    else if height < 12 * BLOCKS_PER_YEAR then 218_750_000_000
    else 109_375_000_000
  }

  function CalculateBaseFarmerReward(height: nat): nat {
    if height == 0 then 2_625_000 * MOJO_PER_LOTUS
    else if height < 3 * BLOCKS_PER_YEAR then 250_000_000_000
    else if height < 6 * BLOCKS_PER_YEAR then 125_000_000_000
    else if height < 9 * BLOCKS_PER_YEAR then 62_500_000_000
    else if height < 12 * BLOCKS_PER_YEAR then 31_250_000_000
    else 15_625_000_000
  }

  function PoolCoin(b: FullBlock): Coin {
    Coin(Parent.PoolReward(b.height), b.poolPuzzleHash, CalculatePoolReward(b.height))
  }

  function FarmerCoin(b: FullBlock, fees: nat): Coin {
    Coin(FarmerReward(b.height), b.farmerPuzzleHash, CalculateBaseFarmerReward(b.height) + fees)
  }

  function FeesOf(b: FullBlock): nat { if b.info.Some? then b.info.value.fees else 0 }

  /** The reward coins of the blocks down to, but not including, the next transaction block. */
  function RewardsBelow(ch: Chain): set<Coin> {
    if ch.Empty? || ch.top.IsTransactionBlock() then {}
    else {PoolCoin(ch.top.block), FarmerCoin(ch.top.block, 0)} + RewardsBelow(ch.prev)
  }

  /** The reward coins that a transaction block on top of a chain must claim. */
  function ExpectedRewards(ch: Chain): set<Coin> {
    var t := LastTx(ch);
    if t.Empty? then {}
    else {PoolCoin(t.top.block), FarmerCoin(t.top.block, FeesOf(t.top.block))} + RewardsBelow(t.prev)
  }

  // ---------------------------------------------------------------- what a block spends and creates

  /** The generator of the block at a height of the chain. */
  function GeneratorAt(ch: Chain, h: int): Option<Program> {
    var a := UpTo(ch, h);
    if a.Snoc? && a.top.block.height == h then a.top.block.generator else None
  }

  /** The generators that a list of reference heights stands for, if there are such. */
  function ResolveRefs(ch: Chain, refs: seq<nat>): Option<seq<Program>> {
    if refs == [] then Some([])
    else
      var head, g := ResolveRefs(ch, refs[..|refs| - 1]), GeneratorAt(ch, refs[|refs| - 1]);
      if head.None? || g.None? then None else Some(head.value + [g.value])
  }

  /** The result of running a block's generator with the generators of its own ancestors. */
  function RunBlock(c: Consensus, ch: Chain, b: FullBlock): NpcResult {
    if b.generator.None? then NpcResult(NO_CONDITIONS, 0)
    else
      var refs := ResolveRefs(ch, b.generatorRefs);
      if refs.None? then NpcError else c.run(b.generator.value, refs.value)
  }

  function Spends(c: Consensus, ch: Chain, b: FullBlock): seq<Spend> {
    var r := RunBlock(c, ch, b);
    if r.NpcError? then [] else r.conditions.spends
  }

  function Removals(spends: seq<Spend>): seq<Coin> {
    if spends == [] then [] else Removals(spends[..|spends| - 1]) + [spends[|spends| - 1].coin]
  }

  function Created(parent: Coin, created: seq<NewCoin>): seq<Coin> {
    if created == [] then []
    else
      var n := created[|created| - 1];
      Created(parent, created[..|created| - 1]) + [Coin(SpentCoin(parent), n.puzzleHash, n.amount)]
  }

  function Additions(spends: seq<Spend>): seq<Coin> {
    if spends == [] then []
    else
      var s := spends[|spends| - 1];
      Additions(spends[..|spends| - 1]) + Created(s.coin, s.created)
  }

  // ---------------------------------------------------------------- replay

  /** The coin table after a block: new rows for the coins it adds, then the spent ones marked. */
  function ApplyBlock(coins: Coins, height: nat, timestamp: nat, rewards: seq<Coin>, additions: seq<Coin>,
                      removals: seq<Coin>): Coins {
    MarkSpent(AddCoins(coins, height, timestamp, rewards, additions), removals, height)
  }

  function AddCoins(coins: Coins, height: nat, timestamp: nat, rewards: seq<Coin>, additions: seq<Coin>): Coins {
    coins + Fresh(additions, CoinRecord(height, 0, false, timestamp)) + Fresh(rewards,
      CoinRecord(height, 0, true, timestamp))
  }

  /** The same row for every coin of a list. */
  function Fresh(xs: seq<Coin>, row: CoinRecord): (m: Coins)
    ensures forall x :: x in m <==> x in xs
    ensures forall x | x in m :: m[x] == row
  {
    if xs == [] then map[] else Fresh(xs[..|xs| - 1], row)[xs[|xs| - 1] := row]
  }

  /** Marks the unspent ones of some coins as spent at a height. */
  function MarkSpent(coins: Coins, names: seq<Coin>, height: nat): (m: Coins)
    ensures forall x :: x in m <==> x in coins
    ensures forall x | x in m ::
        m[x] == if x in names && coins[x].spent == 0 then coins[x].(spent := height) else coins[x]
  {
    if names == [] then coins
    else
      var m, x := MarkSpent(coins, names[..|names| - 1], height), names[|names| - 1];
      if x in m && m[x].spent == 0 then m[x := m[x].(spent := height)] else m
  }

  /** The coin table after one more block on a chain. */
  function Extend(c: Consensus, ch: Chain, coins: Coins, b: FullBlock): Coins {
    if b.foliage.None? then coins
    else
      var spends := Spends(c, ch, b);
      ApplyBlock(coins, b.height, b.foliage.value.timestamp, b.IncludedRewardCoins(), Additions(spends),
        Removals(spends))
  }

  /** The coin table after replaying a chain from the beginning. */
  function Replay(c: Consensus, ch: Chain): Coins {
    if ch.Empty? then map[] else Extend(c, ch.prev, Replay(c, ch.prev), ch.top.block)
  }

  /** Takes back everything that happened above a height: later rows go, later spends are undone. */
  ghost function Rollback(coins: Coins, h: int): (m: Coins)
    ensures forall x :: x in m <==> x in coins && coins[x].confirmed <= h
    ensures forall x | x in m :: m[x] == if coins[x].spent > h then coins[x].(spent := 0) else coins[x]
    decreases |coins|
  {
    if coins == map[] then map[]
    else
      var x :| x in coins;
      var m := Rollback(coins - {x}, h);
      if coins[x].confirmed > h then m else if coins[x].spent > h then m[x := coins[x].(spent := 0)]
          else m[x := coins[x]]
  }

  // ---------------------------------------------------------------- valid bodies

  predicate Distinct(xs: seq<Coin>) { forall i, j | 0 <= i < j < |xs| :: xs[i] != xs[j] }

  function Members(xs: seq<Coin>): set<Coin> { set x | x in xs }

  lemma {:induction false} DistinctSnoc(xs: seq<Coin>, x: Coin)
    ensures Distinct(xs + [x]) <==> Distinct(xs) && x !in xs
    ensures Members(xs + [x]) == Members(xs) + {x}
  {
    var ys := xs + [x];
    assert ys[|xs|] == x && forall i | 0 <= i < |xs| :: ys[i] == xs[i];
  }

  lemma {:induction false} DistinctConcat(xs: seq<Coin>, ys: seq<Coin>)
    ensures Distinct(xs + ys) <==> Distinct(xs) && Distinct(ys) && Members(xs) !! Members(ys)
    ensures Members(xs + ys) == Members(xs) + Members(ys)
  {
    if ys == [] {
      assert xs + ys == xs;
    } else {
      var init, last := ys[..|ys| - 1], ys[|ys| - 1];
      DistinctConcat(xs, init);
      assert xs + ys == (xs + init) + [last] && ys == init + [last];
      DistinctSnoc(xs + init, last);
      DistinctSnoc(init, last);
    }
  }

  /** A list names as many coins as it is long exactly when it repeats none. */
  lemma {:induction false} CardinalityIsLength(xs: seq<Coin>)
    ensures |Members(xs)| <= |xs|
    ensures |Members(xs)| == |xs| <==> Distinct(xs)
  {
    if xs != [] {
      var init, last := xs[..|xs| - 1], xs[|xs| - 1];
      assert xs == init + [last];
      CardinalityIsLength(init);
      DistinctSnoc(init, last);
    }
  }

  function Sum(xs: seq<Coin>): nat {
    if xs == [] then 0 else Sum(xs[..|xs| - 1]) + xs[|xs| - 1].amount
  }

  /** Whether a coin can be spent by a block, given the coins before it and those it adds. */
  predicate Spendable(coins: Coins, added: seq<Coin>, x: Coin) {
    x in added || (x in coins && coins[x].spent == 0)
  }

  /** The height and time from which a spent coin counts. */
  function Origin(coins: Coins, added: seq<Coin>, b: FullBlock, x: Coin): (nat, nat) {
    if x in added then (b.height, if b.foliage.Some? then b.foliage.value.timestamp else 0)
    else if x in coins then (coins[x].confirmed, coins[x].timestamp) else (0, 0)
  }

  /** Height and time conditions of one spend. */
  predicate TimeLockOk(s: Spend, origin: (nat, nat), prevTxHeight: nat, timestamp: nat) {
    && (s.heightRelative.Some? ==> prevTxHeight >= origin.0 + s.heightRelative.value)
    && timestamp >= origin.1 + s.secondsRelative
  }

  function PrevTxHeight(ch: Chain): nat {
    var t := LastTx(ch);
    if t.Empty? then 0 else t.top.block.height
  }

  /** Checks 5 to 9: rewards, references and cost. */
  predicate ClaimsOk(c: Consensus, ch: Chain, b: FullBlock)
    requires b.info.Some?
  {
    var claims := b.info.value.rewardClaims;
    && Members(claims) == ExpectedRewards(ch) && Distinct(claims)
    && (b.generatorRefs != [] ==> b.generator.Some? && |b.generatorRefs| <= c.maxGeneratorRefs)
    && (forall i | 0 <= i < |b.generatorRefs| :: b.generatorRefs[i] < b.height)
    && var r := RunBlock(c, ch, b);
    && r.NpcResult? && r.cost <= c.maxBlockCost && b.info.value.cost == r.cost
  }

  /** Checks 10 to 21: the coins that a block adds and spends, on top of the given coin table. */
  predicate SpendsOk(c: Consensus, coins: Coins, prevTxHeight: nat, b: FullBlock, conditions: Conditions)
    requires b.info.Some? && b.foliage.Some?
  {
    var added := Additions(conditions.spends) + b.info.value.rewardClaims;
    && NamesOk(c, added, Removals(conditions.spends))
    && (forall x | x in Removals(conditions.spends) :: Spendable(coins, added, x))
    && FeesOk(c, b, conditions)
    && LocksOk(coins, prevTxHeight, b, conditions, added)
  }

  /** Checks 10, 13 and 14: amounts in range, no coin added twice, none spent twice. */
  predicate NamesOk(c: Consensus, added: seq<Coin>, removals: seq<Coin>) {
    && (forall i | 0 <= i < |added| :: added[i].amount <= c.maxCoinAmount)
    && Distinct(added) && Distinct(removals)
  }

  /** Checks 16 to 19: the declared fees are what is spent less what is created. */
  predicate FeesOk(c: Consensus, b: FullBlock, conditions: Conditions)
    requires b.info.Some?
  {
    var spent, created := Sum(Removals(conditions.spends)), Sum(Additions(conditions.spends));
    && spent >= created
    && spent - created >= conditions.reserveFee
    && spent - created + CalculateBaseFarmerReward(b.height) <= c.maxCoinAmount
    && b.info.value.fees == spent - created
  }

  /** Checks 20 and 21: puzzle hashes and time locks. */
  predicate LocksOk(coins: Coins, prevTxHeight: nat, b: FullBlock, conditions: Conditions, added: seq<Coin>)
    requires b.foliage.Some?
  {
    && (forall i | 0 <= i < |conditions.spends| ::
      conditions.spends[i].coin.puzzleHash == conditions.spends[i].puzzleHash)
    && prevTxHeight >= conditions.heightAbsolute
    && b.foliage.value.timestamp >= conditions.secondsAbsolute
    && (forall i | 0 <= i < |conditions.spends| ::
          TimeLockOk(conditions.spends[i], Origin(coins, added, b, conditions.spends[i].coin), prevTxHeight,
                     b.foliage.value.timestamp))
  }

  /** When a block body is valid on top of a chain. Nothing but the block's own ancestors counts. */
  predicate BodyOk(c: Consensus, ch: Chain, b: FullBlock) {
    if b.foliage.None? then b.info.None? && b.generator.None? && b.generatorRefs == []
    else
      && b.info.Some?
      && ClaimsOk(c, ch, b)
      && SpendsOk(c, Replay(c, ch), PrevTxHeight(ch), b, RunBlock(c, ch, b).conditions)
  }

  /** A chain whose headers and bodies are all valid. */
  ghost predicate FullyValid(c: Consensus, ch: Chain)
    requires ValidConstants(c)
  {
    ch.Snoc? ==> FullyValid(c, ch.prev) && StepOk(c, ch.prev, ch.top) && BodyOk(c, ch.prev, ch.top.block)
  }

  lemma {:induction false} FullyValidIsValid(c: Consensus, ch: Chain)
    requires ValidConstants(c) && FullyValid(c, ch)
    ensures ValidChain(c, ch)
  {
    if ch.Snoc? { FullyValidIsValid(c, ch.prev); }
  }
}
