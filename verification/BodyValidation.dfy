/**
  Body validation as the program runs it: against the coin table of the main chain, with the
  blocks since the fork replayed for a block on another branch. The verdict is exactly that the
  body is valid on top of the block's own ancestors.
 */
module BodyValidation {
  import opened Types
  import opened Chains
  import opened BlockTree
  import opened HeaderRules
  import opened CoinSet
  import opened CoinHistory
  import opened ForkPoint
  import opened ForkCoins
  import opened MainChain
  import opened Generators
  import opened Supply

  // ---------------------------------------------------------------- small loops

  /** Checks 13 and 14: whether a name occurs more than once. */
  method HasDuplicate(xs: seq<Coin>) returns (found: bool)
    ensures found <==> !Distinct(xs)
  {
    var seen := {};
    for i := 0 to |xs|
      invariant seen == Members(xs[..i]) && Distinct(xs[..i])
    {
      DistinctSnoc(xs[..i], xs[i]);
      assert xs[..i + 1] == xs[..i] + [xs[i]];
      if xs[i] in seen {
        assert !Distinct(xs[..i + 1]);
        return true;
      }
      seen := seen + {xs[i]};
    }
    assert xs[..|xs|] == xs;
    found := false;
  }

  method TotalAmount(coins: set<Coin>) returns (total: nat)
    ensures total == Value(coins)
  {
    total := 0;
    var rest := coins;
    while rest != {}
      invariant total + Value(rest) == Value(coins)
    {
      var x :| x in rest;
      ValueRemove(rest, x);
      total := total + x.amount;
      rest := rest - {x};
    }
  }

  // ---------------------------------------------------------------- 5: rewards

  lemma {:induction false} LastTxInTree(blocks: Blocks, ch: Chain)
    requires Closed(blocks) && InTree(blocks, ch) && Numbered(ch)
    ensures InTree(blocks, LastTx(ch))
  {
    LastTxPrefix(ch);
    LastTxBelow(ch);
    PrefixIsUpTo(LastTx(ch), ch);
    InTreeCut(blocks, ch, Height(LastTx(ch)));
  }

  /** The rewards that a transaction block must claim, collected by walking parent hashes. */
  method CollectRewards(blocks: Blocks, block: FullBlock, ghost ch: Chain) returns (expected: set<Coin>)
    requires Closed(blocks) && block.foliage.Some? && block.height == Height(ch) + 1
    requires (block.height > 0 ==> block.prevHash in blocks) && ch == ParentPath(blocks, block)
    requires ch.Snoc? ==>
      var t := LastTx(ch);
      && t.Snoc? && t.top.block.info.Some? && t.top.block.headerHash == block.foliage.value.prevTransactionBlock
      && (t.prev.Snoc? ==> LastTx(t.prev).Snoc?)
    ensures expected == ExpectedRewards(ch)
  {
    expected := {};
    if block.height > 0 {
      ghost var t := LastTx(ch);
      LastTxInTree(blocks, ch);
      var prevTransactionBlock := blocks[block.foliage.value.prevTransactionBlock].block;
      expected := {PoolCoin(prevTransactionBlock),
        FarmerCoin(prevTransactionBlock, prevTransactionBlock.info.value.fees)};
      if prevTransactionBlock.height > 0 {
        assert Linked(blocks, prevTransactionBlock.headerHash);
        var curr := blocks[prevTransactionBlock.prevHash];
        assert Linked(blocks, curr.block.headerHash);
        while !curr.IsTransactionBlock()
          invariant curr.block.headerHash in blocks && blocks[curr.block.headerHash] == curr
          invariant LastTx(Path(blocks, curr.block.headerHash)).Snoc?
          invariant expected + RewardsBelow(Path(blocks, curr.block.headerHash)) == ExpectedRewards(ch)
          decreases curr.block.height
        {
          assert Linked(blocks, curr.block.headerHash);
          expected := expected + {PoolCoin(curr.block)};
          expected := expected + {FarmerCoin(curr.block, 0)};
          assert curr.block.height > 0;
          curr := blocks[curr.block.prevHash];
        }
      }
    }
  }

  // ---------------------------------------------------------------- 15: what the branch did since the fork

  /** The branch's changes split into those below a block and those already collected. */
  ghost predicate Collected(c: Consensus, ch: Chain, below: Chain, fork: int, d: Delta) {
    var rest := Since(c, below, fork);
    && Since(c, ch, fork) == Delta(rest.added + d.added, rest.spent + d.spent)
    && rest.added.Keys !! d.added.Keys && rest.spent !! d.spent
  }

  lemma {:induction false} Regroup(a: Delta, b: Delta, d: Delta)
    requires a.added.Keys !! b.added.Keys && a.spent !! b.spent
    requires (a.added + b.added).Keys !! d.added.Keys && (a.spent + b.spent) !! d.spent
    ensures a.added + b.added + d.added == a.added + (d.added + b.added)
    ensures a.spent + b.spent + d.spent == a.spent + (d.spent + b.spent)
    ensures a.added.Keys !! (d.added + b.added).Keys && a.spent !! d.spent + b.spent
    ensures b.added.Keys !! d.added.Keys && b.spent !! d.spent
  {}

  /** The changes of one block. */
  function Changes(c: Consensus, ch: Chain, b: FullBlock): Delta
    requires b.foliage.Some?
  {
    Delta(Dated(Added(c, ch, b), b.height, b.foliage.value.timestamp), Members(Spent(c, ch, b)))
  }

  lemma {:induction false} CollectedStep(c: Consensus, ch: Chain, below: Chain, fork: int, d: Delta)
    requires GoodBodies(c, below) && below.Snoc? && below.top.block.height > fork && Collected(c, ch, below, fork, d)
    requires below.top.IsTransactionBlock()
    ensures var here := Changes(c, below.prev, below.top.block);
            && here.added.Keys !! d.added.Keys && here.spent !! d.spent
            && Collected(c, ch, below.prev, fork, Delta(d.added + here.added, d.spent + here.spent))
  {
    var b := below.top.block;
    NewSinceFork(c, below, fork);
    assert Dated(Added(c, below.prev, b), b.height, b.foliage.value.timestamp).Keys == Members(Added(c, below.prev, b));
    Regroup(Since(c, below.prev, fork), Changes(c, below.prev, b), d);
  }

  /** A block neither adds nor spends again what its branch has added or spent since the fork. */
  lemma {:induction false} NewSinceFork(c: Consensus, ch: Chain, fork: int)
    requires GoodBodies(c, ch) && ch.Snoc? && ch.top.IsTransactionBlock()
    ensures var rest := Since(c, ch.prev, fork);
            && Members(Added(c, ch.prev, ch.top.block)) !! rest.added.Keys
            && Members(Spent(c, ch.prev, ch.top.block)) !! rest.spent
  {
    var b, rest, base, now := ch.top.block, Since(c, ch.prev, fork), Replay(c, UpTo(ch.prev, fork)), Replay(c, ch.prev);
    BodiesNumbered(c, ch);
    SinceSplits(c, ch.prev, fork);
    ReplayExplained(c, ch.prev);
    ExtendStep(c, ch.prev, b);
    forall x
      ensures x in Added(c, ch.prev, b) ==> x !in rest.added
      ensures x in Spent(c, ch.prev, b) ==> x !in rest.spent
    {
      assert RowSplit(base, rest, now, fork, x);
      assert RowStep(now, Replay(c, ch), b.height, b.foliage.value.timestamp, Added(c, ch.prev, b),
          Spent(c, ch.prev, b), x);
    }
  }

  lemma {:induction false} NotAmong(xs: seq<Coin>, known: set<Coin>, i: nat)
    requires Distinct(xs) && Members(xs) !! known && i < |xs|
    ensures xs[i] !in known && xs[i] !in xs[..i]
  {
    assert xs[i] in Members(xs);
  }

  method AddSpent(spent: set<Coin>, names: seq<Coin>) returns (r: set<Coin>)
    requires Distinct(names) && Members(names) !! spent
    ensures r == spent + Members(names)
  {
    r := spent;
    for i := 0 to |names|
      invariant r == spent + Members(names[..i])
    {
      DistinctSnoc(names[..i], names[i]);
      assert names[..i + 1] == names[..i] + [names[i]];
      NotAmong(names, spent, i);
      assert names[i] !in r;
      r := r + {names[i]};
    }
    assert names[..|names|] == names;
  }

  lemma {:induction false} DatedSnoc(added: map<Coin, (nat, nat)>, xs: seq<Coin>, x: Coin, height: nat, timestamp: nat)
    ensures added + Dated(xs + [x], height,
        timestamp) == (added + Dated(xs, height, timestamp))[x := (height, timestamp)]
  {}

  method AddAdditions(added: map<Coin, (nat, nat)>, coins: seq<Coin>, height: nat, timestamp: nat)
    returns (r: map<Coin, (nat, nat)>)
    requires Distinct(coins) && Members(coins) !! added.Keys
    ensures r == added + Dated(coins, height, timestamp)
  {
    r := added;
    for i := 0 to |coins|
      invariant r == added + Dated(coins[..i], height, timestamp)
    {
      assert coins[..i + 1] == coins[..i] + [coins[i]];
      DatedSnoc(added, coins[..i], coins[i], height, timestamp);
      NotAmong(coins, added.Keys, i);
      assert coins[i] !in r;
      r := r[coins[i] := (height, timestamp)];
    }
    assert coins[..|coins|] == coins;
  }

  /** One step down a path: the parent is the block of the path one height below. */
  lemma {:induction false} Descend(blocks: Blocks, h: Hash, path: Chain)
    requires Closed(blocks) && h in blocks && Numbered(path) && IsPrefix(Path(blocks, h), path)
             && blocks[h].block.height > 0
    ensures var p := blocks[h].block.prevHash;
            && p in blocks && blocks[p].block.headerHash == p && blocks[p].block.height + 1 == blocks[h].block.height
            && Path(blocks, p) == Path(blocks, h).prev && IsPrefix(Path(blocks, p), path)
            && blocks[p].block.height <= Height(path) && At(path, blocks[p].block.height) == blocks[p]
  {
    assert Linked(blocks, h);
    var p := blocks[h].block.prevHash;
    assert Linked(blocks, p);
    PrefixTrans(Path(blocks, p), Path(blocks, h), path);
    PrefixIsUpTo(Path(blocks, p), path);
  }

  /** The blocks of a branch below a block, down to the fork. */
  method CollectReorgBlocks(blocks: Blocks, prev: FullBlock, fork: int) returns (reorg: map<nat, FullBlock>)
    requires Closed(blocks) && prev.headerHash in blocks && blocks[prev.headerHash].block == prev
             && -1 <= fork <= prev.height
    ensures forall i: nat | fork <= i < prev.height ::
        i in reorg && reorg[i] == At(Path(blocks, prev.headerHash), i).block
    ensures fork != -1 ==> |reorg| == prev.height - fork
  {
    reorg := map[];
    var curr := prev;
    ghost var path := Path(blocks, prev.headerHash);
    while curr.height > fork && curr.height != 0
      invariant curr.headerHash in blocks && blocks[curr.headerHash].block == curr && fork <= curr.height
      invariant IsPrefix(Path(blocks, curr.headerHash), path)
      invariant forall i: nat | curr.height <= i < prev.height :: i in reorg && reorg[i] == At(path, i).block
      invariant |reorg| == prev.height - curr.height && forall i | i in reorg :: curr.height <= i
      decreases curr.height
    {
      Descend(blocks, curr.headerHash, path);
      curr := blocks[curr.prevHash].block;
      reorg := reorg[curr.height := curr];
    }
  }

  /** A state of the node: its stores, the coin table and the main chain they describe, with every
      block of the tree valid on top of its own ancestors. */
  ghost predicate NodeOk(c: Consensus, s: Stores, coins: Coins, main: Chain) {
    && Describes(s, main) && RootedAt(s.blocks, c.genesisChallenge)
    && coins == Replay(c, main)
    && forall h {:trigger GoodAt(c, s.blocks, h)} | h in s.blocks :: GoodAt(c, s.blocks, h)
  }

  ghost predicate GoodAt(c: Consensus, blocks: Blocks, h: Hash)
    requires Closed(blocks) && h in blocks
  {
    GoodBodies(c, Path(blocks, h))
  }

  /** Runs a block of the branch once more and returns what it adds and spends. */
  method Rerun(c: Consensus, s: Stores, ghost coins: Coins, ghost main: Chain, block: FullBlock)
    returns (additions: seq<Coin>, removals: seq<Coin>)
    requires NodeOk(c, s, coins, main) && block.headerHash in s.blocks && s.blocks[block.headerHash].block == block
    requires block.foliage.Some?
    ensures var ch := Path(s.blocks, block.headerHash).prev;
            additions == Additions(Spends(c, ch, block)) && removals == Spent(c, ch, block)
  {
    ghost var path := Path(s.blocks, block.headerHash);
    assert Linked(s.blocks, block.headerHash) && GoodAt(c, s.blocks, block.headerHash);
    additions, removals := [], [];
    if block.generator.Some? {
      var g := GetBlockGenerator(s, main, block, map[], path.prev);
      var npc := c.run(g.value.value.program, g.value.value.refs);
      additions, removals := TxRemovalsAndAdditions(npc.conditions.spends);
    }
  }

  method TxRemovalsAndAdditions(spends: seq<Spend>) returns (additions: seq<Coin>, removals: seq<Coin>)
    ensures additions == Additions(spends) && removals == Removals(spends)
  {
    additions, removals := [], [];
    for i := 0 to |spends|
      invariant additions == Additions(spends[..i]) && removals == Removals(spends[..i])
    {
      removals := removals + [spends[i].coin];
      var created := [];
      for j := 0 to |spends[i].created|
        invariant created == Created(spends[i].coin, spends[i].created[..j])
      {
        var n := spends[i].created[j];
        created := created + [Coin(SpentCoin(spends[i].coin), n.puzzleHash, n.amount)];
        assert spends[i].created[..j + 1][..j] == spends[i].created[..j];
      }
      assert spends[i].created[..|spends[i].created|] == spends[i].created;
      additions := additions + created;
      assert spends[..i + 1][..i] == spends[..i];
    }
    assert spends[..|spends|] == spends;
  }

  /** Adds the changes of one block of the branch; none of them has been collected before. */
  method AddToDelta(c: Consensus, s: Stores, ghost coins: Coins, ghost main: Chain, ghost path: Chain,
                    ghost below: Chain, curr: FullBlock, fork: int, d: Delta) returns (r: Delta)
    requires NodeOk(c, s, coins, main) && curr.headerHash in s.blocks && s.blocks[curr.headerHash].block == curr
    requires curr.height > fork && below == Path(s.blocks, curr.headerHash) && Collected(c, path, below, fork, d)
    ensures Collected(c, path, below.prev, fork, r)
  {
    assert GoodAt(c, s.blocks, curr.headerHash);
    r := d;
    if curr.foliage.Some? {
      CollectedStep(c, path, below, fork, d);
      BlockAmounts(c, below.prev, curr);
      var additions, removals := Rerun(c, s, coins, main, curr);
      var spent := AddSpent(d.spent, removals);
      var added := AddAdditions(d.added, additions + curr.IncludedRewardCoins(), curr.height,
          curr.foliage.value.timestamp);
      r := Delta(added, spent);
    }
  }

  lemma {:induction false} CollectedStart(c: Consensus, ch: Chain, fork: int)
    ensures Collected(c, ch, ch, fork, Delta(map[], {}))
  {}

  lemma {:induction false} CollectedAll(c: Consensus, ch: Chain, below: Chain, fork: int, d: Delta)
    requires Collected(c, ch, below, fork, d) && (below.Empty? || below.top.block.height <= fork)
    ensures d == Since(c, ch, fork)
  {}

  /** Additions and removals of the branch since the fork, newest block first. */
  method DeltaSince(c: Consensus, s: Stores, ghost coins: Coins, ghost main: Chain, prev: FullBlock, fork: int)
    returns (d: Delta)
    requires NodeOk(c, s, coins, main) && prev.headerHash in s.blocks && s.blocks[prev.headerHash].block == prev
    requires -1 <= fork <= prev.height
    ensures d == Since(c, Path(s.blocks, prev.headerHash), fork)
  {
    var reorg := CollectReorgBlocks(s.blocks, prev, fork);
    ghost var path := Path(s.blocks, prev.headerHash);
    d := Delta(map[], {});
    CollectedStart(c, path, fork);
    var curr := prev;
    ghost var below := path;
    while curr.height > fork
      invariant curr.headerHash in s.blocks && s.blocks[curr.headerHash].block == curr
      invariant fork <= curr.height <= prev.height
      invariant below == Path(s.blocks, curr.headerHash) && IsPrefix(below, path)
      invariant Collected(c, path, below, fork, d)
      decreases curr.height
    {
      d := AddToDelta(c, s, coins, main, path, below, curr, fork, d);
      if curr.height == 0 {
        CollectedAll(c, path, Empty, fork, d);
        return;
      }
      Descend(s.blocks, curr.headerHash, path);
      ghost var parent := s.blocks[curr.prevHash].block;
      assert reorg[parent.height] == parent;
      below := below.prev;
      curr := reorg[curr.height - 1];
      assert curr == parent;
    }
    CollectedAll(c, path, below, fork, d);
  }

  // ---------------------------------------------------------------- 15: looking up the spent coins

  /** The height and time of a coin to be spent, as the look-ups report them. */
  function OriginOf(table: Coins, fork: int, d: Delta, added: set<Coin>, here: (nat, nat),
                    x: Coin): Result<(nat, nat)> {
    if x in added then Ok(here) else Lookup(table, fork, d, x)
  }

  /** Every coin of a set that has been dealt with has a record with its right origin. */
  ghost predicate RecordsFor(records: map<Coin, (nat, nat)>, done: set<Coin>, table: Coins, fork: int, d: Delta,
                             added: set<Coin>, here: (nat, nat)) {
    && records.Keys == done
    && forall x | x in records :: OriginOf(table, fork, d, added, here, x) == Ok(records[x])
  }

  /** Coins added by the block itself are recorded at once, the others are to be looked up, unless
      the branch has spent them. */
  method SortRemovals(removals: seq<Coin>, added: set<Coin>, here: (nat, nat), d: Delta, ghost table: Coins,
                      ghost fork: int)
    returns (records: map<Coin, (nat, nat)>, fromDb: seq<Coin>, failed: bool)
    ensures failed <==> exists x | x in removals :: x !in added && x in d.spent
    ensures !failed ==>
      && RecordsFor(records, Members(removals) * added, table, fork, d, added, here)
      && Members(fromDb) == Members(removals) - added && Members(fromDb) !! d.spent
  {
    records, fromDb, failed := map[], [], false;
    for i := 0 to |removals|
      invariant RecordsFor(records, Members(removals[..i]) * added, table, fork, d, added, here)
      invariant Members(fromDb) == Members(removals[..i]) - added && Members(fromDb) !! d.spent
      invariant forall x | x in removals[..i] :: x in added || x !in d.spent
    {
      var rem := removals[i];
      assert removals[..i + 1] == removals[..i] + [rem];
      DistinctSnoc(removals[..i], rem);
      if rem in added {
        records := records[rem := here];
      } else {
        if rem in d.spent { return map[], [], true; }
        DistinctSnoc(fromDb, rem);
        fromDb := fromDb + [rem];
      }
    }
    assert removals[..|removals|] == removals;
  }

  predicate InMainBefore(table: Coins, fork: int, x: Coin) { x in table && table[x].confirmed <= fork }

  /** Coins of the main chain up to the fork are recorded, the others are left for the branch. */
  method LookInTable(table: Coins, fork: int, fromDb: seq<Coin>, known: map<Coin, (nat, nat)>, ghost d: Delta,
                     ghost added: set<Coin>, ghost here: (nat, nat))
    returns (records: map<Coin, (nat, nat)>, lookInFork: seq<Coin>, failed: bool)
    requires Members(fromDb) !! added && Members(fromDb) !! d.spent
             && RecordsFor(known, known.Keys, table, fork, d, added, here)
    ensures failed <==> exists x | x in fromDb :: InMainBefore(table, fork, x) && 0 < table[x].spent <= fork
    ensures !failed ==>
      && RecordsFor(records, records.Keys, table, fork, d, added, here)
      && (forall x :: x in records <==> x in known || (x in fromDb && InMainBefore(table, fork, x)))
      && (forall x :: x in lookInFork <==> x in fromDb && !InMainBefore(table, fork, x))
  {
    records, lookInFork, failed := known, [], false;
    for i := 0 to |fromDb|
      invariant RecordsFor(records, records.Keys, table, fork, d, added, here)
      invariant forall x :: x in records <==> x in known || (x in fromDb[..i] && InMainBefore(table, fork, x))
      invariant forall x :: x in lookInFork <==> x in fromDb[..i] && x in table && !InMainBefore(table, fork, x)
      invariant forall x | x in fromDb[..i] && InMainBefore(table, fork, x) :: !(0 < table[x].spent <= fork)
    {
      var x := fromDb[i];
      assert fromDb[..i + 1] == fromDb[..i] + [x];
      assert x in Members(fromDb);
      if x in table {
        if table[x].confirmed <= fork {
          if 0 < table[x].spent <= fork { return map[], [], true; }
          records := records[x := (table[x].confirmed, table[x].timestamp)];
        } else {
          lookInFork := lookInFork + [x];
        }
      }
    }
    assert fromDb[..|fromDb|] == fromDb;
    for i := 0 to |fromDb|
      invariant forall x ::
          x in lookInFork <==>
            (x in fromDb && x in table && !InMainBefore(table, fork, x)) || (x in fromDb[..i] && x !in table)
    {
      assert fromDb[..i + 1] == fromDb[..i] + [fromDb[i]];
      if fromDb[i] !in table { lookInFork := lookInFork + [fromDb[i]]; }
    }
    assert fromDb[..|fromDb|] == fromDb;
  }

  /** What is left must have been added by the branch. */
  method LookInBranch(table: Coins, fork: int, d: Delta, lookInFork: seq<Coin>, known: map<Coin, (nat, nat)>,
                      ghost added: set<Coin>, ghost here: (nat, nat))
    returns (records: map<Coin, (nat, nat)>, failed: bool)
    requires forall x | x in lookInFork :: x !in added && x !in d.spent && !InMainBefore(table, fork, x)
    requires RecordsFor(known, known.Keys, table, fork, d, added, here)
    ensures failed <==> exists x | x in lookInFork :: x !in d.added
    ensures !failed ==> RecordsFor(records, known.Keys + Members(lookInFork), table, fork, d, added, here)
  {
    records, failed := known, false;
    for i := 0 to |lookInFork|
      invariant RecordsFor(records, known.Keys + Members(lookInFork[..i]), table, fork, d, added, here)
      invariant forall x | x in lookInFork[..i] :: x in d.added
    {
      var x := lookInFork[i];
      assert lookInFork[..i + 1] == lookInFork[..i] + [x];
      DistinctSnoc(lookInFork[..i], x);
      if x !in d.added { return map[], true; }
      records := records[x := d.added[x]];
    }
    assert lookInFork[..|lookInFork|] == lookInFork;
  }

  /** All spent coins are looked up; it succeeds exactly when every one of them can be found. */
  method FindSpentCoins(table: Coins, fork: int, d: Delta, removals: seq<Coin>, added: set<Coin>, here: (nat, nat))
    returns (r: Result<map<Coin, (nat, nat)>>)
    ensures r.Ok? <==> forall x | x in removals :: OriginOf(table, fork, d, added, here, x).Ok?
    ensures r.Ok? ==> RecordsFor(r.value, Members(removals), table, fork, d, added, here)
    ensures r == Err(DoubleSpendInFork) <==> exists x | x in removals :: x !in added && x in d.spent
  {
    var records, fromDb, lookInFork, failed;
    records, fromDb, failed := SortRemovals(removals, added, here, d, table, fork);
    if failed { return Err(DoubleSpendInFork); }
    assert forall x :: x in fromDb <==> x in Members(fromDb);
    records, lookInFork, failed := LookInTable(table, fork, fromDb, records, d, added, here);
    if failed {
      ghost var x :| x in fromDb && InMainBefore(table, fork, x) && 0 < table[x].spent <= fork;
      assert OriginOf(table, fork, d, added, here, x).Err?;
      return Err(DoubleSpend);
    }
    ghost var known := records;
    records, failed := LookInBranch(table, fork, d, lookInFork, records, added, here);
    if failed {
      ghost var x :| x in lookInFork && x !in d.added;
      assert OriginOf(table, fork, d, added, here, x).Err?;
      return Err(UnknownUnspent);
    }
    assert known.Keys + Members(lookInFork) == Members(removals);
    r := Ok(records);
  }

  // ---------------------------------------------------------------- the checks

  /** What header validation has established before the body is looked at. */
  ghost predicate HeaderDone(ch: Chain, block: FullBlock) {
    && block.height == Height(ch) + 1
    && (ch.Empty? ==> block.foliage.Some?)
    && (ch.Snoc? && block.foliage.Some? ==>
          LastTx(ch).Snoc? && block.foliage.value.prevTransactionBlock == LastTx(ch).top.block.headerHash)
  }

  /** What pre-validation hands over: the result of running the block's generator. */
  ghost predicate Honest(c: Consensus, ch: Chain, block: FullBlock, npc: Option<NpcResult>) {
    && (npc.Some? <==> block.generator.Some?)
    && (npc.Some? && (forall i | 0 <= i < |block.generatorRefs| :: block.generatorRefs[i] < block.height) ==>
          npc.value == RunBlock(c, ch, block))
  }

  /** All references point below the block. */
  predicate PastRefs(block: FullBlock) {
    forall i | 0 <= i < |block.generatorRefs| :: block.generatorRefs[i] < block.height
  }

  /** The block's generator can be run on top of a chain, and runs without an error. */
  predicate Runs(c: Consensus, ch: Chain, block: FullBlock) {
    PastRefs(block) && (block.generator.None? ==> block.generatorRefs == []) && RunBlock(c, ch, block) != NpcError
  }

  lemma {:induction false} ValidBodyRuns(c: Consensus, ch: Chain, block: FullBlock)
    requires BodyOk(c, ch, block)
    ensures Runs(c, ch, block)
  {}

  /** Checks 5 to 9. */
  method CheckClaims(c: Consensus, blocks: Blocks, block: FullBlock, npc: Option<NpcResult>, ghost ch: Chain)
    returns (e: Option<Error>)
    requires Closed(blocks) && (block.height > 0 ==> block.prevHash in blocks) && ch == ParentPath(blocks, block)
    requires GoodBodies(c, ch) && HeaderDone(ch, block) && Honest(c, ch, block, npc)
    requires block.foliage.Some? && block.info.Some?
    ensures e.None? <==> ClaimsOk(c, ch, block)
  {
    RewardsReady(c, ch);
    var expected := CollectRewards(blocks, block, ch);
    var claims := block.info.value.rewardClaims;
    CardinalityIsLength(claims);
    if Members(claims) != expected { return Some(InvalidRewardCoins); }
    if |claims| != |expected| { return Some(InvalidRewardCoins); }
    if block.generatorRefs != [] {
      if block.generator.None? { return Some(InvalidGeneratorRefs); }
      if |block.generatorRefs| > c.maxGeneratorRefs { return Some(TooManyGeneratorRefs); }
      if exists i | 0 <= i < |block.generatorRefs| ::
          block.generatorRefs[i] >= block.height { return Some(FutureGeneratorRefs); }
    }
    var cost := 0;
    if npc.Some? {
      if npc.value.NpcError? { return Some(GeneratorRuntimeError); }
      cost := npc.value.cost;
      if cost > c.maxBlockCost { return Some(BlockCostExceedsMax); }
    }
    e := if block.info.value.cost != cost then Some(InvalidBlockCost) else None;
  }

  lemma {:induction false} RewardsReady(c: Consensus, ch: Chain)
    requires GoodBodies(c, ch)
    ensures ch.Snoc? ==>
        LastTx(ch).Snoc? && LastTx(ch).top.block.info.Some? && (LastTx(ch).prev.Snoc? ==> LastTx(LastTx(ch).prev).Snoc?)
  {
    BodiesNumbered(c, ch);
    LastTxBodies(c, ch);
    if ch.Snoc? { BodiesNumbered(c, LastTx(ch).prev); }
  }

  /** Check 21. */
  method CheckTimeLocks(records: map<Coin, (nat, nat)>, conditions: Conditions, prevTxHeight: nat, timestamp: nat)
    returns (failed: bool)
    requires forall i | 0 <= i < |conditions.spends| :: conditions.spends[i].coin in records
    ensures !failed <==>
      && prevTxHeight >= conditions.heightAbsolute && timestamp >= conditions.secondsAbsolute
      && forall i | 0 <= i < |conditions.spends| ::
           TimeLockOk(conditions.spends[i], records[conditions.spends[i].coin], prevTxHeight, timestamp)
  {
    if prevTxHeight < conditions.heightAbsolute { return true; }
    if timestamp < conditions.secondsAbsolute { return true; }
    for i := 0 to |conditions.spends|
      invariant forall j | 0 <= j < i ::
        TimeLockOk(conditions.spends[j], records[conditions.spends[j].coin], prevTxHeight, timestamp)
    {
      var spend := conditions.spends[i];
      var unspent := records[spend.coin];
      if spend.heightRelative.Some? && prevTxHeight < unspent.0 + spend.heightRelative.value {
        assert !TimeLockOk(spend, unspent, prevTxHeight, timestamp);
        return true;
      }
      if timestamp < unspent.1 + spend.secondsRelative {
        assert !TimeLockOk(spend, unspent, prevTxHeight, timestamp);
        return true;
      }
    }
    failed := false;
  }

  /** The fork that the body check uses: the caller's, or the one found by walking back. */
  method ForkHeight(s: Stores, ghost main: Chain, block: FullBlock, forkPoint: Option<nat>) returns (fork: int)
    requires Describes(s, main) && (block.height > 0 ==> block.prevHash in s.blocks)
    requires block.height == Height(ParentPath(s.blocks, block)) + 1
    requires forkPoint.Some? ==> Agree(main, ParentPath(s.blocks, block), forkPoint.value)
    ensures Agree(main, ParentPath(s.blocks, block), fork)
  {
    if s.peak.None? || block.height == 0 {
      fork := -1;
      UpToReaches(main, -1);
      NumberedHeight(main);
      NumberedHeight(UpTo(main, -1));
    } else if forkPoint.Some? {
      fork := forkPoint.value;
    } else {
      assert Linked(s.blocks, block.prevHash) && Linked(s.blocks, main.top.block.headerHash);
      fork := FindForkPointInChain(s.blocks, s.peak.value, s.blocks[block.prevHash]);
    }
  }

  /** The look-ups see exactly the coins that the block's own ancestors leave to be spent. */
  lemma {:induction false} OriginsAreOwn(c: Consensus, main: Chain, ch: Chain, fork: int, block: FullBlock,
                                         added: seq<Coin>, x: Coin)
    requires GoodBodies(c, main) && GoodBodies(c, ch) && Agree(main, ch, fork) && block.foliage.Some?
    ensures var r := OriginOf(Replay(c, main), fork, Since(c, ch, fork), Members(added),
        (block.height, block.foliage.value.timestamp), x);
            && (r.Ok? <==> Spendable(Replay(c, ch), added, x))
            && (r.Ok? ==> r.value == Origin(Replay(c, ch), added, block, x))
  {
    LookupSeesOwnHistory(c, main, ch, fork, x);
  }

  lemma {:induction false} RemovalsOf(spends: seq<Spend>)
    ensures |Removals(spends)| == |spends|
    ensures forall i | 0 <= i < |spends| :: Removals(spends)[i] == spends[i].coin
  {
    if spends != [] { RemovalsOf(spends[..|spends| - 1]); }
  }

  /** Check 15: fork point, changes since the fork, and the look-ups. */
  method FindOrigins(c: Consensus, s: Stores, coins: Coins, ghost main: Chain, block: FullBlock, forkPoint: Option<nat>,
                     removals: seq<Coin>, added: seq<Coin>) returns (r: Result<map<Coin, (nat, nat)>>)
    requires NodeOk(c, s, coins, main) && block.foliage.Some? && (block.height > 0 ==> block.prevHash in s.blocks)
    requires block.height == Height(ParentPath(s.blocks, block)) + 1
    requires forkPoint.Some? ==> Agree(main, ParentPath(s.blocks, block), forkPoint.value)
    ensures var own := Replay(c, ParentPath(s.blocks, block));
            && (r.Ok? <==> forall x | x in removals :: Spendable(own, added, x))
            && (r.Ok? ==> r.value.Keys == Members(removals) && forall x | x in removals ::
              r.value[x] == Origin(own, added, block, x))
  {
    ghost var ch := ParentPath(s.blocks, block);
    if ch.Snoc? { assert GoodAt(c, s.blocks, block.prevHash); }
    if main.Snoc? { assert GoodAt(c, s.blocks, main.top.block.headerHash); }
    var fork := ForkHeight(s, main, block, forkPoint);
    var d := Delta(map[], {});
    if block.height > 0 {
      assert Linked(s.blocks, block.prevHash);
      d := DeltaSince(c, s, coins, main, s.blocks[block.prevHash].block, fork);
    }
    var here := (block.height, block.foliage.value.timestamp);
    r := FindSpentCoins(coins, fork, d, removals, Members(added), here);
    forall x ensures OriginOf(coins, fork, d, Members(added), here, x).Ok? <==> Spendable(Replay(c, ch), added, x)
      ensures Spendable(Replay(c, ch), added, x) ==>
                OriginOf(coins, fork, d, Members(added), here, x) == Ok(Origin(Replay(c, ch), added, block, x))
    {
      OriginsAreOwn(c, main, ch, fork, block, added, x);
    }
  }

  /** Checks 16 to 19, on the coins found. */
  method CheckFees(c: Consensus, block: FullBlock, conditions: Conditions, additions: seq<Coin>, spent: set<Coin>)
    returns (e: Option<Error>)
    requires block.info.Some? && Distinct(Removals(conditions.spends)) && spent == Members(Removals(conditions.spends))
    requires additions == Additions(conditions.spends)
    ensures e.None? <==> FeesOk(c, block, conditions)
  {
    var removed := TotalAmount(spent);
    ValueOfSeq(Removals(conditions.spends));
    var sum := SumAmounts(additions);
    if removed < sum { return Some(MintingCoin); }
    var fees := removed - sum;
    if fees < conditions.reserveFee { return Some(ReserveFeeConditionFailed); }
    if fees + CalculateBaseFarmerReward(block.height) > c.maxCoinAmount { return Some(CoinAmountExceedsMaximum); }
    e := if block.info.value.fees != fees then Some(InvalidBlockFeeAmount) else None;
  }

  /** Checks 20 and 21, on the coins found. */
  method CheckLocks(ghost coins: Coins, prevTxHeight: nat, block: FullBlock, conditions: Conditions,
                    records: map<Coin, (nat, nat)>, ghost added: seq<Coin>) returns (e: Option<Error>)
    requires block.foliage.Some? && records.Keys == Members(Removals(conditions.spends))
    requires forall x | x in Removals(conditions.spends) :: records[x] == Origin(coins, added, block, x)
    ensures e.None? <==> LocksOk(coins, prevTxHeight, block, conditions, added)
  {
    if exists i | 0 <= i < |conditions.spends| ::
        conditions.spends[i].coin.puzzleHash != conditions.spends[i].puzzleHash {
      return Some(WrongPuzzleHash);
    }
    forall i | 0 <= i < |conditions.spends|
      ensures conditions.spends[i].coin in records
      ensures records[conditions.spends[i].coin] == Origin(coins, added, block, conditions.spends[i].coin)
    {
      SpentHasRecord(conditions.spends, records, i);
    }
    var failed := CheckTimeLocks(records, conditions, prevTxHeight, block.foliage.value.timestamp);
    e := if failed then Some(TimeLockFailed) else None;
  }

  lemma {:induction false} SpentHasRecord(spends: seq<Spend>, records: map<Coin, (nat, nat)>, i: nat)
    requires i < |spends| && records.Keys == Members(Removals(spends))
    ensures spends[i].coin in records && spends[i].coin in Removals(spends)
  {
    RemovalsOf(spends);
    assert Removals(spends)[i] in Removals(spends);
  }

  method SumAmounts(coins: seq<Coin>) returns (total: nat)
    ensures total == Sum(coins)
  {
    total := 0;
    for i := 0 to |coins|
      invariant total == Sum(coins[..i])
    {
      assert coins[..i + 1][..i] == coins[..i];
      total := total + coins[i].amount;
    }
    assert coins[..|coins|] == coins;
  }

  /** Checks 10, 13 and 14. */
  method CheckNames(c: Consensus, added: seq<Coin>, removals: seq<Coin>) returns (e: Option<Error>)
    ensures e.None? <==> NamesOk(c, added, removals)
  {
    if exists i | 0 <= i < |added| :: added[i].amount > c.maxCoinAmount { return Some(CoinAmountExceedsMaximum); }
    var duplicate := HasDuplicate(added);
    if duplicate { return Some(DuplicateOutput); }
    duplicate := HasDuplicate(removals);
    e := if duplicate then Some(DoubleSpend) else None;
  }

  /** Checks 10 to 21. */
  method CheckSpends(c: Consensus, s: Stores, coins: Coins, ghost main: Chain, block: FullBlock, conditions: Conditions,
                     prevTxHeight: nat, forkPoint: Option<nat>) returns (e: Option<Error>)
    requires NodeOk(c, s, coins, main) && block.foliage.Some? && block.info.Some?
             && (block.height > 0 ==> block.prevHash in s.blocks)
    requires block.height == Height(ParentPath(s.blocks, block)) + 1
    requires forkPoint.Some? ==> Agree(main, ParentPath(s.blocks, block), forkPoint.value)
    ensures e.None? <==> SpendsOk(c, Replay(c, ParentPath(s.blocks, block)), prevTxHeight, block, conditions)
  {
    var additions, removals := TxRemovalsAndAdditions(conditions.spends);
    var added := additions + block.info.value.rewardClaims;
    e := CheckNames(c, added, removals);
    if e.Some? { return; }
    var records := FindOrigins(c, s, coins, main, block, forkPoint, removals, added);
    if records.Err? { return Some(records.error); }
    e := CheckFees(c, block, conditions, additions, records.value.Keys);
    if e.Some? { return; }
    e := CheckLocks(Replay(c, ParentPath(s.blocks, block)), prevTxHeight, block, conditions, records.value, added);
  }

  /** Validates a block body. Whatever branch the block is on and whatever the main chain is, the
      verdict is that the body is valid on top of the block's own ancestors. */
  method ValidateBlockBody(c: Consensus, s: Stores, coins: Coins, ghost main: Chain, block: FullBlock,
                           npc: Option<NpcResult>, forkPoint: Option<nat>) returns (e: Option<Error>)
    requires NodeOk(c, s, coins, main) && (block.height > 0 ==> block.prevHash in s.blocks)
    requires HeaderDone(ParentPath(s.blocks, block), block) && Honest(c, ParentPath(s.blocks, block), block, npc)
    requires forkPoint.Some? ==> Agree(main, ParentPath(s.blocks, block), forkPoint.value)
    ensures e.None? <==> BodyOk(c, ParentPath(s.blocks, block), block)
  {
    ghost var ch := ParentPath(s.blocks, block);
    if block.foliage.None? {
      if block.info.Some? || block.generator.Some? { return Some(NotBlockButHasData); }
      return if block.generatorRefs != [] then Some(NotBlockButHasData) else None;
    }
    if block.info.None? { return Some(IsTransactionBlockButNoData); }
    if ch.Snoc? { assert GoodAt(c, s.blocks, block.prevHash); }
    e := CheckClaims(c, s.blocks, block, npc, ch);
    if e.Some? { return; }
    var prevTxHeight := 0;
    if block.height > 0 {
      LastTxInTree(s.blocks, ch);
      prevTxHeight := s.blocks[block.foliage.value.prevTransactionBlock].block.height;
    }
    var conditions := if npc.Some? then npc.value.conditions else NO_CONDITIONS;
    e := CheckSpends(c, s, coins, main, block, conditions, prevTxHeight, forkPoint);
  }
}
