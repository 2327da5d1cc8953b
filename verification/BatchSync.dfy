/**
  Receiving a batch of contiguous blocks. One fork point serves until the peak moves; from then on
  every block of the batch extends the peak, so the first fork height stands for the whole batch.
 */
module BatchSync {
  import opened Types
  import opened Chains
  import opened BlockTree
  import opened HeaderRules
  import opened BlockChallenge
  import opened CoinSet
  import opened ForkPoint
  import opened ForkChoice
  import opened FullNode
  import opened BatchValidation
  import Epochs
  import PreValidation
  import SubEpochs

  /** Names are unique: within the batch, and between the batch and the tree. */
  ghost predicate Named(c: Consensus, blocks: Blocks, batch: seq<FullBlock>) {
    && (forall i | 0 <= i < |batch| :: batch[i].headerHash != c.genesisChallenge)
    && (forall i | 0 <= i < |batch| && batch[i].headerHash in blocks :: blocks[batch[i].headerHash].block == batch[i])
    && forall i, j | 0 <= i < j < |batch| :: batch[i].headerHash != batch[j].headerHash
  }

  /** The part of a batch that starts with the first unknown block. */
  function ToValidate(blocks: Blocks, batch: seq<FullBlock>): seq<FullBlock> {
    if batch == [] || batch[0].headerHash !in blocks then batch else ToValidate(blocks, batch[1..])
  }

  // ---------------------------------------------------------------- what a batch amounts to

  lemma {:induction false} RecordIsExtension(c: Consensus, ch: Chain, r: BlockRecord)
    requires ValidConstants(c) && StepOk(c, ch, r) && ChallengeOk(c, ch, r.block)
    ensures HeaderValid(c, ch, r.block) && Snoc(ch, r) == Extended(c, ch, r.block)
  {
    assert ParamsOk(c, ch, r);
  }

  /** All headers are valid, each on top of the blocks before it. */
  ghost predicate HeadersValid(c: Consensus, ch: Chain, batch: seq<FullBlock>)
    requires ValidConstants(c)
    decreases |batch|
  {
    batch != [] ==> HeaderValid(c, ch, batch[0]) && HeadersValid(c, Extended(c, ch, batch[0]), batch[1..])
  }

  /** The records of the blocks of a batch before the first that is not valid on top of them. */
  ghost function Records(c: Consensus, ch: Chain, batch: seq<FullBlock>): seq<BlockRecord>
    requires ValidConstants(c)
    decreases |batch|
  {
    if batch == [] || !HeaderValid(c, ch, batch[0]) || !BodyOk(c, ch, batch[0]) then []
    else
      var next := Extended(c, ch, batch[0]);
      [next.top] + Records(c, next, batch[1..])
  }

  /** The world after records have been accepted, one after the other. */
  function AcceptAll(w: World, records: seq<BlockRecord>): World
    decreases |records|
  {
    if records == [] then w else AcceptAll(Accept(w, records[0]), records[1..])
  }

  /** The world after the blocks of a batch have been accepted, up to the first that is not valid. */
  ghost function Taken(c: Consensus, w: World, ch: Chain, batch: seq<FullBlock>): World
    requires ValidConstants(c)
  {
    AcceptAll(w, Records(c, ch, batch))
  }

  lemma {:induction false} TakenStep(c: Consensus, w: World, ch: Chain, batch: seq<FullBlock>, i: nat)
    requires ValidConstants(c) && i < |batch|
    ensures Taken(c, w, ch, batch[i..]) ==
            if HeaderValid(c, ch, batch[i]) && BodyOk(c, ch, batch[i])
              then Taken(c, Accept(w, Extended(c, ch, batch[i]).top), Extended(c, ch, batch[i]), batch[i + 1..])
            else w
  {
    assert batch[i..][0] == batch[i] && batch[i..][1..] == batch[i + 1..];
    if HeaderValid(c, ch, batch[i]) && BodyOk(c, ch, batch[i]) {
      var rs := Records(c, ch, batch[i..]);
      assert rs[1..] == Records(c, Extended(c, ch, batch[i]), batch[i + 1..]);
    }
  }

  /** There is a record for each of these blocks, and for the whole batch exactly when all of it is valid. */
  lemma {:induction false} RecordsExact(c: Consensus, ch: Chain, batch: seq<FullBlock>)
    requires ValidConstants(c)
    ensures var rs := Records(c, ch, batch);
            && |rs| <= |batch| && (|rs| == |batch| <==> AllValid(c, ch, batch))
            && forall i | 0 <= i < |rs| :: rs[i].block == batch[i]
    decreases |batch|
  {
    if batch != [] && HeaderValid(c, ch, batch[0]) { RecordsExact(c, Extended(c, ch, batch[0]), batch[1..]); }
  }

  /** A block is in the tree. */
  predicate Holds(w: World, block: FullBlock) {
    block.headerHash in w.blocks && w.blocks[block.headerHash].block == block
  }

  /** New blocks with names of their own. */
  ghost predicate Unmet(w: World, batch: seq<FullBlock>) {
    && (forall i | 0 <= i < |batch| :: batch[i].headerHash !in w.blocks)
    && forall i, j | 0 <= i < j < |batch| :: batch[i].headerHash != batch[j].headerHash
  }

  /** The records belong to the first blocks of a batch. */
  ghost predicate Heads(records: seq<BlockRecord>, batch: seq<FullBlock>) {
    |records| <= |batch| && forall i | 0 <= i < |records| :: records[i].block == batch[i]
  }

  lemma {:induction false} AcceptKeepsAll(w: World, records: seq<BlockRecord>, batch: seq<FullBlock>)
    requires Heads(records, batch) && Unmet(w, batch)
    ensures Kept(w, AcceptAll(w, records))
    decreases |records|
  {
    if records != [] {
      var next, now := Accept(w, records[0]), AcceptAll(w, records);
      AcceptKeepsAll(next, records[1..], batch[1..]);
      forall h | h in w.blocks ensures h in now.blocks && now.blocks[h] == w.blocks[h] { assert h in next.blocks; }
    }
  }

  lemma {:induction false} AcceptHolds(w: World, records: seq<BlockRecord>, batch: seq<FullBlock>, i: nat)
    requires Heads(records, batch) && Unmet(w, batch) && i < |records|
    ensures Holds(AcceptAll(w, records), batch[i])
    decreases |records|
  {
    var next := Accept(w, records[0]);
    if i == 0 {
      AcceptKeepsAll(next, records[1..], batch[1..]);
      assert Holds(next, batch[0]);
    } else {
      AcceptHolds(next, records[1..], batch[1..], i - 1);
    }
  }

  /** A name that is new afterwards belongs to one of the records. */
  lemma {:induction false} AcceptOnly(w: World, records: seq<BlockRecord>, h: Hash) returns (i: nat)
    requires h in AcceptAll(w, records).blocks && h !in w.blocks
    ensures i < |records| && records[i].block.headerHash == h
    decreases |records|
  {
    if h == records[0].block.headerHash { return 0; }
    i := AcceptOnly(Accept(w, records[0]), records[1..], h);
    i := i + 1;
  }

  /** Exactly the blocks before the first invalid one are added, and nothing that was there changes. */
  lemma {:induction false} TakenExact(c: Consensus, w: World, ch: Chain, batch: seq<FullBlock>)
    requires ValidConstants(c) && Unmet(w, batch)
    ensures var k, now := |Records(c, ch, batch)|, Taken(c, w, ch, batch);
            && k <= |batch| && (k == |batch| <==> AllValid(c, ch, batch)) && Kept(w, now)
            && (forall i | 0 <= i < k :: Holds(now, batch[i]))
            && forall h | h in now.blocks && h !in w.blocks :: exists i | 0 <= i < k :: batch[i].headerHash == h
  {
    var rs, now := Records(c, ch, batch), Taken(c, w, ch, batch);
    RecordsExact(c, ch, batch);
    AcceptKeepsAll(w, rs, batch);
    forall i | 0 <= i < |rs| ensures Holds(now, batch[i]) { AcceptHolds(w, rs, batch, i); }
    forall h | h in now.blocks && h !in w.blocks ensures exists i | 0 <= i < |rs| :: batch[i].headerHash == h {
      var i := AcceptOnly(w, rs, h);
    }
  }

  lemma {:induction false} RecordsOne(c: Consensus, ch: Chain, block: FullBlock)
    requires ValidConstants(c) && HeaderValid(c, ch, block) && BodyOk(c, ch, block)
    ensures Records(c, ch, [block]) == [Extended(c, ch, block).top]
  {
    var batch := [block];
    assert batch[0] == block && batch[1..] == [];
    assert Records(c, Extended(c, ch, block), []) == [];
  }

  lemma {:induction false} AcceptOne(w: World, r: BlockRecord)
    ensures AcceptAll(w, [r]) == Accept(w, r)
  {
    assert [r][1..] == [];
  }

  /** A clean pre-validation means that all headers are valid. */
  lemma {:induction false} CleanHeaders(c: Consensus, ch: Chain, batch: seq<FullBlock>, pres: seq<PreValidationResult>)
    requires ValidConstants(c) && |pres| == |batch| && Prevalidated(c, ch, batch, pres) && Clean(Ok(pres))
    ensures HeadersValid(c, ch, batch)
    decreases |batch|
  {
    if batch != [] { CleanHeaders(c, Extended(c, ch, batch[0]), batch[1..], pres[1..]); }
  }

  // ---------------------------------------------------------------- one block of a batch

  /** A valid block on top of the peak outweighs it. */
  lemma {:induction false} ExtensionIsHeavier(c: Consensus, w: World, r: BlockRecord)
    requires ValidConstants(c) && Good(c, w) && Acceptable(c, w, r) && r.block.height > 0
             && w.peak == Some(r.block.prevHash)
    ensures Outweighs(w, r)
  {
    var ch := ParentPath(w.blocks, r.block);
    GoodPaths(c, w, r.block.prevHash);
    FullyValidIsValid(c, ch);
    Epochs.NextParamsDefined(c, ch, Finished(r) > 0);
    assert ParamsOk(c, ch, r);
  }

  /** Two summaries in a row, the second of a block on top of the first branch, make one. */
  lemma {:induction false} ReportsGrow(c: Consensus, start: Chain, ch: Chain, r: BlockRecord, fork: int, a: StateChange,
                                       b: StateChange)
    requires Numbered(Snoc(ch, r)) && Reports(c, start, ch, fork, a) && Reports(c, ch, Snoc(ch, r), Height(ch), b)
    ensures Reports(c, start, Snoc(ch, r), fork,
        StateChange(a.forkHeight, a.rolledBack + b.rolledBack, a.rewards + b.rewards))
  {
    assert UpTo(Snoc(ch, r), fork) == UpTo(ch, fork);
    assert UpTo(Snoc(ch, r), Height(ch)) == ch;
    assert b.rolledBack == map[] && a.rolledBack + b.rolledBack == a.rolledBack;
    assert RewardsSince(ch, Height(ch)) == [];
    assert b.rewards == [] + r.block.IncludedRewardCoins();
  }

  /** The blocks of a batch before the i-th make up a chain, on which the next was pre-validated, and up to
      the fork point it is the old main chain. */
  ghost predicate OnChain(c: Consensus, w: World, start: Chain, batch: seq<FullBlock>, i: nat, ch: Chain,
                          pres: seq<PreValidationResult>, forkPoint: Option<nat>)
    requires ValidConstants(c) && Closed(w.blocks) && |pres| == |batch|
  {
    && (forall j | i <= j < |batch| :: batch[j].headerHash !in w.blocks)
    && (0 < i < |batch| ==> Connected(w, batch[i]))
    && (i < |batch| && Connected(w, batch[i]) ==>
          && ParentPath(w.blocks, batch[i]) == ch && Prevalidated(c, ch, batch[i..], pres[i..])
          && (forkPoint.Some? ==> Agree(start, ch, forkPoint.value)))
  }

  /** That chain is the main chain once the peak has moved, and the summary so far is about the whole way. */
  ghost predicate Summed(c: Consensus, w: World, start: Chain, batch: seq<FullBlock>, i: nat, ch: Chain,
                         change: Option<StateChange>, fork: int)
    requires ValidConstants(c) && Good(c, w)
  {
    if change.None? then Main(w) == start
    else
      && 0 < i <= |batch| && w.peak == Some(batch[i - 1].headerHash) && Main(w) == ch
      && Reports(c, start, ch, fork, change.value)
  }

  /** What holds before the i-th block of a batch. */
  ghost predicate Poised(c: Consensus, w: World, start: Chain, batch: seq<FullBlock>, i: nat, ch: Chain,
                         pres: seq<PreValidationResult>, forkPoint: Option<nat>, change: Option<StateChange>, fork: int)
    requires ValidConstants(c) && Good(c, w) && |pres| == |batch|
  {
    OnChain(c, w, start, batch, i, ch, pres, forkPoint) && Summed(c, w, start, batch, i, ch, change, fork)
  }

  /** After a block of a batch is accepted, the next one is connected to it. */
  lemma {:induction false} NextConnects(c: Consensus, w: World, r: BlockRecord, batch: seq<FullBlock>, i: nat)
    requires ValidConstants(c) && Good(c, w) && Acceptable(c, w, r) && Contiguous(batch) && i < |batch|
             && r.block == batch[i]
    requires forall j | i <= j < |batch| :: batch[j].headerHash !in w.blocks
    requires forall j | i < j < |batch| :: batch[i].headerHash != batch[j].headerHash
    ensures var w' := Accept(w, r);
            && Good(c, w') && (forall j | i < j < |batch| :: batch[j].headerHash !in w'.blocks)
            && (i + 1 < |batch| ==>
                  && Connected(w', batch[i + 1])
                  && ParentPath(w'.blocks, batch[i + 1]) == Snoc(ParentPath(w.blocks, batch[i]), r))
  {
    AcceptKeeps(c, w, r);
    if i + 1 < |batch| { assert batch[i + 1].prevHash == batch[i].headerHash; }
  }

  /** The summary of a batch so far and that of one more block. */
  function Merge(sofar: Option<StateChange>, next: Option<StateChange>): Option<StateChange> {
    if next.None? then sofar
    else if sofar.None? then next
    else Some(StateChange(sofar.value.forkHeight, sofar.value.rolledBack + next.value.rolledBack,
        sofar.value.rewards + next.value.rewards))
  }

  /** What receiving one block reports about the main chain. */
  ghost predicate Received(c: Consensus, w: World, r: BlockRecord, next: Option<StateChange>, fork: int)
    requires ValidConstants(c) && Good(c, w) && Good(c, Accept(w, r))
  {
    && (next.Some? <==> Outweighs(w, r))
    && (next.Some? ==> Reports(c, Main(w), Main(Accept(w, r)), fork, next.value))
    && (next.Some? && w.peak == Some(r.block.prevHash) ==> fork == Height(Main(w)))
  }

  /** Until the peak moves, the fork point stays good; when it moves, it moves to the batch; and from
      then on every block moves it one up. */
  lemma {:induction false} SummaryNext(c: Consensus, w: World, start: Chain, batch: seq<FullBlock>, i: nat, ch: Chain,
                                       sofar: Option<StateChange>, fork: int, r: BlockRecord, next: Option<StateChange>,
                                       nextFork: int)
    requires ValidConstants(c) && Good(c, w) && Acceptable(c, w, r) && Good(c, Accept(w, r)) && Contiguous(batch)
    requires i < |batch| && r.block == batch[i] && Summed(c, w, start, batch, i, ch, sofar, fork)
    requires ParentPath(w.blocks, batch[i]) == ch && Received(c, w, r, next, nextFork)
    ensures Summed(c, Accept(w, r), start, batch, i + 1, Snoc(ch, r), Merge(sofar, next), if sofar.None? then nextFork
        else fork)
  {
    AcceptKeeps(c, w, r);
    if sofar.Some? {
      assert batch[i].prevHash == batch[i - 1].headerHash;
      ExtensionIsHeavier(c, w, r);
      FullyValidIsValid(c, ch);
      SubEpochs.ValidNumbered(c, ch);
      ReportsGrow(c, start, ch, r, fork, sofar.value, next.value);
    }
  }

  /** The chain grows by the accepted block. */
  lemma {:induction false} OnChainNext(c: Consensus, w: World, start: Chain, batch: seq<FullBlock>, i: nat, ch: Chain,
                                       pres: seq<PreValidationResult>, forkPoint: Option<nat>, r: BlockRecord)
    requires ValidConstants(c) && Good(c, w) && Acceptable(c, w, r) && Contiguous(batch) && Named(c, map[], batch)
    requires i < |batch| == |pres| && r.block == batch[i] && pres[i].error.None?
    requires OnChain(c, w, start, batch, i, ch, pres, forkPoint) && Connected(w, batch[i])
    ensures Closed(Accept(w, r).blocks) && OnChain(c, Accept(w, r), start, batch, i + 1, Snoc(ch, r), pres, forkPoint)
    ensures HeaderValid(c, ch, batch[i]) && Snoc(ch, r) == Extended(c, ch, batch[i])
  {
    NextConnects(c, w, r, batch, i);
    RecordIsExtension(c, ch, r);
    PrevalidatedStep(c, ch, batch, pres, i);
  }

  /** One block of a batch. */
  lemma {:induction false} PoisedNext(c: Consensus, w: World, start: Chain, batch: seq<FullBlock>, i: nat, ch: Chain,
                                      pres: seq<PreValidationResult>, forkPoint: Option<nat>,
                                      sofar: Option<StateChange>, fork: int, r: BlockRecord, next: Option<StateChange>,
                                      nextFork: int)
    requires ValidConstants(c) && Good(c, w) && Acceptable(c, w, r) && Good(c, Accept(w, r)) && Contiguous(batch)
             && Named(c, map[], batch)
    requires i < |batch| == |pres| && r.block == batch[i] && pres[i].error.None?
    requires Poised(c, w, start, batch, i, ch, pres, forkPoint, sofar, fork) && Connected(w, batch[i])
             && Received(c, w, r, next, nextFork)
    ensures Poised(c, Accept(w, r), start, batch, i + 1, Snoc(ch, r), pres, forkPoint, Merge(sofar, next),
        if sofar.None? then nextFork else fork)
    ensures HeaderValid(c, ch, batch[i]) && Snoc(ch, r) == Extended(c, ch, batch[i])
    ensures Kept(w, Accept(w, r)) && PeakRises(w, Accept(w, r))
  {
    OnChainNext(c, w, start, batch, i, ch, pres, forkPoint, r);
    SummaryNext(c, w, start, batch, i, ch, sofar, fork, r, next, nextFork);
    StepKeeps(c, w, Accept(w, r));
  }

  /** The same, for a record that is only known to exist. */
  lemma {:induction false} PoisedAfter(c: Consensus, w: World, now: World, start: Chain, batch: seq<FullBlock>, i: nat,
                                       ch: Chain, pres: seq<PreValidationResult>, forkPoint: Option<nat>,
                                       sofar: Option<StateChange>, fork: int, next: Option<StateChange>, nextFork: int)
    returns (ch': Chain, fork': int)
    requires ValidConstants(c) && Good(c, w) && Good(c, now) && Contiguous(batch) && Named(c, map[], batch)
    requires i < |batch| == |pres| && pres[i].error.None?
             && Poised(c, w, start, batch, i, ch, pres, forkPoint, sofar, fork) && Connected(w, batch[i])
    requires exists r: BlockRecord ::
        r.block == batch[i] && Acceptable(c, w, r) && now == Accept(w, r) && (next.Some? <==> Outweighs(w, r))
    requires next.Some? ==> Reports(c, Main(w), Main(now), nextFork, next.value)
    requires next.Some? && w.peak == Some(batch[i].prevHash) ==> nextFork == Height(Main(w))
    ensures Poised(c, now, start, batch, i + 1, ch', pres, forkPoint, Merge(sofar, next), fork')
    ensures HeaderValid(c, ch, batch[i]) && ch' == Extended(c, ch, batch[i])
    ensures Kept(w, now) && PeakRises(w, now) && now == Accept(w, ch'.top) && NextFrom(c, w, now, batch)
  {
    var r: BlockRecord :| r.block == batch[i] && Acceptable(c, w, r) && now == Accept(w, r)
        && (next.Some? <==> Outweighs(w, r));
    ch', fork' := Snoc(ch, r), if sofar.None? then nextFork else fork;
    PoisedNext(c, w, start, batch, i, ch, pres, forkPoint, sofar, fork, r, next, nextFork);
  }

  /** Receives the i-th block of a batch. */
  method ReceiveNext(node: Blockchain, batch: seq<FullBlock>, i: nat, pres: seq<PreValidationResult>,
                     forkPoint: Option<nat>, sofar: Option<StateChange>, ghost start: Chain, ghost ch: Chain,
                     ghost fork: int)
    returns (ok: bool, change: Option<StateChange>, ghost ch': Chain, ghost fork': int)
    requires node.Valid() && Contiguous(batch) && Named(node.c, map[], batch) && i < |batch| == |pres|
             && pres[i].error.None?
    requires Poised(node.c, node.W(), start, batch, i, ch, pres, forkPoint, sofar, fork)
    modifies node, node.coinStore, node.blockStore, node.heightMap
    ensures node.Valid() && Kept(old(node.W()), node.W()) && PeakRises(old(node.W()), node.W())
    ensures NextFrom(node.c, old(node.W()), node.W(), batch)
    ensures ok <==> Connected(old(node.W()), batch[i]) && BodyOk(node.c, ch, batch[i])
    ensures !ok ==> node.W() == old(node.W()) && change == sofar && ch' == ch && fork' == fork
    ensures ok ==>
      && Poised(node.c, node.W(), start, batch, i + 1, ch', pres, forkPoint, change, fork')
      && HeaderValid(node.c, ch, batch[i]) && ch' == Extended(node.c, ch, batch[i])
      && node.W() == Accept(old(node.W()), ch'.top)
  {
    ghost var w := node.W();
    var result, error, next;
    ghost var nextFork;
    PrevalidatedStep(node.c, ch, batch, pres, i);
    result, error, next, nextFork := node.ReceiveBlock(batch[i], pres[i], if sofar.Some? then None else forkPoint);
    if !(result.NewPeak? || result.AddedAsOrphan?) { return false, sofar, ch, fork; }
    ok, change := true, Merge(sofar, next);
    ch', fork' := PoisedAfter(node.c, w, node.W(), start, batch, i, ch, pres, forkPoint, sofar, fork, next, nextFork);
  }

  // ---------------------------------------------------------------- a whole batch

  /** The ancestors of the first block of a batch, if it has any here. */
  ghost function Below(w: World, batch: seq<FullBlock>): Chain
    requires Closed(w.blocks) && batch != []
  {
    if Connected(w, batch[0]) then ParentPath(w.blocks, batch[0]) else Empty
  }

  /** What a caller vouches for: every block is new here, pre-validation is honest, and the fork point is a
      height up to which the ancestors of the batch are the main chain. */
  ghost predicate Offered(c: Consensus, w: World, batch: seq<FullBlock>, pres: seq<PreValidationResult>,
                          forkPoint: Option<nat>)
    requires ValidConstants(c) && Good(c, w)
  {
    && batch != [] && |pres| == |batch| && Contiguous(batch) && Named(c, map[], batch)
    && (forall j | 0 <= j < |batch| :: batch[j].headerHash !in w.blocks)
    && (Connected(w, batch[0]) ==>
          Prevalidated(c, Below(w, batch), batch, pres)
            && (forkPoint.Some? ==> Agree(Main(w), Below(w, batch), forkPoint.value)))
  }

  /** What holds before the i-th block, seen from the start of the batch. */
  ghost predicate UnderWay(c: Consensus, w: World, now: World, batch: seq<FullBlock>, i: nat, ch: Chain)
    requires ValidConstants(c) && Closed(w.blocks) && batch != [] && i <= |batch|
  {
    && Kept(w, now) && PeakRises(w, now)
    && (if i == 0 then now == w else Connected(w, batch[0]))
    && (AllValid(c, Below(w, batch), batch) <==> AllValid(c, ch, batch[i..]))
    && Taken(c, w, Below(w, batch), batch) == Taken(c, now, ch, batch[i..])
    && (Connected(w, batch[0]) ==> HeadersValid(c, Below(w, batch), batch))
  }

  lemma {:induction false} Begun(c: Consensus, w: World, batch: seq<FullBlock>, pres: seq<PreValidationResult>,
                                 forkPoint: Option<nat>)
    requires ValidConstants(c) && Good(c, w) && Offered(c, w, batch, pres, forkPoint) && Clean(Ok(pres))
    ensures UnderWay(c, w, w, batch, 0, Below(w, batch))
    ensures Poised(c, w, Main(w), batch, 0, Below(w, batch), pres, forkPoint, None, -1)
  {
    assert batch[0..] == batch && pres[0..] == pres;
    if Connected(w, batch[0]) { CleanHeaders(c, Below(w, batch), batch, pres); }
  }

  lemma {:induction false} FartherOn(c: Consensus, w: World, a: World, b: World, batch: seq<FullBlock>, i: nat,
                                     ch: Chain)
    requires ValidConstants(c) && Closed(w.blocks) && i < |batch| && UnderWay(c, w, a, batch, i, ch)
    requires HeaderValid(c, ch, batch[i]) && BodyOk(c, ch, batch[i]) && b == Accept(a, Extended(c, ch, batch[i]).top)
    requires Kept(a, b) && PeakRises(a, b) && Connected(a, batch[i])
    ensures UnderWay(c, w, b, batch, i + 1, Extended(c, ch, batch[i]))
  {
    GrowthTrans(w, a, b);
    AllValidStep(c, ch, batch, i);
    TakenStep(c, a, ch, batch, i);
  }

  /** Which blocks of a batch are accepted: none, or, when all headers are valid, exactly those before the first
      invalid body; in a success all of them. */
  ghost predicate Settles(c: Consensus, w: World, now: World, batch: seq<FullBlock>, ok: bool)
    requires ValidConstants(c) && Closed(w.blocks) && batch != []
  {
    var ch, all := Below(w, batch), Taken(c, w, Below(w, batch), batch);
    && Kept(w, now) && (now == w || (Connected(w, batch[0]) && HeadersValid(c, ch, batch) && now == all))
    && (ok ==> now == all && forall i | 0 <= i < |batch| :: Holds(now, batch[i]))
  }

  /** What receiving a batch does: it settles which blocks are accepted, the peak never falls, after a success the last
      block is the peak if the peak has moved, and the summary is about the main chain before and after. */
  ghost predicate Outcome(c: Consensus, w: World, now: World, batch: seq<FullBlock>, ok: bool,
                          change: Option<StateChange>, fork: int)
    requires ValidConstants(c) && Good(c, w) && Good(c, now) && batch != []
  {
    && Settles(c, w, now, batch, ok) && PeakRises(w, now)
    && (if change.None? then Main(now) == Main(w) else Reports(c, Main(w), Main(now), fork, change.value))
    && (ok && change.Some? ==> now.peak == Some(batch[|batch| - 1].headerHash))
  }

  lemma {:induction false} Stopped(c: Consensus, w: World, now: World, batch: seq<FullBlock>, i: nat, ch: Chain,
                                   pres: seq<PreValidationResult>, forkPoint: Option<nat>, change: Option<StateChange>,
                                   fork: int)
    requires ValidConstants(c) && Good(c, w) && Good(c, now) && i < |batch| == |pres|
             && UnderWay(c, w, now, batch, i, ch)
    requires Poised(c, now, Main(w), batch, i, ch, pres, forkPoint, change, fork)
             && !(Connected(now, batch[i]) && BodyOk(c, ch, batch[i]))
    ensures Outcome(c, w, now, batch, false, change, fork)
    ensures now == if Connected(w, batch[0]) then Taken(c, w, Below(w, batch), batch) else w
    ensures !(Connected(w, batch[0]) && AllValid(c, Below(w, batch), batch))
  {
    AllValidStep(c, ch, batch, i);
    TakenStep(c, now, ch, batch, i);
  }

  lemma {:induction false} Completed(c: Consensus, w: World, now: World, batch: seq<FullBlock>, ch: Chain,
                                     pres: seq<PreValidationResult>, forkPoint: Option<nat>,
                                     change: Option<StateChange>, fork: int)
    requires ValidConstants(c) && Good(c, w) && Good(c, now) && Offered(c, w, batch, pres, forkPoint)
             && UnderWay(c, w, now, batch, |batch|, ch)
    requires Poised(c, now, Main(w), batch, |batch|, ch, pres, forkPoint, change, fork)
    ensures Outcome(c, w, now, batch, true, change, fork) && now == Taken(c, w, Below(w, batch), batch)
    ensures Connected(w, batch[0]) && AllValid(c, Below(w, batch), batch)
  {
    assert batch[|batch|..] == [];
    TakenExact(c, w, Below(w, batch), batch);
  }

  /** All that is known before the i-th block of a batch. */
  ghost predicate InHand(c: Consensus, w: World, now: World, batch: seq<FullBlock>, i: nat, ch: Chain,
                         pres: seq<PreValidationResult>, forkPoint: Option<nat>, change: Option<StateChange>, fork: int,
                         path: seq<World>)
    requires ValidConstants(c) && Good(c, w) && Good(c, now) && batch != [] && |pres| == |batch|
  {
    && i <= |batch| && UnderWay(c, w, now, batch, i, ch) && Leads(c, path, w, now, batch)
    && Poised(c, now, Main(w), batch, i, ch, pres, forkPoint, change, fork)
  }

  /** What is known in the end: the blocks before the first invalid one have been accepted. */
  ghost predicate AtEnd(c: Consensus, w: World, now: World, batch: seq<FullBlock>, ok: bool,
                        change: Option<StateChange>, fork: int, path: seq<World>)
    requires ValidConstants(c) && Good(c, w) && Good(c, now) && batch != []
  {
    && Outcome(c, w, now, batch, ok, change, fork) && Leads(c, path, w, now, batch)
    && (ok <==> Connected(w, batch[0]) && AllValid(c, Below(w, batch), batch))
    && now == if Connected(w, batch[0]) then Taken(c, w, Below(w, batch), batch) else w
  }

  lemma {:induction false} AtStart(c: Consensus, w: World, batch: seq<FullBlock>, pres: seq<PreValidationResult>,
                                   forkPoint: Option<nat>)
    requires ValidConstants(c) && Good(c, w) && Offered(c, w, batch, pres, forkPoint) && Clean(Ok(pres))
    ensures InHand(c, w, w, batch, 0, Below(w, batch), pres, forkPoint, None, -1, [w])
  {
    Begun(c, w, batch, pres, forkPoint);
  }

  lemma {:induction false} EndStopped(c: Consensus, w: World, now: World, batch: seq<FullBlock>, i: nat, ch: Chain,
                                      pres: seq<PreValidationResult>, forkPoint: Option<nat>,
                                      change: Option<StateChange>, fork: int, path: seq<World>)
    requires ValidConstants(c) && Good(c, w) && Good(c, now) && i < |batch| == |pres|
    requires InHand(c, w, now, batch, i, ch, pres, forkPoint, change, fork, path)
             && !(Connected(now, batch[i]) && BodyOk(c, ch, batch[i]))
    ensures AtEnd(c, w, now, batch, false, change, fork, path)
  {
    Stopped(c, w, now, batch, i, ch, pres, forkPoint, change, fork);
  }

  lemma {:induction false} EndCompleted(c: Consensus, w: World, now: World, batch: seq<FullBlock>, ch: Chain,
                                        pres: seq<PreValidationResult>, forkPoint: Option<nat>,
                                        change: Option<StateChange>, fork: int, path: seq<World>)
    requires ValidConstants(c) && Good(c, w) && Good(c, now) && Offered(c, w, batch, pres, forkPoint)
    requires InHand(c, w, now, batch, |batch|, ch, pres, forkPoint, change, fork, path)
    ensures AtEnd(c, w, now, batch, true, change, fork, path)
  {
    Completed(c, w, now, batch, ch, pres, forkPoint, change, fork);
  }

  /** The i-th block of a batch, seen from its start. */
  method ReceiveStep(node: Blockchain, batch: seq<FullBlock>, i: nat, pres: seq<PreValidationResult>,
                     forkPoint: Option<nat>, sofar: Option<StateChange>, ghost w: World, ghost ch: Chain,
                     ghost fork: int, ghost path: seq<World>)
    returns (ok: bool, change: Option<StateChange>, ghost ch': Chain, ghost fork': int, ghost path': seq<World>)
    requires node.Valid() && Good(node.c, w) && Contiguous(batch) && Named(node.c, map[], batch)
    requires i < |batch| == |pres| && pres[i].error.None?
             && InHand(node.c, w, node.W(), batch, i, ch, pres, forkPoint, sofar, fork, path)
    modifies node, node.coinStore, node.blockStore, node.heightMap
    ensures node.Valid()
    ensures ok ==> InHand(node.c, w, node.W(), batch, i + 1, ch', pres, forkPoint, change, fork', path')
    ensures !ok ==> AtEnd(node.c, w, node.W(), batch, false, change, fork', path')
  {
    ghost var now := node.W();
    ok, change, ch', fork' := ReceiveNext(node, batch, i, pres, forkPoint, sofar, Main(w), ch, fork);
    LeadsOn(node.c, path, w, now, node.W(), batch);
    path' := path + [node.W()];
    if ok {
      FartherOn(node.c, w, now, node.W(), batch, i, ch);
    } else {
      path' := path;
      EndStopped(node.c, w, now, batch, i, ch, pres, forkPoint, change, fork', path);
    }
  }

  /** Receives blocks that are all new and pre-validated. */
  method ReceiveAll(node: Blockchain, batch: seq<FullBlock>, pres: seq<PreValidationResult>, forkPoint: Option<nat>)
    returns (ok: bool, change: Option<StateChange>, ghost fork: int, ghost path: seq<World>)
    requires node.Valid() && Offered(node.c, node.W(), batch, pres, forkPoint) && Clean(Ok(pres))
    modifies node, node.coinStore, node.blockStore, node.heightMap
    ensures node.Valid() && AtEnd(node.c, old(node.W()), node.W(), batch, ok, change, fork, path)
  {
    change, fork, path := None, -1, [node.W()];
    ghost var w, ch := node.W(), Below(node.W(), batch);
    AtStart(node.c, w, batch, pres, forkPoint);
    for i := 0 to |batch|
      invariant node.Valid() && InHand(node.c, w, node.W(), batch, i, ch, pres, forkPoint, change, fork, path)
    {
      ok, change, ch, fork, path := ReceiveStep(node, batch, i, pres, forkPoint, change, w, ch, fork, path);
      if !ok { return; }
    }
    ok := true;
    EndCompleted(node.c, w, node.W(), batch, ch, pres, forkPoint, change, fork, path);
  }

  // ---------------------------------------------------------------- skipping what is known

  /** After the first unknown block of a batch, all are unknown. */
  lemma {:induction false} UnknownOn(c: Consensus, blocks: Blocks, batch: seq<FullBlock>, k: nat, j: nat)
    requires Closed(blocks) && Contiguous(batch) && Named(c, blocks, batch) && k <= j < |batch|
             && batch[k].headerHash !in blocks
    ensures batch[j].headerHash !in blocks
    decreases j
  {
    if k < j {
      UnknownOn(c, blocks, batch, k, j - 1);
      assert batch[j].headerHash in blocks ==> Linked(blocks, batch[j].headerHash);
    }
  }

  /** Skipping known blocks does not spoil the fork point of a batch. */
  lemma {:induction false} ForkPointKept(c: Consensus, w: World, batch: seq<FullBlock>, k: nat, forkPoint: nat)
    requires ValidConstants(c) && Good(c, w) && Contiguous(batch) && Named(c, w.blocks, batch) && k < |batch|
    requires forall j | 0 <= j < k :: batch[j].headerHash in w.blocks
    requires batch[0].height > 0 ==> batch[0].prevHash in w.blocks
    requires Agree(Main(w), ParentPath(w.blocks, batch[0]), forkPoint)
    ensures batch[k].height > 0 ==> batch[k].prevHash in w.blocks
    ensures Agree(Main(w), ParentPath(w.blocks, batch[k]), forkPoint)
  {
    if k > 0 {
      ForkPointKept(c, w, batch, k - 1, forkPoint);
      var h := batch[k - 1].headerHash;
      assert batch[k].prevHash == h && Linked(w.blocks, h);
      GoodPaths(c, w, h);
      FullyValidIsValid(c, Path(w.blocks, h));
      SubEpochs.ValidNumbered(c, Path(w.blocks, h));
      AgreesBelow(Main(w), Path(w.blocks, h), forkPoint);
    }
  }

  /** What a caller vouches for about a batch: contiguous blocks with unique names, and a fork point that is a
      height up to which the ancestors of the batch are the main chain. */
  ghost predicate BatchVouched(c: Consensus, w: World, all: seq<FullBlock>, forkPoint: Option<nat>)
    requires ValidConstants(c) && Good(c, w)
  {
    && Contiguous(all) && Named(c, w.blocks, all)
    && (all != [] && forkPoint.Some? && (all[0].height > 0 ==> all[0].prevHash in w.blocks) ==>
          Agree(Main(w), ParentPath(w.blocks, all[0]), forkPoint.value))
  }

  /** Whether a block stands on its parent, or where a first block must. */
  predicate Stands(c: Consensus, blocks: Blocks, block: FullBlock) {
    if block.height == 0 then block.prevHash == c.genesisChallenge
    else block.prevHash in blocks && blocks[block.prevHash].block.height + 1 == block.height
  }

  /** The blocks from the first unknown one on. */
  ghost predicate RestFrom(blocks: Blocks, all: seq<FullBlock>, k: nat) {
    k < |all| && all[k].headerHash !in blocks && forall j | 0 <= j < k :: all[j].headerHash in blocks
  }

  lemma {:induction false} RestIsNew(c: Consensus, blocks: Blocks, all: seq<FullBlock>, k: nat)
    requires Closed(blocks) && Contiguous(all) && Named(c, blocks, all) && RestFrom(blocks, all, k)
             && Stands(c, blocks, all[k])
    ensures NewBatch(c, blocks, all[k..])
  {
    var rest := all[k..];
    RestUnknown(c, blocks, all, k);
    assert forall i | 0 < i < |rest| :: PreValidation.IsChild(rest[i - 1], rest[i]);
    if all[k].height > 0 { assert Linked(blocks, all[k].prevHash); }
  }

  lemma {:induction false} RestUnknown(c: Consensus, blocks: Blocks, all: seq<FullBlock>, k: nat)
    requires Closed(blocks) && Contiguous(all) && Named(c, blocks, all) && RestFrom(blocks, all, k)
    ensures forall j | 0 <= j < |all| - k :: all[k..][j].headerHash !in blocks
  {
    forall j | 0 <= j < |all| - k ensures all[k..][j].headerHash !in blocks { UnknownOn(c, blocks, all, k, k + j); }
  }

  lemma {:induction false} RestOffered(c: Consensus, w: World, all: seq<FullBlock>, k: nat,
                                       pres: seq<PreValidationResult>, forkPoint: Option<nat>)
    requires ValidConstants(c) && Good(c, w) && BatchVouched(c, w, all, forkPoint) && RestFrom(w.blocks, all, k)
             && Stands(c, w.blocks, all[k])
    requires |pres| == |all| - k && Prevalidated(c, ParentPath(w.blocks, all[k]), all[k..], pres)
    ensures Offered(c, w, all[k..], pres, forkPoint) && Connected(w, all[k])
            && Below(w, all[k..]) == ParentPath(w.blocks, all[k])
  {
    RestUnknown(c, w.blocks, all, k);
    RestShape(c, w.blocks, all, k);
    RestAgrees(c, w, all, k, forkPoint);
  }

  lemma {:induction false} RestShape(c: Consensus, blocks: Blocks, all: seq<FullBlock>, k: nat)
    requires Contiguous(all) && Named(c, blocks, all) && k < |all|
    ensures Contiguous(all[k..]) && Named(c, map[], all[k..])
  {
    var rest := all[k..];
    forall i | 0 < i < |rest| ensures rest[i].prevHash == rest[i - 1].headerHash
        && rest[i].height == rest[i - 1].height + 1 {
      assert rest[i] == all[k + i] && rest[i - 1] == all[k + i - 1];
    }
  }

  lemma {:induction false} RestAgrees(c: Consensus, w: World, all: seq<FullBlock>, k: nat, forkPoint: Option<nat>)
    requires ValidConstants(c) && Good(c, w) && BatchVouched(c, w, all, forkPoint) && RestFrom(w.blocks, all, k)
             && Stands(c, w.blocks, all[k])
    ensures forkPoint.Some? ==> Agree(Main(w), ParentPath(w.blocks, all[k]), forkPoint.value)
  {
    if forkPoint.Some? {
      if k > 0 { assert Linked(w.blocks, all[0].headerHash); }
      ForkPointKept(c, w, all, k, forkPoint.value);
    }
  }

  method FirstUnknown(blocks: Blocks, all: seq<FullBlock>) returns (k: nat)
    ensures k <= |all| && ToValidate(blocks, all) == all[k..] && (k < |all| ==> RestFrom(blocks, all, k))
  {
    k := 0;
    while k < |all| && all[k].headerHash in blocks
      invariant k <= |all| && ToValidate(blocks, all) == ToValidate(blocks, all[k..])
      invariant forall j | 0 <= j < k :: all[j].headerHash in blocks
    {
      assert all[k..][1..] == all[k + 1..];
      k := k + 1;
    }
  }

  method NoErrors(pres: seq<PreValidationResult>) returns (clean: bool)
    ensures clean <==> Clean(Ok(pres))
  {
    for i := 0 to |pres|
      invariant forall j | 0 <= j < i :: pres[j].error.None?
    {
      if pres[i].error.Some? { return false; }
    }
    clean := true;
  }

  /** Whether a batch deserves to be received: it is connected, all its headers and bodies are valid, each on top
      of the blocks before, and its proofs of space and summaries are in order. */
  ghost predicate Deserved(c: Consensus, w: World, batch: seq<FullBlock>, proofOk: (FullBlock, Hash) -> bool,
                           summaryOk: FullBlock -> bool)
    requires ValidConstants(c) && Closed(w.blocks) && batch != []
  {
    Connected(w, batch[0]) && AllValid(c, Below(w, batch), batch) && Proven(batch, proofOk, summaryOk)
  }

  /** Whether a batch passes pre-validation: it is connected, all headers are valid and all generators run, each on top
      of the blocks before, and its proofs of space and summaries are in order. */
  ghost predicate Sound(c: Consensus, w: World, batch: seq<FullBlock>, proofOk: (FullBlock, Hash) -> bool,
                        summaryOk: FullBlock -> bool)
    requires ValidConstants(c) && Closed(w.blocks) && batch != []
  {
    Connected(w, batch[0]) && AllFit(c, Below(w, batch), batch) && Proven(batch, proofOk, summaryOk)
  }

  lemma {:induction false} DeservedIsSound(c: Consensus, w: World, batch: seq<FullBlock>,
                                           proofOk: (FullBlock, Hash) -> bool, summaryOk: FullBlock -> bool)
    requires ValidConstants(c) && Closed(w.blocks) && batch != [] && Deserved(c, w, batch, proofOk, summaryOk)
    ensures Sound(c, w, batch, proofOk, summaryOk)
  {
    ValidIsFit(c, Below(w, batch), batch);
  }

  /** How the outcome depends on pre-validation: a batch that passes is taken up to its first invalid body, and one that
      does not is not taken at all. What a reference that does not point below its block leads to is not fixed. */
  ghost predicate Sifted(c: Consensus, w: World, now: World, batch: seq<FullBlock>, proofOk: (FullBlock, Hash) -> bool,
                         summaryOk: FullBlock -> bool)
    requires ValidConstants(c) && Closed(w.blocks) && batch != []
  {
    && (Sound(c, w, batch, proofOk, summaryOk) ==> now == Taken(c, w, Below(w, batch), batch))
    && (!Sound(c, w, batch, proofOk, summaryOk) && AllPast(batch) ==> now == w)
  }

  /** A batch whose first block does not stand on its parent does not pass. */
  lemma {:induction false} MustStand(c: Consensus, w: World, batch: seq<FullBlock>)
    requires ValidConstants(c) && Closed(w.blocks) && batch != [] && Connected(w, batch[0])
             && AllFit(c, Below(w, batch), batch)
    ensures Stands(c, w.blocks, batch[0])
  {
    HeightOrigin(c, Below(w, batch), batch[0]);
  }

  lemma {:induction false} NotStanding(c: Consensus, w: World, batch: seq<FullBlock>,
                                       proofOk: (FullBlock, Hash) -> bool, summaryOk: FullBlock -> bool)
    requires ValidConstants(c) && Closed(w.blocks) && batch != [] && !Stands(c, w.blocks, batch[0])
    ensures !Sound(c, w, batch, proofOk, summaryOk) && !Deserved(c, w, batch, proofOk, summaryOk)
  {
    if Sound(c, w, batch, proofOk, summaryOk) { MustStand(c, w, batch); }
    if Deserved(c, w, batch, proofOk, summaryOk) { DeservedIsSound(c, w, batch, proofOk, summaryOk); }
  }

  lemma {:induction false} NotDeserved(c: Consensus, w: World, batch: seq<FullBlock>,
                                       r: Result<seq<PreValidationResult>>, proofOk: (FullBlock, Hash) -> bool,
                                       summaryOk: FullBlock -> bool)
    requires ValidConstants(c) && Closed(w.blocks) && batch != [] && Stands(c, w.blocks, batch[0])
    requires Verdict(c, ParentPath(w.blocks, batch[0]), batch, r, proofOk, summaryOk) && !Clean(r)
    ensures !Sound(c, w, batch, proofOk, summaryOk) && !Deserved(c, w, batch, proofOk, summaryOk)
  {
    if Deserved(c, w, batch, proofOk, summaryOk) { DeservedIsSound(c, w, batch, proofOk, summaryOk); }
  }

  lemma {:induction false} Passed(c: Consensus, w: World, batch: seq<FullBlock>, r: Result<seq<PreValidationResult>>,
                                  proofOk: (FullBlock, Hash) -> bool, summaryOk: FullBlock -> bool)
    requires ValidConstants(c) && Closed(w.blocks) && batch != [] && Stands(c, w.blocks, batch[0])
             && batch[0].headerHash !in w.blocks
    requires Verdict(c, ParentPath(w.blocks, batch[0]), batch, r, proofOk, summaryOk) && Clean(r)
    ensures AllPast(batch) ==> Sound(c, w, batch, proofOk, summaryOk)
  {}

  /** What is left when pre-validation ended in one of the two exits that do not clean up: nothing is stored, but the
      records of the blocks before the refused one stay in memory, and the node is consistent only if there are none. */
  twostate predicate LeftRecords(node: Blockchain, batch: seq<FullBlock>, stop: nat, error: Error,
                                 proofOk: (FullBlock, Hash) -> bool, summaryOk: FullBlock -> bool)
    requires ValidConstants(node.c)
    reads node, node.coinStore, node.blockStore, node.heightMap
  {
    && unchanged(node.coinStore) && unchanged(node.blockStore) && unchanged(node.heightMap)
    && unchanged(node`peakHeight)
    && Hasty(Err(error)) && Restored(node.c, old(node.blockRecords), node.blockRecords, batch, stop, Err(error),
      proofOk, summaryOk)
    && (node.Valid() <==> stop == 0)
  }

  /** What the results of pre-validation admit. */
  method Sift(r: Result<seq<PreValidationResult>>) returns (pres: Option<seq<PreValidationResult>>)
    ensures if Clean(r) then pres == Some(r.value) else pres.None?
  {
    pres := None;
    if r.Ok? {
      var clean := NoErrors(r.value);
      if clean { pres := Some(r.value); }
    }
  }

  /** Pre-validates new blocks; without an error anywhere they can be received. */
  method Admit(node: Blockchain, batch: seq<FullBlock>, batchSize: nat, proofOk: (FullBlock, Hash) -> bool,
               summaryOk: FullBlock -> bool)
    returns (pres: Option<seq<PreValidationResult>>, ghost left: Option<Error>, ghost stop: nat)
    requires node.Valid() && NewBatch(node.c, node.blockRecords, batch) && Stands(node.c, node.blockRecords, batch[0])
             && batchSize > 0
    modifies node`blockRecords
    ensures pres.None? ==>
      && !Sound(node.c, old(node.W()), batch, proofOk, summaryOk)
      && !Deserved(node.c, old(node.W()), batch, proofOk, summaryOk)
    ensures pres.Some? && AllPast(batch) ==> Sound(node.c, old(node.W()), batch, proofOk, summaryOk)
    ensures pres.Some? ==>
      && left.None? && Clean(Ok(pres.value)) && |pres.value| == |batch| && Proven(batch, proofOk, summaryOk)
      && Prevalidated(node.c, ParentPath(old(node.blockRecords), batch[0]), batch, pres.value)
    ensures left.None? ==> node.Valid() && node.W() == old(node.W())
    ensures left.Some? ==> LeftRecords(node, batch, stop, left.value, proofOk, summaryOk)
  {
    ghost var w := node.W();
    var r;
    r, stop := PreValidateBatch(node, batch, batchSize, proofOk, summaryOk);
    left := if Hasty(r) then Some(r.error) else None;
    pres := Sift(r);
    if pres.None? {
      NotDeserved(node.c, w, batch, r, proofOk, summaryOk);
    } else {
      Passed(node.c, w, batch, r, proofOk, summaryOk);
    }
  }

  lemma {:induction false} Unmoved(c: Consensus, w: World, batch: seq<FullBlock>)
    requires ValidConstants(c) && Good(c, w) && batch != []
    ensures Outcome(c, w, w, batch, false, None, -1)
  {}

  /** Pre-validates and receives blocks that are all new. */
  method ReceiveNew(node: Blockchain, batch: seq<FullBlock>, forkPoint: Option<nat>, batchSize: nat,
                    proofOk: (FullBlock, Hash) -> bool, summaryOk: FullBlock -> bool, ghost all: seq<FullBlock>,
                    ghost k: nat)
    returns (ok: bool, change: Option<StateChange>, ghost fork: int, ghost left: Option<Error>, ghost stop: nat,
        ghost path: seq<World>)
    requires node.Valid() && BatchVouched(node.c, node.W(), all, forkPoint) && RestFrom(node.blockRecords, all, k)
             && batch == all[k..]
    requires Stands(node.c, node.blockRecords, batch[0]) && batchSize > 0
    modifies node, node.coinStore, node.blockStore, node.heightMap
    ensures ok <==> Deserved(node.c, old(node.W()), batch, proofOk, summaryOk)
    ensures left.None? ==>
      node.Valid() && Outcome(node.c, old(node.W()), node.W(), batch, ok, change, fork)
        && Leads(node.c, path, old(node.W()), node.W(), batch)
        && Sifted(node.c, old(node.W()), node.W(), batch, proofOk, summaryOk)
    ensures left.Some? ==>
      && !ok && change.None? && LeftRecords(node, batch, stop, left.value, proofOk, summaryOk)
      && !Sound(node.c, old(node.W()), batch, proofOk, summaryOk)
  {
    RestIsNew(node.c, node.blockRecords, all, k);
    var pres;
    pres, left, stop := Admit(node, batch, batchSize, proofOk, summaryOk);
    if pres.None? {
      Unmoved(node.c, old(node.W()), batch);
      return false, None, -1, left, stop, [node.W()];
    }
    RestOffered(node.c, node.W(), all, k, pres.value, forkPoint);
    ok, change, fork, path := ReceiveAll(node, batch, pres.value, forkPoint);
  }

  /** Receives a batch of contiguous blocks, of which the first may be known already. A first block that does not
      stand on its parent fails rule 1 or 27. */
  method ReceiveBatch(node: Blockchain, all: seq<FullBlock>, forkPoint: Option<nat>, batchSize: nat,
                      proofOk: (FullBlock, Hash) -> bool, summaryOk: FullBlock -> bool)
    returns (ok: bool, change: Option<StateChange>, ghost fork: int, ghost left: Option<Error>, ghost stop: nat,
        ghost path: seq<World>)
    requires node.Valid() && BatchVouched(node.c, node.W(), all, forkPoint) && batchSize > 0
    modifies node, node.coinStore, node.blockStore, node.heightMap
    ensures var rest := old(ToValidate(node.blockRecords, all));
            if rest == []
                then ok && change.None? && left.None? && node.Valid() && node.W() == old(node.W()) && path == [node.W()]
            else
              && (ok <==> Deserved(node.c, old(node.W()), rest, proofOk, summaryOk))
              && (left.None? ==>
                    && node.Valid() && Outcome(node.c, old(node.W()), node.W(), rest, ok, change, fork)
                    && Leads(node.c, path, old(node.W()), node.W(), rest)
                    && Sifted(node.c, old(node.W()), node.W(), rest, proofOk, summaryOk))
              && (left.Some? ==>
                    && !ok && change.None? && LeftRecords(node, rest, stop, left.value, proofOk, summaryOk)
                    && !Sound(node.c, old(node.W()), rest, proofOk, summaryOk))
  {
    change, fork, left, stop, path := None, -1, None, 0, [node.W()];
    var k := FirstUnknown(node.blockRecords, all);
    var rest := all[k..];
    if rest == [] { return true, None, -1, None, 0, path; }
    if !Stands(node.c, node.blockRecords, rest[0]) {
      NotStanding(node.c, node.W(), rest, proofOk, summaryOk);
      return false, None, -1, None, 0, path;
    }
    ok, change, fork, left, stop, path := ReceiveNew(node, rest, forkPoint, batchSize, proofOk, summaryOk, all, k);
  }
}
