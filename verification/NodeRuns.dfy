/** A node that receives one block after another from its peers. */
module NodeRuns {
  import opened Types
  import opened Chains
  import opened BlockTree
  import opened HeaderRules
  import opened CoinSet
  import opened ForkChoice
  import opened FullNode
  import opened BatchValidation
  import opened BatchSync
  import BodyValidation

  /** Whether a block is accepted in a world. */
  ghost predicate Welcome(c: Consensus, w: World, block: FullBlock, proofOk: (FullBlock, Hash) -> bool,
                          summaryOk: FullBlock -> bool)
    requires ValidConstants(c)
  {
    && Closed(w.blocks) && Connected(w, block)
    && HeaderValid(c, ParentPath(w.blocks, block), block) && BodyOk(c, ParentPath(w.blocks, block), block)
    && proofOk(block, block.posChallenge) && summaryOk(block)
  }

  /** A single new block is a batch. */
  lemma {:induction false} SingleBatch(c: Consensus, blocks: Blocks, block: FullBlock)
    requires Closed(blocks) && block.headerHash !in blocks && block.headerHash != c.genesisChallenge
             && Stands(c, blocks, block)
    ensures NewBatch(c, blocks, [block])
  {
    if block.height > 0 { assert Linked(blocks, block.prevHash); }
  }

  /** The result for the one block of a batch; a batch that fails as a whole fails it. */
  function SingleResult(r: Result<seq<PreValidationResult>>): PreValidationResult {
    if r.Err? then PreValidationResult(Some(r.error), None)
    else if |r.value| == 1 then r.value[0]
    else PreValidationResult(Some(AssertionFailed), None)
  }

  /** What pre-validation says about a block: it is honest, and no valid block fails. */
  ghost predicate Cleared(c: Consensus, ch: Chain, block: FullBlock, pre: PreValidationResult,
                          proofOk: (FullBlock, Hash) -> bool, summaryOk: FullBlock -> bool)
    requires ValidConstants(c)
  {
    var rest := proofOk(block, block.posChallenge) && summaryOk(block);
    && (pre.error.None? ==> HeaderValid(c, ch, block) && BodyValidation.Honest(c, ch, block, pre.npc) && rest)
    && (HeaderValid(c, ch, block) && BodyOk(c, ch, block) && rest ==> pre.error.None?)
  }

  /** What pre-validation says about a single block. */
  lemma {:induction false} SingleVerdict(c: Consensus, ch: Chain, block: FullBlock, r: Result<seq<PreValidationResult>>,
                                         proofOk: (FullBlock, Hash) -> bool, summaryOk: FullBlock -> bool)
    requires ValidConstants(c) && Verdict(c, ch, [block], r, proofOk, summaryOk)
    ensures r.Ok? ==> |r.value| == 1
    ensures Cleared(c, ch, block, SingleResult(r), proofOk, summaryOk)
  {
    var batch := [block];
    if HeaderValid(c, ch, block) && BodyOk(c, ch, block) {
      assert AllValid(c, Extended(c, ch, block), batch[1..]);
      assert AllValid(c, ch, batch);
      ValidIsFit(c, ch, batch);
    }
    assert batch[0] == block;
  }

  /** Pre-validates a single block. Whatever the exit, nothing is left behind. */
  method PreValidateSingle(node: Blockchain, block: FullBlock, proofOk: (FullBlock, Hash) -> bool,
                           summaryOk: FullBlock -> bool)
    returns (pre: PreValidationResult)
    requires node.Valid() && block.headerHash !in node.blockRecords && block.headerHash != node.c.genesisChallenge
    requires Stands(node.c, node.blockRecords, block)
    modifies node`blockRecords
    ensures node.Valid() && node.W() == old(node.W())
    ensures Cleared(node.c, ParentPath(old(node.blockRecords), block), block, pre, proofOk, summaryOk)
  {
    ghost var ch := ParentPath(node.blockRecords, block);
    SingleBatch(node.c, node.blockRecords, block);
    var r;
    ghost var stop;
    r, stop := PreValidateBatch(node, [block], 1, proofOk, summaryOk);
    SingleVerdict(node.c, ch, block, r, proofOk, summaryOk);
    pre := SingleResult(r);
  }

  /** A block from a peer: pre-validated, then received. */
  method RespondBlock(node: Blockchain, block: FullBlock, proofOk: (FullBlock, Hash) -> bool,
                      summaryOk: FullBlock -> bool)
    returns (result: ReceiveResult)
    requires node.Valid() && block.headerHash != node.c.genesisChallenge
    modifies node, node.coinStore, node.blockStore, node.heightMap
    ensures node.Valid()
    ensures result.NewPeak? || result.AddedAsOrphan? <==> Welcome(node.c, old(node.W()), block, proofOk, summaryOk)
    ensures NextFrom(node.c, old(node.W()), node.W(), [block])
    ensures node.W() != old(node.W()) <==> result.NewPeak? || result.AddedAsOrphan?
  {
    ghost var w := node.W();
    if block.headerHash in node.blockRecords { return AlreadyHaveBlock; }
    if block.height > 0 && block.prevHash !in node.blockRecords { return DisconnectedBlock; }
    if !Stands(node.c, node.blockRecords, block) {
      if HeaderValid(node.c, ParentPath(w.blocks, block), block) {
        HeightOrigin(node.c, ParentPath(w.blocks, block), block);
      }
      return InvalidBlock;
    }
    var pre := PreValidateSingle(node, block, proofOk, summaryOk);
    if pre.error.Some? { return InvalidBlock; }
    var error, change;
    ghost var fork;
    result, error, change, fork := node.ReceiveBlock(block, pre, None);
  }

  // ---------------------------------------------------------------- what may arrive

  /** What a node gets from a peer: a single block, or a batch of contiguous ones while it catches up. */
  datatype Arrival = Single(block: FullBlock) | Several(blocks: seq<FullBlock>)

  function BlocksOf(a: Arrival): seq<FullBlock> {
    if a.Single? then [a.block] else a.blocks
  }

  function AllBlocks(arrivals: seq<Arrival>): seq<FullBlock> {
    if arrivals == [] then [] else AllBlocks(arrivals[..|arrivals| - 1]) + BlocksOf(arrivals[|arrivals| - 1])
  }

  lemma {:induction false} AmongAll(arrivals: seq<Arrival>, i: nat, b: FullBlock)
    requires i < |arrivals| && b in BlocksOf(arrivals[i])
    ensures b in AllBlocks(arrivals)
  {
    if i < |arrivals| - 1 { AmongAll(arrivals[..|arrivals| - 1], i, b); }
  }

  lemma {:induction false} ArrivalAmongAll(arrivals: seq<Arrival>, i: nat)
    requires i < |arrivals|
    ensures forall b | b in BlocksOf(arrivals[i]) :: b in AllBlocks(arrivals)
  {
    forall b | b in BlocksOf(arrivals[i]) ensures b in AllBlocks(arrivals) { AmongAll(arrivals, i, b); }
  }

  /** A hash names one block only. */
  ghost predicate OneName(blocks: seq<FullBlock>) {
    forall a, b | a in blocks && b in blocks :: a.headerHash == b.headerHash ==> a == b
  }

  /** Batches are contiguous, without repetition, and nothing is named like the origin of all chains. */
  ghost predicate WellFormed(c: Consensus, a: Arrival) {
    match a
    case Single(b) => b.headerHash != c.genesisChallenge
    case Several(bs) => Contiguous(bs) && Named(c, map[], bs)
  }

  /** Names stay unique between a world and what arrives, as long as the world is made of what has arrived. */
  lemma {:induction false} NamedHere(c: Consensus, w: World, all: seq<FullBlock>, blocks: seq<FullBlock>)
    requires Closed(w.blocks) && MadeOf(w, all) && OneName(all) && Named(c, map[], blocks)
    requires forall b | b in blocks :: b in all
    ensures Named(c, w.blocks, blocks)
  {
    forall i | 0 <= i < |blocks| && blocks[i].headerHash in w.blocks
      ensures w.blocks[blocks[i].headerHash].block == blocks[i]
    {
      assert Linked(w.blocks, blocks[i].headerHash) && blocks[i] in blocks;
    }
  }

  /** Whether an arrival is accepted in a world, as a whole. */
  ghost predicate Merited(c: Consensus, w: World, a: Arrival, proofOk: (FullBlock, Hash) -> bool,
                          summaryOk: FullBlock -> bool)
    requires ValidConstants(c)
  {
    match a
    case Single(b) => Welcome(c, w, b, proofOk, summaryOk)
    case Several(bs) =>
      var rest := ToValidate(w.blocks, bs);
      rest == [] || (Closed(w.blocks) && Deserved(c, w, rest, proofOk, summaryOk))
  }

  lemma {:induction false} RestWithin(blocks: Blocks, all: seq<FullBlock>)
    ensures forall b | b in ToValidate(blocks, all) :: b in all
  {
    if all != [] && all[0].headerHash in blocks { RestWithin(blocks, all[1..]); }
  }

  /** Every block of a batch is known or has to be validated. */
  lemma {:induction false} KnownOrRest(blocks: Blocks, all: seq<FullBlock>, b: FullBlock)
    requires b in all
    ensures b.headerHash in blocks || b in ToValidate(blocks, all)
  {
    if b.headerHash !in blocks && all[0].headerHash in blocks { KnownOrRest(blocks, all[1..], b); }
  }

  /** What is to be validated of an arrival: a single block, or a batch from its first unknown block on. */
  function News(w: World, a: Arrival): seq<FullBlock> {
    if a.Single? then [a.block] else ToValidate(w.blocks, a.blocks)
  }

  /** The world that an arrival leads to: its new blocks are accepted one after the other, up to the first that is not
      valid on top of those before. */
  ghost function After(c: Consensus, w: World, a: Arrival): World
    requires ValidConstants(c) && Closed(w.blocks)
  {
    var news := News(w, a);
    if news == [] || !Connected(w, news[0]) then w else Taken(c, w, ParentPath(w.blocks, news[0]), news)
  }

  /** All blocks of an arrival are in a world. */
  ghost predicate HoldsAll(w: World, a: Arrival) {
    forall b | b in BlocksOf(a) :: Holds(w, b)
  }

  /** What an arrival does to the world that it meets. It is accepted exactly when it merits it, and then all its blocks
      are in the world that it leads to. Otherwise nothing changes, or, of a batch, the blocks before the first invalid
      one are accepted. */
  ghost predicate Turned(c: Consensus, w: World, now: World, a: Arrival, ok: bool, proofOk: (FullBlock, Hash) -> bool,
                         summaryOk: FullBlock -> bool)
    requires ValidConstants(c)
  {
    && Closed(w.blocks) && (ok <==> Merited(c, w, a, proofOk, summaryOk))
    && (ok ==> now == After(c, w, a) && HoldsAll(now, a))
    && (!ok ==> now == w || (a.Several? && now == After(c, w, a)))
    && (a.Several? && News(w, a) != [] ==> Sifted(c, w, now, News(w, a), proofOk, summaryOk))
  }

  /** The same along a way on which only blocks of the arrival are accepted. */
  ghost predicate Handled(c: Consensus, path: seq<World>, a: Arrival, ok: bool, proofOk: (FullBlock, Hash) -> bool,
                          summaryOk: FullBlock -> bool)
    requires ValidConstants(c)
  {
    && path != [] && Leads(c, path, path[0], path[|path| - 1], BlocksOf(a))
    && Turned(c, path[0], path[|path| - 1], a, ok, proofOk, summaryOk)
  }

  /** A single block that is accepted. */
  lemma {:induction false} OneTaken(c: Consensus, w: World, block: FullBlock, r: BlockRecord)
    requires ValidConstants(c) && Acceptable(c, w, r) && r.block == block && Connected(w, block)
    ensures Accept(w, r) == After(c, w, Single(block))
  {
    var ch := ParentPath(w.blocks, block);
    RecordIsExtension(c, ch, r);
    RecordsOne(c, ch, block);
    AcceptOne(w, r);
  }

  lemma {:induction false} OneAccepted(c: Consensus, w: World, now: World, block: FullBlock)
    requires ValidConstants(c) && Closed(w.blocks) && NextFrom(c, w, now, [block]) && now != w && Connected(w, block)
    ensures now == After(c, w, Single(block)) && HoldsAll(now, Single(block))
  {
    var r: BlockRecord :| r.block in [block] && Acceptable(c, w, r) && now == Accept(w, r);
    OneTaken(c, w, block, r);
  }

  lemma {:induction false} SingleHandled(c: Consensus, w: World, now: World, block: FullBlock, ok: bool,
                                         proofOk: (FullBlock, Hash) -> bool, summaryOk: FullBlock -> bool)
    requires ValidConstants(c) && Closed(w.blocks) && NextFrom(c, w, now, [block]) && (ok <==> now != w)
    requires ok <==> Welcome(c, w, block, proofOk, summaryOk)
    ensures Handled(c, [w, now], Single(block), ok, proofOk, summaryOk)
  {
    if ok { OneAccepted(c, w, now, block); }
  }

  lemma {:induction false} BatchHeld(c: Consensus, w: World, now: World, blocks: seq<FullBlock>)
    requires Named(c, w.blocks, blocks) && Kept(w, now)
    requires forall b | b in ToValidate(w.blocks, blocks) :: Holds(now, b)
    ensures HoldsAll(now, Several(blocks))
  {
    forall b | b in blocks ensures Holds(now, b) {
      KnownOrRest(w.blocks, blocks, b);
      if b !in ToValidate(w.blocks, blocks) { assert Holds(w, b); }
    }
  }

  /** A batch that has been received. */
  lemma {:induction false} BatchTurned(c: Consensus, w: World, now: World, blocks: seq<FullBlock>, ok: bool,
                                       proofOk: (FullBlock, Hash) -> bool, summaryOk: FullBlock -> bool)
    requires ValidConstants(c) && Closed(w.blocks) && Named(c, w.blocks, blocks)
    requires ok <==> Merited(c, w, Several(blocks), proofOk, summaryOk)
    requires var rest := ToValidate(w.blocks, blocks);
             if rest == [] then now == w
             else Settles(c, w, now, rest, ok) && Sifted(c, w, now, rest, proofOk, summaryOk)
    ensures Turned(c, w, now, Several(blocks), ok, proofOk, summaryOk)
  {
    if ok { BatchHeld(c, w, now, blocks); }
  }

  /** What is known after a batch has been received without leaving records. */
  ghost predicate BatchDone(c: Consensus, w: World, now: World, rest: seq<FullBlock>, ok: bool, path: seq<World>,
                            proofOk: (FullBlock, Hash) -> bool, summaryOk: FullBlock -> bool)
    requires ValidConstants(c) && Closed(w.blocks)
  {
    if rest == [] then ok && path == [w] && now == w
    else
      && (ok <==> Deserved(c, w, rest, proofOk, summaryOk)) && Settles(c, w, now, rest, ok)
      && Sifted(c, w, now, rest, proofOk, summaryOk) && Leads(c, path, w, now, rest)
  }

  lemma {:induction false} BatchHandled(c: Consensus, path: seq<World>, w: World, now: World, blocks: seq<FullBlock>,
                                        ok: bool, proofOk: (FullBlock, Hash) -> bool, summaryOk: FullBlock -> bool)
    requires ValidConstants(c) && Closed(w.blocks) && Named(c, w.blocks, blocks)
    requires BatchDone(c, w, now, ToValidate(w.blocks, blocks), ok, path, proofOk, summaryOk)
    ensures path != [] && path[0] == w && path[|path| - 1] == now
    ensures Handled(c, path, Several(blocks), ok, proofOk, summaryOk)
    ensures ok <==> Merited(c, w, Several(blocks), proofOk, summaryOk)
  {
    RestWithin(w.blocks, blocks);
    if ToValidate(w.blocks, blocks) != [] {
      LeadsWider(c, path, w, now, ToValidate(w.blocks, blocks), blocks);
    }
    BatchTurned(c, w, now, blocks, ok, proofOk, summaryOk);
  }

  /** The records that a batch leaves in memory: those of the new blocks before one that pre-validation gives up at. */
  ghost predicate Leftover(c: Consensus, before: Blocks, after: Blocks, a: Arrival, proofOk: (FullBlock, Hash) -> bool,
                           summaryOk: FullBlock -> bool)
    requires ValidConstants(c)
  {
    && a.Several? && after != before
    && exists stop: nat, error: Error ::
         Hasty(Err(error))
           && Restored(c, before, after, ToValidate(before, a.blocks), stop, Err(error), proofOk, summaryOk)
  }

  /** A batch that is given up without leaving a record. */
  lemma {:induction false} GivenUp(c: Consensus, w: World, blocks: seq<FullBlock>, proofOk: (FullBlock, Hash) -> bool,
                                   summaryOk: FullBlock -> bool)
    requires ValidConstants(c) && Closed(w.blocks) && ToValidate(w.blocks, blocks) != []
    requires !Deserved(c, w, ToValidate(w.blocks, blocks), proofOk, summaryOk)
    requires !Sound(c, w, ToValidate(w.blocks, blocks), proofOk, summaryOk)
    ensures Handled(c, [w], Several(blocks), false, proofOk, summaryOk)
    ensures !Merited(c, w, Several(blocks), proofOk, summaryOk)
  {}

  /** Receives a batch without a fork point. Either all is known about what it did, or it was not fit and has been given
      up, and then records may have been left. */
  method ReceiveShort(node: Blockchain, blocks: seq<FullBlock>, batchSize: nat, proofOk: (FullBlock, Hash) -> bool,
                      summaryOk: FullBlock -> bool)
    returns (ok: bool, ghost path: seq<World>, ghost left: bool)
    requires node.Valid() && batchSize > 0 && Contiguous(blocks) && Named(node.c, node.blockRecords, blocks)
    modifies node, node.coinStore, node.blockStore, node.heightMap
    ensures !left ==>
      && node.Valid()
      && BatchDone(node.c, old(node.W()), node.W(), old(ToValidate(node.blockRecords, blocks)), ok, path, proofOk,
        summaryOk)
    ensures left ==>
      && !ok && unchanged(node.coinStore) && unchanged(node.blockStore) && unchanged(node.heightMap)
      && unchanged(node`peakHeight) && (node.Valid() <==> node.blockRecords == old(node.blockRecords))
    ensures left ==>
      var rest := old(ToValidate(node.blockRecords, blocks));
      && rest != [] && !Deserved(node.c, old(node.W()), rest, proofOk, summaryOk)
      && !Sound(node.c, old(node.W()), rest, proofOk, summaryOk)
    ensures left && node.blockRecords != old(node.blockRecords) ==>
      Leftover(node.c, old(node.blockRecords), node.blockRecords, Several(blocks), proofOk, summaryOk)
  {
    var change;
    ghost var fork, error, stop;
    ok, change, fork, error, stop, path := ReceiveBatch(node, blocks, None, batchSize, proofOk, summaryOk);
    left := error.Some?;
  }

  /** Handles a batch. Either the node goes on along a way of valid blocks, or pre-validation has left records in
      memory: then they differ from the database, which is untouched, and the node is not consistent any more. */
  method HandleBatch(node: Blockchain, blocks: seq<FullBlock>, batchSize: nat, proofOk: (FullBlock, Hash) -> bool,
                     summaryOk: FullBlock -> bool)
    returns (ok: bool, broken: bool, ghost path: seq<World>)
    requires node.Valid() && batchSize > 0 && Contiguous(blocks) && Named(node.c, node.blockRecords, blocks)
    modifies node, node.coinStore, node.blockStore, node.heightMap
    ensures ok <==> Merited(node.c, old(node.W()), Several(blocks), proofOk, summaryOk)
    ensures broken <==> node.blockRecords != node.blockStore.blocks
    ensures !broken ==>
      && node.Valid() && path != [] && path[0] == old(node.W()) && path[|path| - 1] == node.W()
      && Handled(node.c, path, Several(blocks), ok, proofOk, summaryOk)
    ensures broken ==>
      && !ok && !node.Valid() && unchanged(node.coinStore) && unchanged(node.blockStore) && unchanged(node.heightMap)
      && Leftover(node.c, old(node.blockRecords), node.blockRecords, Several(blocks), proofOk, summaryOk)
  {
    ghost var w := node.W();
    ghost var left;
    ok, path, left := ReceiveShort(node, blocks, batchSize, proofOk, summaryOk);
    broken := node.blockRecords != node.blockStore.blocks;
    if !left {
      BatchHandled(node.c, path, w, node.W(), blocks, ok, proofOk, summaryOk);
    } else {
      path := [w];
      GivenUp(node.c, w, blocks, proofOk, summaryOk);
    }
  }

  /** Handles a single block. */
  method HandleSingle(node: Blockchain, block: FullBlock, proofOk: (FullBlock, Hash) -> bool,
                      summaryOk: FullBlock -> bool)
    returns (ok: bool, ghost path: seq<World>)
    requires node.Valid() && block.headerHash != node.c.genesisChallenge
    modifies node, node.coinStore, node.blockStore, node.heightMap
    ensures node.Valid() && path == [old(node.W()), node.W()]
    ensures Handled(node.c, path, Single(block), ok, proofOk, summaryOk)
  {
    ghost var w := node.W();
    var result := RespondBlock(node, block, proofOk, summaryOk);
    ok, path := result.NewPeak? || result.AddedAsOrphan?, [w, node.W()];
    SingleHandled(node.c, w, node.W(), block, ok, proofOk, summaryOk);
  }

  /** A way made of what arrived is made of all that ever arrives. */
  lemma {:induction false} LeadsAmong(c: Consensus, path: seq<World>, w: World, now: World, some: seq<FullBlock>,
                                      all: seq<FullBlock>)
    requires ValidConstants(c) && Leads(c, path, w, now, some) && MadeOf(w, all)
    requires forall b | b in some :: b in all
    ensures MadeOf(now, all)
  {
    LeadsWider(c, path, w, now, some, all);
    LeadsMadeOf(c, path, w, now, all);
  }

  /** Handles whatever arrives. */
  method HandleArrival(node: Blockchain, a: Arrival, batchSize: nat, proofOk: (FullBlock, Hash) -> bool,
                       summaryOk: FullBlock -> bool, ghost all: seq<FullBlock>)
    returns (ok: bool, broken: bool, ghost path: seq<World>)
    requires node.Valid() && batchSize > 0 && WellFormed(node.c, a)
    requires MadeOf(node.W(), all) && OneName(all) && forall b | b in BlocksOf(a) :: b in all
    modifies node, node.coinStore, node.blockStore, node.heightMap
    ensures !broken ==>
      && node.Valid() && path != [] && path[0] == old(node.W()) && path[|path| - 1] == node.W()
      && Handled(node.c, path, a, ok, proofOk, summaryOk) && MadeOf(node.W(), all)
    ensures broken ==>
      && !ok && !node.Valid() && unchanged(node.coinStore) && unchanged(node.blockStore) && unchanged(node.heightMap)
      && Leftover(node.c, old(node.blockRecords), node.blockRecords, a, proofOk, summaryOk)
      && !Merited(node.c, old(node.W()), a, proofOk, summaryOk)
  {
    ghost var w := node.W();
    match a {
      case Single(block) =>
        broken := false;
        ok, path := HandleSingle(node, block, proofOk, summaryOk);
      case Several(blocks) =>
        NamedHere(node.c, w, all, blocks);
        ok, broken, path := HandleBatch(node, blocks, batchSize, proofOk, summaryOk);
    }
    if !broken { LeadsAmong(node.c, path, w, node.W(), BlocksOf(a), all); }
  }

  // ---------------------------------------------------------------- whole runs

  /** A run, cut into one way for each answered arrival, each of which starts where the one before ends. */
  ghost predicate Answered(run: seq<World>, marks: seq<int>, arrivals: seq<Arrival>, answers: seq<bool>,
                           handled: (seq<World>, Arrival, bool) -> bool)
    decreases |answers|
  {
    var n := |answers|;
    && |marks| == n + 1 && n <= |arrivals| && run != [] && marks[0] == 0 && marks[n] == |run| - 1
    && if n == 0 then |run| == 1 && run[0] == NO_BLOCKS
       else
         && 0 <= marks[n - 1] <= marks[n] && handled(run[marks[n - 1]..], arrivals[n - 1], answers[n - 1])
         && Answered(run[..marks[n - 1] + 1], marks[..n], arrivals, answers[..n - 1], handled)
  }

  /** One more arrival, which meets the last world. */
  lemma {:induction false} AnsweredOn(run: seq<World>, path: seq<World>, marks: seq<int>, arrivals: seq<Arrival>,
                                      answers: seq<bool>, ok: bool, handled: (seq<World>, Arrival, bool) -> bool)
    requires Answered(run, marks, arrivals, answers, handled) && |answers| < |arrivals|
    requires path != [] && path[0] == run[|run| - 1] && handled(path, arrivals[|answers|], ok)
    ensures Answered(run + path[1..], marks + [|run| + |path| - 2], arrivals, answers + [ok], handled)
  {
    var n, run', marks' := |answers|, run + path[1..], marks + [|run| + |path| - 2];
    assert run'[marks'[n]..] == path && run'[..marks'[n] + 1] == run;
    assert marks'[..n + 1] == marks && (answers + [ok])[..n] == answers;
  }

  /** Each arrival met the world that the one before left, and what it did is as it should be. */
  lemma {:induction false} AnsweredAt(run: seq<World>, marks: seq<int>, arrivals: seq<Arrival>, answers: seq<bool>,
                                      handled: (seq<World>, Arrival, bool) -> bool, i: nat)
    requires Answered(run, marks, arrivals, answers, handled) && i < |answers|
    ensures 0 <= marks[i] <= marks[i + 1] < |run| && handled(run[marks[i]..marks[i + 1] + 1], arrivals[i], answers[i])
    decreases |answers|
  {
    var n := |answers| - 1;
    var before := run[..marks[n] + 1];
    if i < n {
      AnsweredAt(before, marks[..n + 1], arrivals, answers[..n], handled, i);
      assert before[marks[i]..marks[i + 1] + 1] == run[marks[i]..marks[i + 1] + 1];
    } else {
      assert run[marks[n]..marks[n + 1] + 1] == run[marks[n]..];
    }
  }

  /** Arrivals are met in their order. */
  lemma {:induction false} MarksGrow(run: seq<World>, marks: seq<int>, arrivals: seq<Arrival>, answers: seq<bool>,
                                     handled: (seq<World>, Arrival, bool) -> bool, i: nat, j: nat)
    requires Answered(run, marks, arrivals, answers, handled) && i <= j <= |answers|
    ensures 0 <= marks[i] <= marks[j] < |run|
    decreases j
  {
    if i < |answers| { AnsweredAt(run, marks, arrivals, answers, handled, i); }
    if i < j {
      AnsweredAt(run, marks, arrivals, answers, handled, j - 1);
      MarksGrow(run, marks, arrivals, answers, handled, i, j - 1);
    }
  }

  /** What the rules ask for. */
  ghost function Rules(c: Consensus, proofOk: (FullBlock, Hash) -> bool, summaryOk: FullBlock -> bool)
    : (seq<World>, Arrival, bool) -> bool
    requires ValidConstants(c)
  {
    (path, a, ok) => Handled(c, path, a, ok, proofOk, summaryOk)
  }

  /** What is known of a node that has handled some arrivals. */
  ghost predicate Logged(c: Consensus, run: seq<World>, marks: seq<int>, arrivals: seq<Arrival>, answers: seq<bool>,
                         w: World, proofOk: (FullBlock, Hash) -> bool, summaryOk: FullBlock -> bool)
    requires ValidConstants(c)
  {
    && Run(c, run) && run[|run| - 1] == w && MadeOf(w, AllBlocks(arrivals))
    && Answered(run, marks, arrivals, answers, Rules(c, proofOk, summaryOk))
  }

  /** What is known when a batch, the next arrival, has left records in memory: it did not merit to be accepted, and
      the database is that of the last world. */
  ghost predicate LoggedBroken(c: Consensus, run: seq<World>, marks: seq<int>, arrivals: seq<Arrival>,
                               answers: seq<bool>, records: Blocks, blocks: Blocks, coins: Coins,
                               proofOk: (FullBlock, Hash) -> bool, summaryOk: FullBlock -> bool)
    requires ValidConstants(c)
  {
    && run != [] && Logged(c, run, marks, arrivals, answers, run[|run| - 1], proofOk, summaryOk)
    && var w := run[|run| - 1];
    && Good(c, w) && blocks == w.blocks && coins == Replay(c, Main(w))
    && |answers| < |arrivals| && Leftover(c, blocks, records, arrivals[|answers|], proofOk, summaryOk)
    && !Merited(c, w, arrivals[|answers|], proofOk, summaryOk)
  }

  lemma {:induction false} LogOn(c: Consensus, run: seq<World>, marks: seq<int>, arrivals: seq<Arrival>,
                                 answers: seq<bool>, w: World, now: World, proofOk: (FullBlock, Hash) -> bool,
                                 summaryOk: FullBlock -> bool, path: seq<World>, ok: bool)
    requires ValidConstants(c) && Logged(c, run, marks, arrivals, answers, w, proofOk, summaryOk)
             && |answers| < |arrivals|
    requires path != [] && path[0] == w && path[|path| - 1] == now && MadeOf(now, AllBlocks(arrivals))
    requires Handled(c, path, arrivals[|answers|], ok, proofOk, summaryOk)
    ensures Logged(c, run + path[1..], marks + [|run| + |path| - 2], arrivals, answers + [ok], now, proofOk, summaryOk)
  {
    RunsOn(c, run, path, now, BlocksOf(arrivals[|answers|]));
    AnsweredOn(run, path, marks, arrivals, answers, ok, Rules(c, proofOk, summaryOk));
  }

  /** Handles the next arrival of a run. */
  method Advance(node: Blockchain, arrivals: seq<Arrival>, answers: seq<bool>, batchSize: nat,
                 proofOk: (FullBlock, Hash) -> bool, summaryOk: FullBlock -> bool, ghost run: seq<World>,
                 ghost marks: seq<int>)
    returns (ok: bool, broken: bool, ghost run': seq<World>, ghost marks': seq<int>)
    requires node.Valid() && batchSize > 0 && OneName(AllBlocks(arrivals)) && |answers| < |arrivals|
             && WellFormed(node.c, arrivals[|answers|])
    requires Logged(node.c, run, marks, arrivals, answers, node.W(), proofOk, summaryOk)
    modifies node, node.coinStore, node.blockStore, node.heightMap
    ensures !broken ==>
        node.Valid() && Logged(node.c, run', marks', arrivals, answers + [ok], node.W(), proofOk, summaryOk)
    ensures broken ==>
      && !ok && !node.Valid() && run' == run && marks' == marks
      && LoggedBroken(node.c, run, marks, arrivals, answers, node.blockRecords, node.blockStore.blocks,
        node.coinStore.records, proofOk, summaryOk)
  {
    ghost var w, all := node.W(), AllBlocks(arrivals);
    ghost var path;
    ArrivalAmongAll(arrivals, |answers|);
    ok, broken, path := HandleArrival(node, arrivals[|answers|], batchSize, proofOk, summaryOk, all);
    run', marks' := run, marks;
    if !broken {
      run', marks' := run + path[1..], marks + [|run| + |path| - 2];
      LogOn(node.c, run, marks, arrivals, answers, w, node.W(), proofOk, summaryOk, path, ok);
    }
  }

  /** A node from its first block on. Whatever arrives, single blocks and batches in any order, its worlds are a run,
      and each arrival turns the world that the one before left as the rules ask for. In the end all stores describe the
      path to the peak, unless a batch has left records in memory: exactly then the run stops, at that batch, and the
      database is as before it. */
  method RunNode(c: Consensus, version2: bool, maxVariables: nat, arrivals: seq<Arrival>, batchSize: nat,
                 proofOk: (FullBlock, Hash) -> bool, summaryOk: FullBlock -> bool)
    returns (node: Blockchain, answers: seq<bool>, broken: bool, ghost run: seq<World>, ghost marks: seq<int>)
    requires ValidConstants(c) && batchSize > 0 && OneName(AllBlocks(arrivals))
    requires forall i | 0 <= i < |arrivals| :: WellFormed(c, arrivals[i])
    ensures fresh(node) && node.c == c
    ensures !broken ==>
        node.Valid() && |answers| == |arrivals|
          && Logged(c, run, marks, arrivals, answers, node.W(), proofOk, summaryOk)
    ensures broken ==>
      !node.Valid() && LoggedBroken(c, run, marks, arrivals, answers, node.blockRecords, node.blockStore.blocks,
        node.coinStore.records, proofOk, summaryOk)
  {
    node := new Blockchain(c, version2, maxVariables);
    answers, broken, run, marks := [], false, [node.W()], [0];
    while |answers| < |arrivals|
      invariant fresh(node) && fresh(node.coinStore) && fresh(node.blockStore) && fresh(node.heightMap) && node.c == c
                && node.Valid()
      invariant |answers| <= |arrivals| && !broken
                && Logged(c, run, marks, arrivals, answers, node.W(), proofOk, summaryOk)
    {
      var ok;
      ok, broken, run, marks := Advance(node, arrivals, answers, batchSize, proofOk, summaryOk, run, marks);
      if broken { return; }
      answers := answers + [ok];
    }
  }

  /** Each arrival is handled in the world that the one before left. */
  lemma {:induction false} LoggedAt(c: Consensus, run: seq<World>, marks: seq<int>, arrivals: seq<Arrival>,
                                    answers: seq<bool>, w: World, proofOk: (FullBlock, Hash) -> bool,
                                    summaryOk: FullBlock -> bool, i: nat)
    requires ValidConstants(c) && Logged(c, run, marks, arrivals, answers, w, proofOk, summaryOk) && i < |answers|
    ensures |answers| <= |arrivals| && |marks| == |answers| + 1 && 0 <= marks[i] <= marks[i + 1] < |run|
    ensures Handled(c, run[marks[i]..marks[i + 1] + 1], arrivals[i], answers[i], proofOk, summaryOk)
  {
    AnsweredAt(run, marks, arrivals, answers, Rules(c, proofOk, summaryOk), i);
  }

  lemma {:induction false} HandledEnds(c: Consensus, run: seq<World>, from: nat, to: nat, path: seq<World>, a: Arrival,
                                       ok: bool, proofOk: (FullBlock, Hash) -> bool, summaryOk: FullBlock -> bool)
    requires ValidConstants(c) && from <= to < |run| && path == run[from..to + 1]
    requires Handled(c, path, a, ok, proofOk, summaryOk)
    ensures Turned(c, run[from], run[to], a, ok, proofOk, summaryOk)
  {
    assert path[0] == run[from] && path[|path| - 1] == run[to];
  }

  lemma {:induction false} RulesTurn(c: Consensus, run: seq<World>, marks: seq<int>, arrivals: seq<Arrival>,
                                     answers: seq<bool>, proofOk: (FullBlock, Hash) -> bool,
                                     summaryOk: FullBlock -> bool, i: nat)
    requires ValidConstants(c) && Answered(run, marks, arrivals, answers, Rules(c, proofOk, summaryOk)) && i < |answers|
    ensures |answers| <= |arrivals| && |marks| == |answers| + 1 && 0 <= marks[i] <= marks[i + 1] < |run|
    ensures Turned(c, run[marks[i]], run[marks[i + 1]], arrivals[i], answers[i], proofOk, summaryOk)
  {
    AnsweredAt(run, marks, arrivals, answers, Rules(c, proofOk, summaryOk), i);
    HandledEnds(c, run, marks[i], marks[i + 1], run[marks[i]..marks[i + 1] + 1], arrivals[i], answers[i], proofOk,
      summaryOk);
  }

  lemma {:induction false} StillHolds(a: World, w: World, arrival: Arrival)
    requires HoldsAll(a, arrival) && Kept(a, w)
    ensures HoldsAll(w, arrival)
  {
    forall b | b in BlocksOf(arrival) ensures Holds(w, b) { assert Holds(a, b); }
  }

  /** What has been accepted stays: all blocks of an accepted arrival are in every later world. */
  lemma {:induction false} AcceptedStays(c: Consensus, run: seq<World>, marks: seq<int>, arrivals: seq<Arrival>,
                                         answers: seq<bool>, w: World, proofOk: (FullBlock, Hash) -> bool,
                                         summaryOk: FullBlock -> bool, i: nat, j: nat)
    requires ValidConstants(c) && Logged(c, run, marks, arrivals, answers, w, proofOk, summaryOk)
    requires i < |answers| && answers[i] && i < |arrivals|
    requires |marks| == |answers| + 1 && marks[i + 1] <= j < |run|
    ensures HoldsAll(run[j], arrivals[i])
  {
    RulesTurn(c, run, marks, arrivals, answers, proofOk, summaryOk, i);
    RunsGrow(c, run, marks[i + 1], j);
    StillHolds(run[marks[i + 1]], run[j], arrivals[i]);
  }

  lemma {:induction false} KnownRefused(c: Consensus, w: World, now: World, a: Arrival, ok: bool,
                                        proofOk: (FullBlock, Hash) -> bool, summaryOk: FullBlock -> bool)
    requires ValidConstants(c) && Turned(c, w, now, a, ok, proofOk, summaryOk) && a.Single?
             && a.block.headerHash in w.blocks
    ensures !ok && now == w
  {
    assert !Connected(w, a.block);
  }

  lemma {:induction false} HeldBlock(w: World, a: Arrival, b: FullBlock)
    requires HoldsAll(w, a) && b in BlocksOf(a)
    ensures b.headerHash in w.blocks
  {
    assert Holds(w, b);
  }

  /** A block that has been accepted, alone or in a batch, is known when a later arrival comes. */
  lemma {:induction false} KnownLater(c: Consensus, run: seq<World>, marks: seq<int>, arrivals: seq<Arrival>,
                                      answers: seq<bool>, w: World, proofOk: (FullBlock, Hash) -> bool,
                                      summaryOk: FullBlock -> bool, i: nat, j: nat, b: FullBlock)
    requires ValidConstants(c) && Logged(c, run, marks, arrivals, answers, w, proofOk, summaryOk)
    requires i < j < |answers| <= |arrivals| && answers[i] && b in BlocksOf(arrivals[i])
    ensures |marks| == |answers| + 1 && 0 <= marks[j] < |run| && b.headerHash in run[marks[j]].blocks
  {
    MarksGrow(run, marks, arrivals, answers, Rules(c, proofOk, summaryOk), i + 1, j);
    AcceptedStays(c, run, marks, arrivals, answers, w, proofOk, summaryOk, i, marks[j]);
    HeldBlock(run[marks[j]], arrivals[i], b);
  }

  /** Such a block is not accepted again when it arrives alone. */
  lemma {:induction false} NeverTwice(c: Consensus, run: seq<World>, marks: seq<int>, arrivals: seq<Arrival>,
                                      answers: seq<bool>, w: World, proofOk: (FullBlock, Hash) -> bool,
                                      summaryOk: FullBlock -> bool, i: nat, j: nat, b: FullBlock)
    requires ValidConstants(c) && Logged(c, run, marks, arrivals, answers, w, proofOk, summaryOk)
    requires i < j < |answers| <= |arrivals| && answers[i] && b in BlocksOf(arrivals[i]) && arrivals[j] == Single(b)
    ensures !answers[j]
    ensures |marks| == |answers| + 1 && 0 <= marks[j] <= marks[j + 1] < |run| && run[marks[j + 1]] == run[marks[j]]
  {
    KnownLater(c, run, marks, arrivals, answers, w, proofOk, summaryOk, i, j, b);
    RulesTurn(c, run, marks, arrivals, answers, proofOk, summaryOk, j);
    KnownRefused(c, run[marks[j]], run[marks[j + 1]], arrivals[j], answers[j], proofOk, summaryOk);
  }
}
