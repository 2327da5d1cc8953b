/**
  Header validation as the program runs it: early-return checks that walk parent hashes. Each
  part decides one group of the structural rules, and together they decide the step relation.
 */
module HeaderValidation {
  import opened Types
  import opened Chains
  import opened BlockTree
  import opened PotIterations
  import opened HeaderRules
  import opened SubEpochs
  import opened ChainIterations
  import opened BlockChallenge
  import DifficultyAdjustment
  import Arithmetic

  /** The chain that a block extends: its parent's path, or nothing when the parent is unknown. */
  ghost function Parents(blocks: Blocks, block: FullBlock): Chain
    requires Closed(blocks)
  {
    if block.prevHash in blocks then Path(blocks, block.prevHash) else Empty
  }

  /** The record that is made of a block on top of a chain. */
  function RecordOf(c: Consensus, prev: Option<BlockRecord>, block: FullBlock, ssi: nat): BlockRecord {
    var d := CalculateDeficit(c, block.height, prev, IsOverflowBlock(c, block.signagePointIndex),
        |block.finishedSubSlots|);
    BlockRecord(block, ssi, if d < 0 then 0 else d)
  }

  /** A chain whose newest block is the given one, of which a view holds the blocks down to a. */
  ghost predicate InView(window: Blocks, ch: Chain, start: BlockRecord, a: Chain) {
    ch.Snoc? && ch.top == start && Numbered(ch) && HashLinked(ch) && a.Snoc? && Sees(window, ch, a)
  }

  /** Walks back to the first block of the sub-slot, counting the blocks passed on the way. */
  method WalkToSlotStart(window: Blocks, start: BlockRecord, ghost ch: Chain) returns (r: Result<(BlockRecord, nat)>)
    ensures InView(window, ch, start, FirstOfSlot(ch)) ==> r == Ok((FirstOfSlot(ch).top, BlocksInSlot(ch) - 1))
  {
    ghost var safe, rest := InView(window, ch, start, FirstOfSlot(ch)), ch;
    var first, passed := start, 0;
    while !first.FirstInSubSlot()
      invariant safe ==> InView(window, rest, first, FirstOfSlot(ch)) && FirstOfSlot(rest) == FirstOfSlot(ch)
      invariant safe ==> passed + first.block.height == start.block.height
      decreases first.block.height
    {
      if safe {
        FirstOfSlotIsFirst(ch);
        SeesBelow(window, rest, FirstOfSlot(ch));
      }
      var p := ParentRecord(window, first, rest, FirstOfSlot(ch));
      if p.Err? { return Err(p.error); }
      passed, first := passed + 1, p.value;
      if safe { rest := rest.prev; }
    }
    r := Ok((first, passed));
  }

  lemma {:induction false} FirstOfSlotIsFirst(ch: Chain)
    ensures IsPrefix(FirstOfSlot(ch), ch) && (FirstOfSlot(ch).Snoc? ==> FirstOfSlot(ch).top.FirstInSubSlot())
    ensures ch.Snoc? && Numbered(ch) ==> FirstOfSlot(ch).Snoc?
  {
    if ch.Snoc? {
      if Numbered(ch) { NumberedHeight(ch.prev); }
      FirstOfSlotIsFirst(ch.prev);
    }
  }

  lemma {:induction false} LastTxIsTx(ch: Chain)
    ensures IsPrefix(LastTx(ch), ch) && (LastTx(ch).Snoc? ==> LastTx(ch).top.IsTransactionBlock())
  {
    if ch.Snoc? { LastTxIsTx(ch.prev); }
  }

  /** With the whole tree at hand both walks succeed. */
  lemma {:induction false} TreeInView(blocks: Blocks, h: Hash)
    requires Closed(blocks) && h in blocks
    ensures var ch := Path(blocks, h);
            && InView(blocks, ch, blocks[h], FirstOfSlot(ch))
            && (LastTx(ch).Snoc? ==> InView(blocks, ch, blocks[h], LastTx(ch)))
  {
    var ch := Path(blocks, h);
    FirstOfSlotIsFirst(ch);
    LastTxIsTx(ch);
    PathSeen(blocks, h, FirstOfSlot(ch));
    if LastTx(ch).Snoc? { PathSeen(blocks, h, LastTx(ch)); }
  }

  /** Walks back to the newest transaction block. */
  method WalkToTransactionBlock(window: Blocks, start: BlockRecord, ghost ch: Chain) returns (r: Result<BlockRecord>)
    ensures InView(window, ch, start, LastTx(ch)) ==> r == Ok(LastTx(ch).top)
  {
    ghost var safe, rest := InView(window, ch, start, LastTx(ch)), ch;
    var curr := start;
    while !curr.IsTransactionBlock()
      invariant safe ==> InView(window, rest, curr, LastTx(ch)) && LastTx(rest) == LastTx(ch)
      decreases curr.block.height
    {
      if safe {
        LastTxIsTx(ch);
        SeesBelow(window, rest, LastTx(ch));
      }
      var p := ParentRecord(window, curr, rest, LastTx(ch));
      if p.Err? { return Err(p.error); }
      curr := p.value;
      if safe { rest := rest.prev; }
    }
    r := Ok(curr);
  }

  /** Rules 2a to 2t on the i-th finished sub-slot, given the challenge of the slot before the first. */
  predicate SubSlotMatches(c: Consensus, prev: Option<BlockRecord>, r: BlockRecord, i: nat, challenge: Hash,
                           changes: bool)
    requires i < Finished(r)
  {
    var s := r.block.finishedSubSlots[i];
    && s.challenge == (if i > 0 then r.block.finishedSubSlots[i - 1].ccHash else challenge)
    && s.iterations == (if i == 0 && prev.Some? then prev.value.subSlotIters else r.subSlotIters)
    && s.deficit == (if prev.None? || prev.value.deficit == 0 then c.minBlocksPerChallengeBlock else prev.value.deficit)
    && (i > 0 ==> s.summary.None?)
    && if s.summary.Some? && changes && prev.Some? then
         && s.newSubSlotIters == Some(r.subSlotIters)
         && s.newDifficulty.Some? && prev.value.block.weight + s.newDifficulty.value == r.block.weight
       else s.newSubSlotIters.None? && s.newDifficulty.None?
  }

  lemma {:induction false} MatchesIsOk(c: Consensus, ch: Chain, r: BlockRecord, i: nat)
    requires ValidConstants(c) && i < Finished(r)
    ensures SubSlotMatches(c, Top(ch), r, i, if ch.Empty? then c.genesisChallenge
        else CurrentHashes(c, ch).cc, FinishesEpoch(c, ch))
       <==> SubSlotOk(c, ch, r, i)
  {
    var changes := FinishesEpoch(c, ch);
  }

  /** Decides those rules; a look-up that fails is a refusal. */
  method CheckSubSlots(c: Consensus, window: Blocks, prev: Option<BlockRecord>, r: BlockRecord, canFinishEpoch: bool,
                       ghost ch: Chain)
    returns (ok: bool)
    requires ValidConstants(c)
    ensures prev == Top(ch) && (prev.Some? ==> InView(window, ch, prev.value, FirstOfSlot(ch)))
            && (Finished(r) > 0 ==> canFinishEpoch == FinishesEpoch(c, ch))
        ==> (ok <==> forall i | 0 <= i < Finished(r) :: SubSlotOk(c, ch, r, i))
  {
    ghost var safe := prev == Top(ch) && (prev.Some? ==> InView(window, ch, prev.value, FirstOfSlot(ch)))
                      && (Finished(r) > 0 ==> canFinishEpoch == FinishesEpoch(c, ch));
    var challenge := c.genesisChallenge;
    if prev.Some? {
      var first := WalkToSlotStart(window, prev.value, ch);
      if first.Err? { return false; }
      var hashes := FinishedSlots(c, first.value.0);
      challenge := hashes[|hashes| - 1].cc;
    }
    assert safe ==> challenge == if ch.Empty? then c.genesisChallenge else CurrentHashes(c, ch).cc;
    for i := 0 to |r.block.finishedSubSlots|
      invariant safe ==> forall j | 0 <= j < i :: SubSlotOk(c, ch, r, j)
    {
      MatchesIsOk(c, ch, r, i);
      if !SubSlotMatches(c, prev, r, i, challenge, canFinishEpoch) {
        assert safe ==> !SubSlotOk(c, ch, r, i);
        return false;
      }
    }
    ok := true;
  }

  /** Rule 10 and the conversions to unsigned integers. */
  predicate ItersMatch(c: Consensus, prev: Option<BlockRecord>, r: BlockRecord) {
    var start :=
      if prev.None? then r.subSlotIters * Finished(r)
      else if Finished(r) == 0 then SlotStart(c, prev.value)
      else SlotStart(c, prev.value) + prev.value.subSlotIters + r.subSlotIters * (Finished(r) - 1);
    && SlotStart(c, r) == start
    && SpTotalIters(c, r) >= 0
    && (prev.Some? && Finished(r) == 0 ==> r.block.totalIters >= prev.value.block.totalIters)
  }

  /** Rules 15, 24 and 26b. */
  method CheckTransaction(c: Consensus, window: Blocks, prev: Option<BlockRecord>, r: BlockRecord, ghost ch: Chain)
    returns (ok: bool)
    ensures prev == Top(ch) && (prev.Some? ==> InView(window, ch, prev.value, LastTx(ch))) ==>
        (ok <==> TransactionOk(c, ch, r))
  {
    if prev.None? {
      return r.block.foliage.Some? && r.block.foliage.value.prevTransactionBlock == c.genesisChallenge;
    }
    var t := WalkToTransactionBlock(window, prev.value, ch);
    if InView(window, ch, prev.value, LastTx(ch)) { SeesPrefix(window, ch, LastTx(ch)); }
    if t.Err? { return false; }
    if (SpTotalIters(c, r) > t.value.block.totalIters) != r.block.foliage.Some? { return false; }
    ok := r.block.foliage.Some? ==>
      && r.block.foliage.value.prevTransactionBlock == t.value.block.headerHash
      && t.value.block.foliage.Some?
      && r.block.foliage.value.timestamp > t.value.block.foliage.value.timestamp;
  }

  /** Rules 3, 4 and 9: what must hold where a sub-slot, a sub-epoch or an epoch ends. */
  method CheckSlotEnd(c: Consensus, window: Blocks, prev: Option<BlockRecord>, r: BlockRecord, canFinishSubEpoch: bool,
                      canFinishEpoch: bool, ghost ch: Chain) returns (ok: bool)
    requires ValidConstants(c)
    ensures prev == Top(ch) && (prev.Some? ==> InView(window, ch, prev.value, FirstOfSlot(ch)))
            && (Finished(r) > 0 ==>
              canFinishSubEpoch == FinishesSubEpoch(c, ch) && canFinishEpoch == FinishesEpoch(c, ch))
        ==> (ok <==> SummaryOk(c, ch, r) && CountOk(c, ch, r) && OverflowOk(c, ch, r))
  {
    var newSubSlot := Finished(r) > 0;
    if r.SummaryIncluded() != (newSubSlot && canFinishSubEpoch) { return false; }
    if !newSubSlot && prev.Some? {
      var first := WalkToSlotStart(window, prev.value, ch);
      if first.Err? || 2 + first.value.1 > c.maxSubSlotBlocks { return false; }
    }
    ok := !(Overflow(c, r) && newSubSlot && canFinishEpoch && Finished(r) < 2);
  }

  /** What a view must hold to validate a header on top of a chain: the current sub-slot, the newest
      transaction block, two challenges, and for a block that ends a sub-slot the search for a summary. */
  ghost predicate Suffices(c: Consensus, window: Blocks, ch: Chain, block: FullBlock)
    requires c.subEpochBlocks > 0
  {
    if ch.Empty? then block.prevHash !in window
    else
      && EndsIn(ch, block.prevHash)
      && Sees(window, ch, FirstOfSlot(ch)) && Sees(window, ch, LastTx(ch)) && Reaches(c, window, ch, 2)
      && (block.finishedSubSlots != [] && ch.prev.Snoc? ==>
        Sees(window, ch.prev, DifficultyAdjustment.WalkStop(c, ch.prev)))
  }

  /** Whether a sub-slot that ends on top of a chain ends a sub-epoch or an epoch. */
  method SlotEndKinds(c: Consensus, window: Blocks, prev: Option<BlockRecord>, newSubSlot: bool, ghost ch: Chain)
    returns (r: Result<(bool, bool)>)
    requires ValidConstants(c)
    ensures prev == Top(ch) && newSubSlot && Numbered(ch) && HashLinked(ch)
            && (ch.Snoc? && ch.prev.Snoc? ==> Sees(window, ch.prev, DifficultyAdjustment.WalkStop(c, ch.prev)))
        ==> r == Ok((FinishesSubEpoch(c, ch), FinishesEpoch(c, ch)))
    ensures !newSubSlot ==> r == Ok((false, false))
  {
    if prev.None? || !newSubSlot { return Ok((false, false)); }
    var p := prev.value;
    if ch.Snoc? && Numbered(ch) { NumberedHeight(ch.prev); }
    r := DifficultyAdjustment.CanFinishSubAndFullEpoch(c, window, p.block.height, p.block.prevHash, p.deficit,
      p.SummaryIncluded(),
                                                       if ch.Snoc? then ch.prev else ch);
  }

  /** The rules that look back along the chain, except rule 5a. */
  ghost predicate WalkedRules(c: Consensus, ch: Chain, r: BlockRecord)
    requires ValidConstants(c)
  {
    && (forall i | 0 <= i < Finished(r) :: SubSlotOk(c, ch, r, i))
    && SummaryOk(c, ch, r) && CountOk(c, ch, r) && OverflowOk(c, ch, r) && TransactionOk(c, ch, r)
  }

  method CheckWalkedRules(c: Consensus, window: Blocks, prev: Option<BlockRecord>, r: BlockRecord, ghost ch: Chain)
    returns (ok: bool)
    requires ValidConstants(c)
    ensures prev == Top(ch) && Suffices(c, window, ch, r.block) ==> (ok <==> WalkedRules(c, ch, r))
  {
    if ch.Snoc? && Suffices(c, window, ch, r.block) {
      SeesPrefix(window, ch, FirstOfSlot(ch));
      SeesPrefix(window, ch, LastTx(ch));
    }
    var kinds := SlotEndKinds(c, window, prev, r.block.finishedSubSlots != [], ch);
    if kinds.Err? { return false; }
    var slots := CheckSubSlots(c, window, prev, r, kinds.value.1, ch);
    var ends := CheckSlotEnd(c, window, prev, r, kinds.value.0, kinds.value.1, ch);
    var transaction := CheckTransaction(c, window, prev, r, ch);
    ok := slots && ends && transaction;
  }

  /** Rule 5a with the records at hand. */
  method CheckChallenge(c: Consensus, window: Blocks, block: FullBlock, genesis: bool, ghost ch: Chain)
    returns (ok: bool)
    requires c.subEpochBlocks > 0
    ensures genesis == ch.Empty? && Suffices(c, window, ch, block) ==> (ok <==> ChallengeOk(c, ch, block))
  {
    var overflow := IsOverflowBlock(c, block.signagePointIndex);
    if ch.Snoc? && Suffices(c, window, ch, block) {
      ReachesMonotone(c, window, window, ch, 2, SlotsBack(overflow, false));
    }
    var challenge := GetBlockChallenge(c, block, window, genesis, overflow, false, ch);
    ok := challenge == Ok(block.posChallenge);
  }

  /** Rules 1, 27 and 28 on parent, height and weight, and 6 and 7 on the signage point and the iterations. */
  function OwnError(c: Consensus, prev: Option<BlockRecord>, block: FullBlock, expected: Params): Option<Error>
    requires c.numSpsSubSlot > 0
  {
    if prev.None? && block.prevHash != c.genesisChallenge then Some(InvalidPrevBlockHash)
    else if block.height != (if prev.None? then 0 else prev.value.block.height + 1) then Some(InvalidHeight)
    else if block.weight != (if prev.None? then 0 else prev.value.block.weight) + expected.difficulty
        then Some(InvalidHeader)
    else if block.signagePointIndex >= c.numSpsSubSlot then Some(InvalidHeader)
    else if expected.subSlotIters == 0 || expected.subSlotIters % c.numSpsSubSlot != 0 then Some(AssertionFailed)
    else if block.requiredIters == 0 || block.requiredIters >= SpIntervalIters(c, expected.subSlotIters)
        then Some(InvalidHeader)
    else None
  }

  lemma {:induction false} OwnRulesDecided(c: Consensus, ch: Chain, block: FullBlock, expected: Params)
    requires ValidConstants(c) && ValidChain(c, ch) && NextParams(c, ch, block.finishedSubSlots != []) == Some(expected)
    requires ch.Snoc? ==> ch.top.block.headerHash == block.prevHash
    ensures var r := RecordOf(c, Top(ch), block, expected.subSlotIters);
            OwnError(c, Top(ch), block, expected).None? <==> Follows(c, ch, r) && ParamsOk(c, ch, r)
  {
    DeficitIsNatural(c, ch, block);
    Arithmetic.MultipleIsModulo(expected.subSlotIters, c.numSpsSubSlot);
  }

  /** Validates a header with the records at hand and makes its record. When they suffice, the verdict is
      exactly the step relation on the chain of the block's own ancestors, together with rule 5a. */
  method ValidateHeader(c: Consensus, window: Blocks, block: FullBlock, expected: Params, ghost ch: Chain)
    returns (result: Result<BlockRecord>)
    requires ValidConstants(c)
    ensures var r := RecordOf(c, Top(ch), block, expected.subSlotIters);
            Suffices(c, window, ch, block) && ValidChain(c, ch)
              && NextParams(c, ch, block.finishedSubSlots != []) == Some(expected) ==>
              && (result.Ok? <==> StepOk(c, ch, r) && ChallengeOk(c, ch, block))
              && (result.Ok? ==> result.value == r)
  {
    var prev := if block.prevHash in window then Some(window[block.prevHash]) else None;
    var r := RecordOf(c, prev, block, expected.subSlotIters);
    if Suffices(c, window, ch, block) && ValidChain(c, ch)
        && NextParams(c, ch, block.finishedSubSlots != []) == Some(expected) {
      OwnRulesDecided(c, ch, block, expected);
    }
    var own := OwnError(c, prev, block, expected);
    if own.Some? { return Err(own.value); }
    // 2, 3, 4, 9, 15, 24 and 26b: the ends of sub-slots and transaction blocks; 10: iterations
    var walked := CheckWalkedRules(c, window, prev, r, ch);
    if !walked || !ItersMatch(c, prev, r) { return Err(InvalidHeader); }
    // 5a: the challenge of the proof of space
    var challenge := CheckChallenge(c, window, block, prev.None?, ch);
    if !challenge { return Err(InvalidHeader); }
    result := Ok(r);
  }

  /** The whole tree always suffices. */
  lemma {:induction false} TreeSuffices(c: Consensus, blocks: Blocks, block: FullBlock)
    requires ValidConstants(c) && Closed(blocks) && ValidChain(c, Parents(blocks, block))
    ensures Suffices(c, blocks, Parents(blocks, block), block)
  {
    var ch := Parents(blocks, block);
    if ch.Snoc? {
      SlotBounded(c, ch);
      LastTxExists(c, ch);
      PathSeen(blocks, block.prevHash, FirstOfSlot(ch));
      PathSeen(blocks, block.prevHash, LastTx(ch));
      TreeReaches(c, blocks, block.prevHash, 2);
      assert Linked(blocks, block.prevHash);
      if ch.prev.Snoc? {
        DifficultyAdjustment.WalkStopPrefix(c, ch.prev);
        PathSeen(blocks, blocks[block.prevHash].block.prevHash, DifficultyAdjustment.WalkStop(c, ch.prev));
      }
    }
  }

  lemma {:induction false} DeficitIsNatural(c: Consensus, ch: Chain, block: FullBlock)
    requires ValidConstants(c) && ValidChain(c, ch)
    ensures CalculateDeficit(c, block.height, Top(ch), IsOverflowBlock(c, block.signagePointIndex),
        |block.finishedSubSlots|) >= 0
  {
    if ch.Snoc? { DeficitBounded(c, ch); }
  }
}
