/** The default consensus constants, and a first block for a chain that uses them. */
module DefaultConstants {
  import opened Types
  import opened Chains
  import opened SignificantBits
  import opened HeaderRules
  import opened CoinSet
  import opened BlockTree
  import opened BlockChallenge
  import opened ForkChoice
  import opened PreValidation
  import Arithmetic

  function Defaults(genesisChallenge: Hash, run: (Program, seq<Program>) -> NpcResult): Consensus {
    Consensus(32, 16, 128, 64, 3, 134_217_728, 1, 3, 384, 4608, 8, 600, 11, genesisChallenge,
              18_446_744_073_709_551_615, 11_000_000_000, 512, run)
  }

  lemma {:induction false} Pow2Sum(i: nat, j: nat)
    ensures Pow2(i + j) == Pow2(i) * Pow2(j)
  {
    if j > 0 { Pow2Sum(i, j - 1); }
  }

  lemma {:induction false} CountOfPow2(n: nat)
    ensures CountSignificantBits(Pow2(n)) == 1
  {
    if n > 0 { CountOfPow2(n - 1); }
  }

  /** The default constants meet everything that is asked of constants here. */
  lemma {:induction false} DefaultsAreValid(genesisChallenge: Hash, run: (Program, seq<Program>) -> NpcResult)
    ensures ValidConstants(Defaults(genesisChallenge, run))
  {
    var c := Defaults(genesisChallenge, run);
    assert Pow2(3) == 8 by { assert Pow2(1) == 2 && Pow2(2) == 4; }
    Pow2Sum(3, 3);
    assert Pow2(6) == 64;
    assert c.numSpsSubSlot == Pow2(6);
    Pow2Sum(6, 6);
    Pow2Sum(12, 12);
    Pow2Sum(24, 3);
    assert Pow2(27) == 134_217_728;
    CountOfPow2(27);
    Arithmetic.MultipleIsModulo(134_217_728, 64);
  }

  /** At the target rate an epoch takes a day and has twelve sub-epochs, and rewards halve after three times 365 epochs.
      A sub-slot never fills half a sub-epoch. */
  lemma {:induction false} DefaultTimes(genesisChallenge: Hash, run: (Program, seq<Program>) -> NpcResult, height: nat)
    ensures var c := Defaults(genesisChallenge, run);
            && c.epochBlocks * c.subSlotTimeTarget == 24 * 60 * 60 * c.slotBlocksTarget
            && c.epochBlocks == 12 * c.subEpochBlocks && 2 * c.maxSubSlotBlocks < c.subEpochBlocks
            && var later := height + 3 * 365 * c.epochBlocks;
            0 < height ==>
              (CalculatePoolReward(height) == 2 * CalculatePoolReward(later) <==> height < 12 * 365 * c.epochBlocks)
  {}

  /** A first block: no finished sub-slot, signage point 0, the least iterations, an empty body. */
  function FirstBlock(genesisChallenge: Hash, hash: Hash, timestamp: nat): BlockRecord {
    BlockRecord(FullBlock(hash, genesisChallenge, 0, 1, 6_291_457, 0, genesisChallenge, 1, [],
      Some(Foliage(genesisChallenge, timestamp)),
                          Some(TransactionsInfo(0, 0, [])), None, [], Hash(0), Hash(0), Hash(0), Hash(0)),
                134_217_728, 15)
  }

  lemma {:induction false} FirstHeader(c: Consensus, genesisChallenge: Hash, run: (Program, seq<Program>) -> NpcResult,
                                       r: BlockRecord, hash: Hash, timestamp: nat)
    requires c == Defaults(genesisChallenge, run) && r == FirstBlock(genesisChallenge, hash, timestamp)
             && ValidConstants(c)
    ensures StepOk(c, Empty, r)
  {
    Arithmetic.MultipleIsModulo(134_217_728, 64);
    assert Ip(c, r) == 6_291_457;
    assert ParamsOk(c, Empty, r);
    assert ItersOk(c, Empty, r);
    assert SummaryOk(c, Empty, r) && TransactionOk(c, Empty, r);
  }

  lemma {:induction false} FirstBody(c: Consensus, genesisChallenge: Hash, run: (Program, seq<Program>) -> NpcResult,
                                     hash: Hash, timestamp: nat)
    requires c == Defaults(genesisChallenge, run)
    ensures BodyOk(c, Empty, FirstBlock(genesisChallenge, hash, timestamp).block)
  {
    assert Members([]) == {} && Distinct([]);
  }

  /** An empty node accepts it, so there are runs. */
  lemma {:induction false} FirstBlockAcceptable(genesisChallenge: Hash, run: (Program, seq<Program>) -> NpcResult,
                                                hash: Hash, timestamp: nat)
    requires hash != genesisChallenge
    ensures ValidConstants(Defaults(genesisChallenge, run))
    ensures Acceptable(Defaults(genesisChallenge, run), NO_BLOCKS, FirstBlock(genesisChallenge, hash, timestamp))
  {
    var c, r := Defaults(genesisChallenge, run), FirstBlock(genesisChallenge, hash, timestamp);
    DefaultsAreValid(genesisChallenge, run);
    FirstHeader(c, genesisChallenge, run, r, hash, timestamp);
    FirstBody(c, genesisChallenge, run, hash, timestamp);
  }

  // ---------------------------------------------------------------- the challenge that is on no record

  /** A genesis block before which one sub-slot ended, and whose signage point lies in that sub-slot. */
  function LateGenesis(genesisChallenge: Hash, hash: Hash, timestamp: nat, cc: Hash, rc: Hash): BlockRecord {
    BlockRecord(FullBlock(hash, genesisChallenge, 0, 1, 134_217_729, 61, genesisChallenge, 1,
                          [SubSlot(genesisChallenge, 134_217_728, cc, rc, 16, None, None, None)],
                          Some(Foliage(genesisChallenge, timestamp)), Some(TransactionsInfo(0, 0, [])), None, [],
                          Hash(0), Hash(0), Hash(0), Hash(0)),
                134_217_728, 15)
  }

  /** A second block with the same signage point, in the same sub-slot. */
  function LateSecond(genesis: BlockRecord, hash: Hash, answer: Hash): BlockRecord {
    BlockRecord(FullBlock(hash, genesis.block.headerHash, 1, 2, 134_217_730, 61, answer, 2, [], None, None, None, [],
                          Hash(0), Hash(0), Hash(0), Hash(0)),
                134_217_728, 14)
  }

  lemma {:induction false} LateGenesisStep(c: Consensus, genesisChallenge: Hash,
                                           run: (Program, seq<Program>) -> NpcResult, r: BlockRecord, hash: Hash,
                                           timestamp: nat, cc: Hash, rc: Hash)
    requires c == Defaults(genesisChallenge, run) && r == LateGenesis(genesisChallenge, hash, timestamp, cc, rc)
             && ValidConstants(c)
    ensures StepOk(c, Empty, r) && ChallengeOk(c, Empty, r.block)
  {
    Arithmetic.MultipleIsModulo(134_217_728, 64);
    assert Ip(c, r) == 1 && Overflow(c, r);
    assert ParamsOk(c, Empty, r);
    assert SubSlotOk(c, Empty, r, 0);
    assert ItersOk(c, Empty, r);
    assert SummaryOk(c, Empty, r) && TransactionOk(c, Empty, r);
  }

  lemma {:induction false} LateSecondStep(c: Consensus, genesisChallenge: Hash,
                                          run: (Program, seq<Program>) -> NpcResult, g: BlockRecord, r: BlockRecord,
                                          hash0: Hash, timestamp: nat, cc: Hash, rc: Hash, hash1: Hash, answer: Hash)
    requires c == Defaults(genesisChallenge, run) && ValidConstants(c)
    requires g == LateGenesis(genesisChallenge, hash0, timestamp, cc, rc) && r == LateSecond(g, hash1, answer)
    ensures StepOk(c, Snoc(Empty, g), r)
  {
    var ch := Snoc(Empty, g);
    Arithmetic.MultipleIsModulo(134_217_728, 64);
    assert Ip(c, g) == 1 && Ip(c, r) == 2 && Overflow(c, r);
    assert ParamsOk(c, ch, r);
    assert CountOk(c, ch, r) && ItersOk(c, ch, r);
    assert SummaryOk(c, ch, r) && TransactionOk(c, ch, r);
  }

  /** The one exception to the look-up of challenges exists: this block satisfies every other rule, but whatever
      challenge it answers, none is found for it, so no node accepts it. */
  lemma {:induction false} LateSecondRefused(genesisChallenge: Hash, run: (Program, seq<Program>) -> NpcResult,
                                             hash0: Hash, timestamp: nat, cc: Hash, rc: Hash, hash1: Hash, answer: Hash)
    ensures var c, g := Defaults(genesisChallenge, run), LateGenesis(genesisChallenge, hash0, timestamp, cc, rc);
            var ch, r := Snoc(Empty, g), LateSecond(g, hash1, answer);
            && ValidConstants(c) && ValidChain(c, Snoc(ch, r)) && BodyOk(c, ch, r.block)
            && ChallengeOk(c, Empty, g.block)
            && Overflow(c, r) && InGenesisSlot(ch, r) && |Root(ch).block.finishedSubSlots| == 1
            && ChallengeOf(c, r.block, ch, false, true, false).Err? && !HeaderValid(c, ch, r.block)
  {
    var c, g := Defaults(genesisChallenge, run), LateGenesis(genesisChallenge, hash0, timestamp, cc, rc);
    var ch, r := Snoc(Empty, g), LateSecond(g, hash1, answer);
    DefaultsAreValid(genesisChallenge, run);
    LateGenesisStep(c, genesisChallenge, run, g, hash0, timestamp, cc, rc);
    LateSecondStep(c, genesisChallenge, run, g, r, hash0, timestamp, cc, rc, hash1, answer);
    assert ValidChain(c, Empty) && ValidChain(c, ch);
    assert RecordedHashes(c, Empty) == [] && |RecordedHashes(c, ch)| == 1;
  }

  // ---------------------------------------------------------------- records that pre-validation leaves behind

  /** A second block whose signage point index is too high. */
  function BadSecond(genesisChallenge: Hash, first: BlockRecord, hash: Hash): FullBlock {
    FullBlock(hash, first.block.headerHash, 1, 2, 6_291_458, 64, genesisChallenge, 2, [], None, None, None, [],
              Hash(0), Hash(0), Hash(0), Hash(0))
  }

  predicate AnyProof(block: FullBlock, challenge: Hash) { true }

  predicate AnySummary(block: FullBlock) { true }

  /** The first block of this batch is never refused, the second always. */
  ghost predicate BreaksOff(c: Consensus, batch: seq<FullBlock>)
    requires ValidConstants(c)
  {
    && |batch| == 2 && Chained(c, map[], batch) && Attached(map[], batch)
    && (forall e: Error :: !Refused(c, map[], batch[0], e, AnyProof, AnySummary))
    && batch[1].signagePointIndex >= c.numSpsSubSlot
  }

  lemma {:induction false} LeftoverInput(c: Consensus, genesisChallenge: Hash,
                                         run: (Program, seq<Program>) -> NpcResult, hash0: Hash, timestamp: nat,
                                         hash1: Hash)
    requires c == Defaults(genesisChallenge, run) && ValidConstants(c) && hash0 != genesisChallenge
             && hash1 != genesisChallenge && hash0 != hash1
    ensures var first := FirstBlock(genesisChallenge, hash0, timestamp);
            BreaksOff(c, [first.block, BadSecond(genesisChallenge, first, hash1)])
  {
    var first := FirstBlock(genesisChallenge, hash0, timestamp);
    var batch := [first.block, BadSecond(genesisChallenge, first, hash1)];
    assert forall i | 0 < i < |batch| :: IsChild(batch[i - 1], batch[i]);
    assert ChallengeIn(c, map[], batch[0]) == Ok(genesisChallenge);
  }

  /** Pre-validating such a batch on an empty tree leaves the record of the first block behind. */
  method LeaveFirst(c: Consensus, batch: seq<FullBlock>) returns (after: Blocks)
    requires ValidConstants(c) && BreaksOff(c, batch)
    ensures batch[0].headerHash in after && batch[1].headerHash !in after
  {
    var r, recent, compressed;
    ghost var done, tree;
    r, after, recent, compressed, done, tree := PreValidateBlocks(c, map[], map[], batch, AnyProof, AnySummary);
    if |done| > 1 { SettledPasses(c, map[], tree, recent, compressed, batch, done, AnyProof, AnySummary, 1); }
    assert Hashes(batch, 1) == Hashes(batch, 0) + {batch[0].headerHash};
  }

  /** There is one. */
  method LeftoverExample(genesisChallenge: Hash, run: (Program, seq<Program>) -> NpcResult, hash0: Hash, timestamp: nat,
                         hash1: Hash)
    returns (after: Blocks)
    requires hash0 != genesisChallenge && hash1 != genesisChallenge && hash0 != hash1
    ensures hash0 in after && hash1 !in after
  {
    var c, first := Defaults(genesisChallenge, run), FirstBlock(genesisChallenge, hash0, timestamp);
    DefaultsAreValid(genesisChallenge, run);
    LeftoverInput(c, genesisChallenge, run, hash0, timestamp, hash1);
    after := LeaveFirst(c, [first.block, BadSecond(genesisChallenge, first, hash1)]);
  }
}
