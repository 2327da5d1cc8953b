/** The challenge that a block's proof of space must answer, found by walking back over sub-slots. */
module BlockChallenge {
  import opened Types
  import opened Chains
  import opened BlockTree
  import opened PotIterations
  import opened HeaderRules
  import opened SubEpochs
  import opened ChainIterations

  /** The hashes that start all sub-slots, from the very first to the current one. */
  function AllSlotHashes(c: Consensus, ch: Chain): seq<SlotHashes> {
    if ch.Empty? then [SlotHashes(c.genesisChallenge, c.genesisChallenge)]
    else AllSlotHashes(c, ch.prev) + HashesOf(ch.top.block.finishedSubSlots)
  }

  /** The hashes that records carry. Genesis carries the first ones only when no sub-slot ended
      before it, so up to one entry is missing here. */
  function RecordedHashes(c: Consensus, ch: Chain): seq<SlotHashes> {
    if ch.Empty? then []
    else RecordedHashes(c, ch.prev) + (if ch.top.FirstInSubSlot() then FinishedSlots(c, ch.top) else [])
  }

  /** How many challenges back the signage point of a block lies. */
  function SlotsBack(overflow: bool, skipLast: bool): nat {
    if overflow && !skipLast then 2 else 1
  }

  /** Challenges that a record contributes to a walk. */
  function Contributes(c: Consensus, r: BlockRecord): nat {
    if r.FirstInSubSlot() then |FinishedSlots(c, r)| else 0
  }

  /** A set of records holds every block that must be looked at to find k recorded challenges. */
  ghost predicate Reaches(c: Consensus, window: Blocks, ch: Chain, k: int) {
    k <= 0 || ch.Empty? ||
    (Has(window, ch.top) && Reaches(c, window, ch.prev, k - Contributes(c, ch.top)))
  }

  /** Walks back from a block until k challenges are found, or genesis is passed. */
  method CollectChallenges(c: Consensus, window: Blocks, start: Hash, k: nat, ghost ch: Chain)
    returns (r: Result<seq<SlotHashes>>, ghost rest: Chain)
    ensures EndsIn(ch, start) && Reaches(c, window, ch, k) ==>
              && r.Ok? && RecordedHashes(c, ch) == RecordedHashes(c, rest) + r.value
              && (|r.value| >= k || rest.Empty?)
  {
    ghost var safe := EndsIn(ch, start) && Reaches(c, window, ch, k);
    rest := ch;
    if k == 0 { return Ok([]), rest; }
    if start !in window { return Err(MissingBlock), rest; }
    var curr := window[start];
    var found: seq<SlotHashes> := [];
    while true
      invariant |found| < k
      invariant safe ==> rest.Snoc? && rest.top == curr && Numbered(rest) && HashLinked(rest)
      invariant safe ==> Reaches(c, window, rest, k - |found|)
      invariant safe ==> RecordedHashes(c, ch) == RecordedHashes(c, rest) + found
      decreases curr.block.height
    {
      if curr.FirstInSubSlot() { found := FinishedSlots(c, curr) + found; }
      if safe {
        NumberedHeight(rest.prev);
        rest := rest.prev;
      }
      if curr.block.height == 0 || |found| >= k { return Ok(found), rest; }
      if curr.block.prevHash !in window { return Err(MissingBlock), rest; }
      var parent := window[curr.block.prevHash];
      if parent.block.height >= curr.block.height { return Err(AssertionFailed), rest; }
      curr := parent;
    }
  }

  /** Finds the challenge, looking records up in a set that need not be complete. As long as the
      set reaches back far enough, no lookup fails and the result depends on the chain alone. */
  method GetBlockChallenge(c: Consensus, block: FullBlock, window: Blocks, genesis: bool, overflow: bool,
                           skipLast: bool, ghost ch: Chain) returns (r: Result<Hash>)
    ensures block.finishedSubSlots != [] || genesis
            || (EndsIn(ch, block.prevHash) && Reaches(c, window, ch, SlotsBack(overflow, skipLast)))
        ==> r == ChallengeOf(c, block, ch, genesis, overflow, skipLast)
  {
    if block.finishedSubSlots != [] {
      var last := block.finishedSubSlots[|block.finishedSubSlots| - 1];
      return Ok(if overflow && !skipLast then last.challenge else last.ccHash);
    }
    if genesis { return Ok(c.genesisChallenge); }
    var k := SlotsBack(overflow, skipLast);
    var found, rest := CollectChallenges(c, window, block.prevHash, k, ch);
    if found.Err? { return Err(found.error); }
    if k > |found.value| { return Err(AssertionFailed); }
    r := Ok(found.value[|found.value| - k].cc);
  }

  /** What the program's lookup amounts to on a whole chain. */
  ghost function ChallengeOf(c: Consensus, block: FullBlock, ch: Chain, genesis: bool, overflow: bool,
                             skipLast: bool): Result<Hash> {
    if block.finishedSubSlots != [] then
      var last := block.finishedSubSlots[|block.finishedSubSlots| - 1];
      Ok(if overflow && !skipLast then last.challenge else last.ccHash)
    else if genesis then Ok(c.genesisChallenge)
    else
      var found, k := RecordedHashes(c, ch), SlotsBack(overflow, skipLast);
      if k <= |found| then Ok(found[|found| - k].cc) else Err(AssertionFailed)
  }

  /** Rule 5a: the proof of space answers the challenge that is found for the block. */
  ghost predicate ChallengeOk(c: Consensus, ch: Chain, block: FullBlock) {
    ChallengeOf(c, block, ch, ch.Empty?, IsOverflowBlock(c, block.signagePointIndex), false) == Ok(block.posChallenge)
  }

  // ---------------------------------------------------------------- which challenge that is

  lemma {:induction false} RecordedNonEmpty(c: Consensus, ch: Chain)
    requires Numbered(ch) && ch.Snoc?
    ensures |RecordedHashes(c, ch)| >= 1
    ensures RecordedHashes(c, FirstOfSlot(ch)) == RecordedHashes(c, ch)
    ensures var rc := RecordedHashes(c, ch); rc[|rc| - 1] == CurrentHashes(c, ch)
  {
    NumberedHeight(ch.prev);
    if ch.prev.Snoc? && !ch.top.FirstInSubSlot() { RecordedNonEmpty(c, ch.prev); }
  }

  lemma {:induction false} FromTheEnd(a: seq<SlotHashes>, b: seq<SlotHashes>, k: nat)
    requires 1 <= k <= |b|
    ensures (a + b)[|a + b| - k] == b[|b| - k]
  {
  }

  /** The challenge that no record carries, if there is one. */
  function Unrecorded(c: Consensus, ch: Chain): seq<SlotHashes>
    requires ch.Snoc?
  {
    if Root(ch).block.finishedSubSlots == [] then [] else [SlotHashes(c.genesisChallenge, c.genesisChallenge)]
  }

  lemma {:induction false} RecordedIsSuffix(c: Consensus, ch: Chain)
    requires Numbered(ch) && ch.Snoc?
    ensures AllSlotHashes(c, ch) == Unrecorded(c, ch) + RecordedHashes(c, ch)
  {
    NumberedHeight(ch.prev);
    var top := ch.top.block.finishedSubSlots;
    if ch.prev.Snoc? {
      RecordedIsSuffix(c, ch.prev);
      assert RecordedHashes(c, ch) == RecordedHashes(c, ch.prev) + HashesOf(top);
    } else {
      assert RecordedHashes(c, ch) == FinishedSlots(c, ch.top);
    }
  }

  /** Every sub-slot after that of genesis leaves at least two challenges on record. */
  lemma {:induction false} RecordedCount(c: Consensus, ch: Chain)
    requires Numbered(ch) && ch.Snoc?
    ensures FirstOfSlot(ch).Snoc?
    ensures Height(FirstOfSlot(ch)) == 0 ==> |RecordedHashes(c, ch)| == |FinishedSlots(c, Root(ch))|
    ensures Height(FirstOfSlot(ch)) > 0 ==> |RecordedHashes(c, ch)| >= 2
  {
    NumberedHeight(ch.prev);
    if ch.prev.Snoc? {
      if ch.top.FirstInSubSlot() { RecordedNonEmpty(c, ch.prev); } else { RecordedCount(c, ch.prev); }
    }
  }

  /** An overflow block in the sub-slot of genesis needs a sub-slot to have ended before genesis. */
  lemma {:induction false} OverflowAtGenesis(c: Consensus, ch: Chain)
    requires ValidConstants(c) && ValidChain(c, ch) && ch.Snoc? && Overflow(c, ch.top)
    requires FirstOfSlot(ch).Snoc? && Height(FirstOfSlot(ch)) == 0
    ensures Root(ch).block.finishedSubSlots != []
  {
    var f := FirstOfSlot(ch);
    SlotShared(c, ch);
    SlotBounded(c, ch);
    SignagePointInSlot(c, ch);
    RootOfPrefix(f, ch);
    assert ItersOk(c, ch.prev, ch.top);
    GenesisStart(c, f);
  }

  lemma {:induction false} GenesisStart(c: Consensus, f: Chain)
    requires ValidConstants(c) && ValidChain(c, f) && f.Snoc? && Height(f) == 0
    ensures f.prev.Empty? && Root(f) == f.top
    ensures SlotStart(c, f.top) == f.top.subSlotIters * Finished(f.top)
  {
    ValidNumbered(c, f);
    NumberedHeight(f.prev);
    assert ItersOk(c, f.prev, f.top);
  }

  lemma {:induction false} RootOfPrefix(a: Chain, ch: Chain)
    requires a.Snoc? && IsPrefix(a, ch)
    ensures ch.Snoc? && Root(a) == Root(ch)
  {
    if a != ch { RootOfPrefix(a, ch.prev); }
  }

  /** On a valid block the result is the challenge of the sub-slot in which the signage point
      lies: the newest challenge, or the one before it for an overflow block. The lookup fails
      exactly when an overflow block shares the sub-slot of a genesis before which one sub-slot
      ended: the challenge of that sub-slot is on no record. */
  lemma {:induction false} ChallengeIsSignagePointSlot(c: Consensus, ch: Chain, r: BlockRecord)
    requires ValidConstants(c) && ValidChain(c, Snoc(ch, r))
    ensures var all, k := AllSlotHashes(c, Snoc(ch, r)), SlotsBack(Overflow(c, r), false);
            var result := ChallengeOf(c, r.block, ch, ch.Empty?, Overflow(c, r), false);
            && |all| >= k
            && (result.Ok? ==> result.value == all[|all| - k].cc)
            && (result.Err? <==>
              Overflow(c, r) && ch.Snoc? && InGenesisSlot(ch, r) && |Root(ch).block.finishedSubSlots| == 1)
  {
    ValidNumbered(c, Snoc(ch, r));
    if r.block.finishedSubSlots != [] { NewSlotChallenge(c, ch, r); } else { SameSlotChallenge(c, ch, r); }
  }

  /** When the last sub-slot is skipped in the count, the result is the newest challenge, for overflow blocks too. */
  lemma {:induction false} SkippedIsNewest(c: Consensus, ch: Chain, r: BlockRecord, overflow: bool)
    requires ValidConstants(c) && ValidChain(c, Snoc(ch, r))
    ensures var all := AllSlotHashes(c, Snoc(ch, r));
            all != [] && ChallengeOf(c, r.block, ch, ch.Empty?, overflow, true) == Ok(all[|all| - 1].cc)
  {
    ValidNumbered(c, Snoc(ch, r));
    if r.block.finishedSubSlots != [] {
      NewSlotChallenge(c, ch, r);
    } else {
      GenesisOverflow(c, ch, r);
      AllNonEmpty(c, ch);
      if ch.Snoc? { OldSlotChallenge(c, ch, 1); }
    }
  }

  /** The case of a block that ends no sub-slot. */
  lemma {:induction false} SameSlotChallenge(c: Consensus, ch: Chain, r: BlockRecord)
    requires ValidConstants(c) && ValidChain(c, Snoc(ch, r)) && Numbered(Snoc(ch, r)) && r.block.finishedSubSlots == []
    ensures var all, k := AllSlotHashes(c, Snoc(ch, r)), SlotsBack(Overflow(c, r), false);
            var result := ChallengeOf(c, r.block, ch, ch.Empty?, Overflow(c, r), false);
            && |all| >= k
            && (result.Ok? ==> result.value == all[|all| - k].cc)
            && (result.Err? <==>
              Overflow(c, r) && ch.Snoc? && InGenesisSlot(ch, r) && |Root(ch).block.finishedSubSlots| == 1)
  {
    GenesisOverflow(c, ch, r);
    if ch.Snoc? { OldSlotChallenge(c, ch, SlotsBack(Overflow(c, r), false)); }
  }

  lemma {:induction false} GenesisOverflow(c: Consensus, ch: Chain, r: BlockRecord)
    requires ValidConstants(c) && ValidChain(c, Snoc(ch, r)) && Numbered(Snoc(ch, r)) && r.block.finishedSubSlots == []
    ensures AllSlotHashes(c, Snoc(ch, r)) == AllSlotHashes(c, ch)
    ensures Overflow(c, r) && InGenesisSlot(ch, r) ==> ch.Snoc? && Root(ch).block.finishedSubSlots != []
  {
    var all := Snoc(ch, r);
    if Overflow(c, r) && InGenesisSlot(ch, r) {
      if ch.Snoc? { NumberedHeight(ch); }
      assert FirstOfSlot(all) == if ch.Empty? then all else FirstOfSlot(ch);
      SlotBounded(c, all);
      OverflowAtGenesis(c, all);
      assert Root(all) == if ch.Empty? then r else Root(ch);
    }
  }

  /** Whether a block on top of a chain is infused in the sub-slot of genesis. */
  predicate InGenesisSlot(ch: Chain, r: BlockRecord) {
    r.block.finishedSubSlots == [] && (ch.Snoc? ==> Height(FirstOfSlot(ch)) == 0)
  }

  lemma {:induction false} OldSlotChallenge(c: Consensus, ch: Chain, k: nat)
    requires Numbered(ch) && ch.Snoc? && 1 <= k <= 2
    requires k == 2 && Height(FirstOfSlot(ch)) == 0 ==> Root(ch).block.finishedSubSlots != []
    ensures var all, found := AllSlotHashes(c, ch), RecordedHashes(c, ch);
            && k <= |all|
            && (k <= |found| ==> found[|found| - k] == all[|all| - k])
            && (k > |found| <==> k == 2 && Height(FirstOfSlot(ch)) == 0 && |Root(ch).block.finishedSubSlots| == 1)
  {
    RecordedIsSuffix(c, ch);
    RecordedCount(c, ch);
    RecordedNonEmpty(c, ch);
    if k <= |RecordedHashes(c, ch)| { FromTheEnd(Unrecorded(c, ch), RecordedHashes(c, ch), k); }
  }

  lemma {:induction false} NewSlotChallenge(c: Consensus, ch: Chain, r: BlockRecord)
    requires ValidConstants(c) && ValidChain(c, Snoc(ch, r)) && Numbered(ch) && r.block.finishedSubSlots != []
    ensures var all, last := AllSlotHashes(c, Snoc(ch, r)), r.block.finishedSubSlots[|r.block.finishedSubSlots| - 1];
            |all| >= 2 && all[|all| - 1].cc == last.ccHash && all[|all| - 2].cc == last.challenge
  {
    var n := |r.block.finishedSubSlots|;
    AllNonEmpty(c, ch);
    assert SubSlotOk(c, ch, r, n - 1);
    FromTheEnd(AllSlotHashes(c, ch), HashesOf(r.block.finishedSubSlots), 1);
    if n >= 2 {
      FromTheEnd(AllSlotHashes(c, ch), HashesOf(r.block.finishedSubSlots), 2);
    } else if ch.Snoc? {
      NewestIsCurrent(c, ch);
    }
  }

  lemma {:induction false} NewestIsCurrent(c: Consensus, ch: Chain)
    requires Numbered(ch) && ch.Snoc?
    ensures var all := AllSlotHashes(c, ch); |all| >= 1 && all[|all| - 1] == CurrentHashes(c, ch)
  {
    RecordedIsSuffix(c, ch);
    RecordedNonEmpty(c, ch);
    FromTheEnd(Unrecorded(c, ch), RecordedHashes(c, ch), 1);
  }

  lemma {:induction false} AllNonEmpty(c: Consensus, ch: Chain)
    ensures |AllSlotHashes(c, ch)| >= 1 && AllSlotHashes(c, ch)[0].cc == c.genesisChallenge
  {
    if ch.Snoc? { AllNonEmpty(c, ch.prev); }
  }

  // ---------------------------------------------------------------- complete and partial windows

  /** The whole tree reaches back from every block. */
  lemma {:induction false} TreeReaches(c: Consensus, blocks: Blocks, h: Hash, k: int)
    requires Closed(blocks) && h in blocks
    ensures Reaches(c, blocks, Path(blocks, h), k) && EndsIn(Path(blocks, h), h)
    decreases blocks[h].block.height
  {
    assert Linked(blocks, h);
    if blocks[h].block.height > 0 {
      TreeReaches(c, blocks, blocks[h].block.prevHash, k - Contributes(c, blocks[h]));
    }
  }

  /** More records and fewer challenges to find keep a window sufficient. */
  lemma {:induction false} ReachesMonotone(c: Consensus, window: Blocks, more: Blocks, ch: Chain, k: int, k': int)
    requires Reaches(c, window, ch, k) && k' <= k
    requires Within(window, more)
    ensures Reaches(c, more, ch, k')
  {
    if k' > 0 && ch.Snoc? {
      ReachesMonotone(c, window, more, ch.prev, k - Contributes(c, ch.top), k' - Contributes(c, ch.top));
    }
  }
}
