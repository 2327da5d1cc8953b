/**
  Where the VDF to a signage point starts: at the newest block infused before the signage point
  in the signage point's own sub-slot, or at the start of that sub-slot.
 */
module VdfInfo {
  import opened Types
  import opened Chains
  import opened BlockTree
  import opened PotIterations
  import opened HeaderRules
  import opened SubEpochs
  import opened ChainIterations
  import opened BlockChallenge
  import opened HeaderValidation

  /** A sub-slot: total iterations at its start, and the hashes that start its chains. */
  datatype Slot = Slot(start: int, ccHash: Hash, rcHash: Hash)

  /** The starting point of a VDF; the input None stands for the default element. */
  datatype VdfStart = VdfStart(ccChallenge: Hash, rcChallenge: Hash, ccInput: Option<Hash>, iters: int)

  function AddSlots(slots: seq<Slot>, finished: seq<SubSlot>): (r: seq<Slot>)
    requires |slots| > 0
    ensures |r| == |slots| + |finished|
  {
    if finished == [] then slots
    else
      var s, f := AddSlots(slots, finished[..|finished| - 1]), finished[|finished| - 1];
      s + [Slot(s[|s| - 1].start + f.iterations, f.ccHash, f.rcHash)]
  }

  /** All sub-slots of a chain, from the first to the current one. */
  function AllSlots(c: Consensus, ch: Chain): (r: seq<Slot>)
    ensures |r| > 0
  {
    if ch.Empty? then [Slot(0, c.genesisChallenge, c.genesisChallenge)]
    else AddSlots(AllSlots(c, ch.prev), ch.top.block.finishedSubSlots)
  }

  /** The chain up to the newest block infused before a point in time. */
  function InfusedBefore(ch: Chain, totalIters: int): Chain {
    if ch.Empty? || ch.top.block.totalIters < totalIters then ch else InfusedBefore(ch.prev, totalIters)
  }

  /** The sub-slot in which the signage point of a block lies. */
  function SignagePointSlot(c: Consensus, ch: Chain, r: BlockRecord): Option<Slot> {
    var all, k := AllSlots(c, Snoc(ch, r)), SlotsBack(Overflow(c, r), false);
    if k <= |all| then Some(all[|all| - k]) else None
  }

  /** The start of the VDF to the signage point of r, in terms of the chain alone. */
  function SignagePointStart(c: Consensus, ch: Chain, r: BlockRecord, slot: Slot): VdfStart {
    var b := InfusedBefore(ch, SpTotalIters(c, r));
    if b.Snoc? && SlotStart(c, b.top) == slot.start then
      VdfStart(slot.ccHash, b.top.block.rewardChallenge, Some(b.top.block.ccOutput),
               SpTotalIters(c, r) - b.top.block.totalIters)
    else VdfStart(slot.ccHash, slot.rcHash, None, Sp(c, r))
  }

  /** The block from which a VDF may start is the newest one infused before the signage point. */
  lemma {:induction false} InfusedBeforeIs(ch: Chain, t: int, h: nat)
    requires Numbered(ch) && h <= Height(ch)
    ensures var b := InfusedBefore(ch, t);
            && (b.Snoc? ==> b.top.block.totalIters < t)
            && (Height(b) < h ==> At(ch, h).block.totalIters >= t)
  {
    NumberedHeight(ch.prev);
    if ch.top.block.totalIters >= t {
      if h <= Height(ch.prev) {
        assert At(ch, h) == At(ch.prev, h);
        InfusedBeforeIs(ch.prev, t, h);
      } else if ch.prev.Snoc? {
        InfusedBeforeIs(ch.prev, t, Height(ch.prev));
      }
    }
  }

  /** A VDF to a signage point starts at a block of the signage point's sub-slot or at its beginning, with the
      challenges that stand there, and runs exactly as long as it takes to the signage point. */
  lemma {:induction false} StartAddsUp(c: Consensus, ch: Chain, r: BlockRecord, slot: Slot)
    requires slot.start == SpSlotStart(c, r)
    ensures var v, b, t := SignagePointStart(c, ch, r, slot), InfusedBefore(ch, SpTotalIters(c, r)), SpTotalIters(c, r);
            && v.ccChallenge == slot.ccHash
            && (v.ccInput.None? ==> v.rcChallenge == slot.rcHash && slot.start + v.iters == t)
            && (v.ccInput.Some? ==>
                  && b.Snoc? && SlotStart(c, b.top) == slot.start && b.top.block.totalIters + v.iters == t
                  && v.rcChallenge == b.top.block.rewardChallenge && v.ccInput == Some(b.top.block.ccOutput))
            && (v.ccInput.None? <==> b.Empty? || SlotStart(c, b.top) != slot.start)
  {}

  // ---------------------------------------------------------------- the list of sub-slots

  lemma {:induction false} AddSlotsLast(slots: seq<Slot>, finished: seq<SubSlot>)
    requires |slots| > 0
    ensures var r := AddSlots(slots, finished);
            && r[|r| - 1].start == slots[|slots| - 1].start + SlotIterations(finished)
            && (finished == [] ==> r == slots)
            && (finished != [] ==> r[|r| - 1].start == r[|r| - 2].start + finished[|finished| - 1].iterations)
  {
    if finished != [] { AddSlotsLast(slots, finished[..|finished| - 1]); }
  }

  lemma {:induction false} LastSlotStart(c: Consensus, ch: Chain)
    ensures var all := AllSlots(c, ch); all[|all| - 1].start == FinishedIterations(ch)
  {
    if ch.Snoc? {
      LastSlotStart(c, ch.prev);
      AddSlotsLast(AllSlots(c, ch.prev), ch.top.block.finishedSubSlots);
    }
  }

  /** The list of sub-slots carries the same hashes as the list of hashes. */
  lemma {:induction false} SlotsCarryHashes(c: Consensus, ch: Chain, k: nat)
    requires k < |AllSlots(c, ch)|
    ensures |AllSlotHashes(c, ch)| == |AllSlots(c, ch)|
    ensures AllSlotHashes(c, ch)[k] == SlotHashes(AllSlots(c, ch)[k].ccHash, AllSlots(c, ch)[k].rcHash)
  {
    if ch.Snoc? {
      var before := AllSlots(c, ch.prev);
      AddSlotsHashes(before, ch.top.block.finishedSubSlots, k);
      if k < |before| { SlotsCarryHashes(c, ch.prev, k); } else { SlotsCarryHashes(c, ch.prev, 0); }
    }
  }

  lemma {:induction false} AddSlotsHashes(slots: seq<Slot>, finished: seq<SubSlot>, k: nat)
    requires |slots| > 0 && k < |slots| + |finished|
    ensures var r := AddSlots(slots, finished);
            if k < |slots| then r[k] == slots[k]
            else r[k].ccHash == finished[k - |slots|].ccHash && r[k].rcHash == finished[k - |slots|].rcHash
  {
    if finished != [] && k < |slots| + |finished| - 1 { AddSlotsHashes(slots, finished[..|finished| - 1], k); }
  }

  lemma {:induction false} SlotsOfFirst(c: Consensus, ch: Chain)
    ensures AllSlots(c, FirstOfSlot(ch)) == AllSlots(c, ch)
  {
    if ch.Snoc? && !ch.top.FirstInSubSlot() {
      AddSlotsLast(AllSlots(c, ch.prev), ch.top.block.finishedSubSlots);
      SlotsOfFirst(c, ch.prev);
    }
  }

  /** Before an overflow block that begins a sub-slot lies a sub-slot of the same length. */
  lemma {:induction false} SlotBefore(c: Consensus, f: Chain)
    requires ValidConstants(c) && ValidChain(c, f) && f.Snoc? && Overflow(c, f.top) && Finished(f.top) > 0
    ensures var all := AllSlots(c, f);
            |all| >= 2 && all[|all| - 2].start == SlotStart(c, f.top) - f.top.subSlotIters
  {
    var n := Finished(f.top);
    LastSlotStart(c, f);
    IterationsAccounted(c, f);
    AddSlotsLast(AllSlots(c, f.prev), f.top.block.finishedSubSlots);
    assert SubSlotOk(c, f.prev, f.top, n - 1) && OverflowOk(c, f.prev, f.top);
    if n == 1 && f.prev.Snoc? { ItersKept(c, f); }
  }

  /** An overflow block's sub-slot begins with an overflow block after at least one ended sub-slot. */
  lemma {:induction false} OverflowSlotStart(c: Consensus, ch: Chain)
    requires ValidConstants(c) && ValidChain(c, ch) && ch.Snoc? && Overflow(c, ch.top)
    ensures var f := FirstOfSlot(ch);
            f.Snoc? && ValidChain(c, f) && Overflow(c, f.top) && Finished(f.top) > 0
  {
    var f := FirstOfSlot(ch);
    SlotBounded(c, ch);
    if !Overflow(c, f.top) { NonOverflowStays(c, ch); }
    if Finished(f.top) == 0 {
      OverflowAtGenesis(c, ch);
      GenesisStart(c, f);
      RootOfPrefix(f, ch);
    }
  }

  /** The signage point's sub-slot is in the list, and starts where the record says. */
  lemma {:induction false} SignagePointSlotStart(c: Consensus, ch: Chain, r: BlockRecord)
    requires ValidConstants(c) && ValidChain(c, Snoc(ch, r))
    ensures var s := SignagePointSlot(c, ch, r); s.Some? && s.value.start == SpSlotStart(c, r)
  {
    var x := Snoc(ch, r);
    if Overflow(c, r) {
      OverflowSlotStart(c, x);
      SlotBefore(c, FirstOfSlot(x));
      SlotsOfFirst(c, x);
      SlotShared(c, x);
    } else {
      LastSlotStart(c, x);
      IterationsAccounted(c, x);
    }
  }

  // ---------------------------------------------------------------- walking back inside a sub-slot

  /** Back to the start of the sub-slot, or to a block not infused after the given point. */
  function WalkInSlot(ch: Chain, totalIters: int): Chain {
    if ch.Empty? || ch.top.FirstInSubSlot() || ch.top.block.totalIters <= totalIters then ch
    else WalkInSlot(ch.prev, totalIters)
  }

  lemma {:induction false} WalkStaysInSlot(c: Consensus, ch: Chain, t: int)
    requires ValidConstants(c) && ValidChain(c, ch) && ch.Snoc?
    ensures var w := WalkInSlot(ch, t);
            && w.Snoc? && ValidChain(c, w) && IsPrefix(w, ch) && FirstOfSlot(w) == FirstOfSlot(ch)
            && InfusedBefore(w, t) == InfusedBefore(ch, t)
            && SlotStart(c, w.top) == SlotStart(c, ch.top) && w.top.subSlotIters == ch.top.subSlotIters
  {
    if !(ch.top.FirstInSubSlot() || ch.top.block.totalIters <= t) {
      WalkStaysInSlot(c, ch.prev, t);
      NextBlockIters(c, ch);
      ItersKept(c, ch);
    }
  }

  lemma {:induction false} InfusedBeforeIsPrefix(ch: Chain, t: int)
    ensures IsPrefix(InfusedBefore(ch, t), ch)
  {
    if ch.Snoc? && ch.top.block.totalIters >= t { InfusedBeforeIsPrefix(ch.prev, t); }
  }

  /** Blocks below the first block of a sub-slot lie in sub-slots that start earlier. */
  lemma {:induction false} EarlierSlotsStartEarlier(c: Consensus, f: Chain, b: Chain)
    requires ValidConstants(c) && ValidChain(c, f) && f.Snoc? && f.top.FirstInSubSlot()
    requires b.Snoc? && IsPrefix(b, f.prev)
    ensures SlotStart(c, b.top) < SlotStart(c, f.top)
  {
    ValidNumbered(c, f);
    NumberedHeight(f.prev);
    NextBlockIters(c, f);
    AncestorsEarlier(c, b, f.prev);
    InfusedInSlot(c, f.prev);
  }

  /** What the walk inside a sub-slot finds for a signage point of that sub-slot: the newest block
      infused before it, or the start of the sub-slot when there is none. */
  lemma {:induction false} WalkFindsStart(c: Consensus, ch: Chain, index: nat)
    requires ValidConstants(c) && ValidChain(c, ch) && ch.Snoc? && index < c.numSpsSubSlot
    ensures var t := SlotStart(c, ch.top) + SpIters(c, ch.top.subSlotIters, index);
            var w, b := WalkInSlot(ch, t), InfusedBefore(ch, t);
            && w.Snoc? && FirstOfSlot(w) == FirstOfSlot(ch)
            && (w.top.block.totalIters < t ==> b == w && SlotStart(c, w.top) == SlotStart(c, ch.top))
            && (w.top.block.totalIters >= t ==> w.top.FirstInSubSlot() && w == FirstOfSlot(ch)
                                                && (b.Empty? || SlotStart(c, b.top) < SlotStart(c, ch.top)))
  {
    var t := SlotStart(c, ch.top) + SpIters(c, ch.top.subSlotIters, index);
    WalkStaysInSlot(c, ch, t);
    var w := WalkInSlot(ch, t);
    InfusedInSlot(c, w);
    InfusionOffSignagePoints(c, w.top.subSlotIters, w.top.block.signagePointIndex, w.top.block.requiredIters, index);
    WalkStops(ch, t);
    if w.top.block.totalIters >= t {
      var b := InfusedBefore(w.prev, t);
      InfusedBeforeIsPrefix(w.prev, t);
      if b.Snoc? { EarlierSlotsStartEarlier(c, w, b); }
    }
  }

  lemma {:induction false} WalkStops(ch: Chain, t: int)
    requires ch.Snoc?
    ensures var w := WalkInSlot(ch, t); w.Empty? || w.top.FirstInSubSlot() || w.top.block.totalIters <= t
  {
    if ch.Snoc? && !(ch.top.FirstInSubSlot() || ch.top.block.totalIters <= t)
        && ch.prev.Snoc? { WalkStops(ch.prev, t); }
  }

  // ---------------------------------------------------------------- walking back over two sub-slots

  /** Where a walk stops that looks for k finished sub-slots. */
  function StopAfter(c: Consensus, ch: Chain, k: int): Chain {
    if ch.Empty? || ch.prev.Empty? || Contributes(c, ch.top) >= k then ch
    else StopAfter(c, ch.prev, k - Contributes(c, ch.top))
  }

  lemma {:induction false} StopSkipsToFirst(c: Consensus, ch: Chain, k: int)
    requires Numbered(ch) && ch.Snoc? && k >= 1
    ensures StopAfter(c, ch, k) == StopAfter(c, FirstOfSlot(ch), k)
  {
    NumberedHeight(ch.prev);
    if !ch.top.FirstInSubSlot() { StopSkipsToFirst(c, ch.prev, k); }
  }

  lemma {:induction false} StopExists(c: Consensus, ch: Chain, k: int)
    requires ch.Snoc?
    ensures StopAfter(c, ch, k).Snoc?
  {
    if ch.prev.Snoc? && Contributes(c, ch.top) < k { StopExists(c, ch.prev, k - Contributes(c, ch.top)); }
  }

  /** Blocks at or above the first block of the current sub-slot are infused after its start. */
  lemma {:induction false} InfusedBeforeSlot(c: Consensus, ch: Chain, t: int)
    requires ValidConstants(c) && ValidChain(c, ch) && ch.Snoc? && t < SlotStart(c, ch.top)
    ensures FirstOfSlot(ch).Snoc? && InfusedBefore(ch, t) == InfusedBefore(FirstOfSlot(ch).prev, t)
  {
    InfusedInSlot(c, ch);
    if !ch.top.FirstInSubSlot() {
      NextBlockIters(c, ch);
      InfusedBeforeSlot(c, ch.prev, t);
    }
  }

  /** For an overflow block in the middle of a sub-slot: the newest block infused before the
      signage point counts exactly when the walk has not passed it before it stops. */
  lemma {:induction false} StopSeesSignagePointSlot(c: Consensus, ch: Chain, r: BlockRecord)
    requires ValidConstants(c) && ValidChain(c, Snoc(ch, r)) && ch.Snoc?
    requires Overflow(c, r) && r.block.finishedSubSlots == []
    ensures var b, stop := InfusedBefore(ch, SpTotalIters(c, r)), StopAfter(c, ch, 2);
            stop.Snoc? && (b.Snoc? ==> (Height(b) >= Height(stop) <==> SlotStart(c, b.top) == SpSlotStart(c, r)))
  {
    var x, f, t := Snoc(ch, r), FirstOfSlot(ch), SpTotalIters(c, r);
    ValidNumbered(c, x);
    NumberedHeight(ch);
    assert FirstOfSlot(x) == f;
    OverflowSlotStart(c, x);
    SlotShared(c, x);
    SignagePointInSlot(c, x);
    NextBlockIters(c, x);
    StopSkipsToFirst(c, ch, 2);
    InfusedBeforeSlot(c, ch, t);
    var b := InfusedBefore(f.prev, t);
    InfusedBeforeIsPrefix(f.prev, t);
    StopExists(c, ch, 2);
    ValidNumbered(c, f);
    if b.Snoc? { StopAtSlotBefore(c, f, b); }
  }

  lemma {:induction false} StopAtSlotBefore(c: Consensus, f: Chain, b: Chain)
    requires ValidConstants(c) && ValidChain(c, f) && Numbered(f) && f.Snoc? && Overflow(c, f.top)
             && Finished(f.top) > 0
    requires b.Snoc? && IsPrefix(b, f.prev)
    ensures var stop := StopAfter(c, f, 2);
            stop.Snoc? && (Height(b) >= Height(stop) <==>
              SlotStart(c, b.top) == SlotStart(c, f.top) - f.top.subSlotIters)
  {
    StopExists(c, f, 2);
    if Finished(f.top) >= 2 {
      assert StopAfter(c, f, 2) == f;
      PrefixIsUpTo(b, f.prev);
      AncestorsEarlier(c, b, f.prev);
      InfusedInSlot(c, f.prev);
      EmptySlotBetween(c, f);
    } else {
      OneSlotBetween(c, f);
      assert Contributes(c, f.top) == 1 && StopAfter(c, f, 2) == StopAfter(c, f.prev, 1);
      StopSkipsToFirst(c, f.prev, 1);
      SlotBounded(c, f.prev);
      assert Contributes(c, FirstOfSlot(f.prev).top) >= 1;
      SameSlotByHeight(c, f.prev, b);
    }
  }

  lemma {:induction false} OneSlotBetween(c: Consensus, f: Chain)
    requires ValidConstants(c) && ValidChain(c, f) && f.Snoc? && f.prev.Snoc? && Overflow(c, f.top)
             && Finished(f.top) == 1
    ensures SlotStart(c, f.top) - f.top.subSlotIters == SlotStart(c, f.prev.top)
  {
    assert OverflowOk(c, f.prev, f.top) && ItersOk(c, f.prev, f.top);
    ItersKept(c, f);
  }

  /** A block of a chain lies in the current sub-slot exactly when it is not below its first block. */
  lemma {:induction false} SameSlotByHeight(c: Consensus, ch: Chain, b: Chain)
    requires ValidConstants(c) && ValidChain(c, ch) && ch.Snoc? && b.Snoc? && IsPrefix(b, ch)
    ensures Height(b) >= Height(FirstOfSlot(ch)) <==> SlotStart(c, b.top) == SlotStart(c, ch.top)
  {
    var g := FirstOfSlot(ch);
    ValidNumbered(c, ch);
    SlotBounded(c, ch);
    SlotShared(c, ch);
    AncestorsEarlier(c, b, ch);
    PrefixIsUpTo(b, ch);
    if Height(b) >= Height(g) {
      PrefixOrder(g, b, ch);
      PrefixValid(c, b, ch);
      AncestorsEarlier(c, g, b);
    } else {
      PrefixOrder(b, g, ch);
      EarlierSlotsStartEarlier(c, g, b);
    }
  }

  // ---------------------------------------------------------------- the program

  function FromBlock(cc: Hash, b: BlockRecord, spTotalIters: int): VdfStart {
    VdfStart(cc, b.block.rewardChallenge, Some(b.block.ccOutput), spTotalIters - b.block.totalIters)
  }

  function StartByWalk(c: Consensus, ch: Chain, spTotalIters: int, spIters: int): Result<VdfStart> {
    var w := WalkInSlot(ch, spTotalIters);
    if w.Empty? then Err(MissingBlock)
    else if w.top.block.totalIters < spTotalIters then Ok(FromBlock(CurrentHashes(c, w).cc, w.top, spTotalIters))
    else if w.top.FirstInSubSlot() then Ok(VdfStart(CurrentHashes(c, w).cc, CurrentHashes(c, w).rc, None, spIters))
    else Err(AssertionFailed)
  }

  /** Cases 4 and 6: the signage point lies in the sub-slot of the previous block. */
  method StartInSlotOfPrevious(c: Consensus, window: Blocks, prev: BlockRecord, spTotalIters: int, spIters: int,
                               ghost ch: Chain)
    returns (r: Result<VdfStart>)
    ensures InView(window, ch, prev, FirstOfSlot(ch)) ==> r == StartByWalk(c, ch, spTotalIters, spIters)
  {
    ghost var safe, rest := InView(window, ch, prev, FirstOfSlot(ch)), ch;
    var curr := prev;
    while !curr.FirstInSubSlot() && curr.block.totalIters > spTotalIters
      invariant safe ==> InView(window, rest, curr, FirstOfSlot(ch)) && FirstOfSlot(rest) == FirstOfSlot(ch)
      invariant safe ==> WalkInSlot(rest, spTotalIters) == WalkInSlot(ch, spTotalIters)
      decreases curr.block.height
    {
      if safe {
        FirstOfSlotIsFirst(ch);
        SeesBelow(window, rest, FirstOfSlot(ch));
      }
      var p := ParentRecord(window, curr, rest, FirstOfSlot(ch));
      if p.Err? { return Err(p.error); }
      curr := p.value;
      if safe { rest := rest.prev; }
    }
    var first := WalkToSlotStart(window, curr, rest);
    if first.Err? { return Err(first.error); }
    var hashes := FinishedSlots(c, first.value.0);
    var cc := hashes[|hashes| - 1].cc;
    if curr.block.totalIters < spTotalIters { return Ok(FromBlock(cc, curr, spTotalIters)); }
    if !curr.FirstInSubSlot() { return Err(AssertionFailed); }
    var own := FinishedSlots(c, curr);
    r := Ok(VdfStart(cc, own[|own| - 1].rc, None, spIters));
  }

  /** What the walk over two sub-slots has gathered when it stands on the top of `at`. */
  ghost predicate Gathered(c: Consensus, ch: Chain, t: int, at: Chain, found: seq<SlotHashes>,
                           before: Option<BlockRecord>) {
    && at.Snoc? && Numbered(at)
    && RecordedHashes(c, ch) == RecordedHashes(c, at.prev) + found
    && StopAfter(c, ch, 2) == StopAfter(c, at, 2 - |found| + Contributes(c, at.top))
    && var b := InfusedBefore(ch, t);
    && if before.None? then b == InfusedBefore(at, t) else b.Snoc? && b.top == before.value && Height(b) > Height(at)
  }

  function SlotsOf(c: Consensus, r: BlockRecord): seq<SlotHashes> {
    if r.FirstInSubSlot() then FinishedSlots(c, r) else []
  }

  lemma {:induction false} GatherStep(c: Consensus, ch: Chain, t: int, at: Chain, found: seq<SlotHashes>,
                                      before: Option<BlockRecord>)
    requires Gathered(c, ch, t, at, found, before) && at.prev.Snoc? && |found| < 2
    ensures Gathered(c, ch, t, at.prev, SlotsOf(c, at.prev.top) + found,
                     if before.None? && at.top.block.totalIters < t then Some(at.top) else before)
  {
    var more := SlotsOf(c, at.prev.top) + found;
    assert RecordedHashes(c, at.prev) + found == RecordedHashes(c, at.prev.prev) + more;
  }

  lemma {:induction false} GatherEnd(c: Consensus, ch: Chain, t: int, at: Chain, found: seq<SlotHashes>,
                                     before: Option<BlockRecord>)
    requires Gathered(c, ch, t, at, found, before) && (|found| >= 2 || at.prev.Empty?)
    ensures at == StopAfter(c, ch, 2)
    ensures var b, last := InfusedBefore(ch, t), if before.None? && at.top.block.totalIters < t then Some(at.top)
        else before;
            (last.Some? <==> b.Snoc? && Height(b) >= Height(at)) && (last.Some? ==> b.top == last.value)
  {
    if before.None? && at.top.block.totalIters >= t { InfusedBelow(at, t); }
  }

  lemma {:induction false} StopIsPrefix(c: Consensus, ch: Chain, k: int)
    ensures IsPrefix(StopAfter(c, ch, k), ch)
  {
    if ch.Snoc? { StopIsPrefix(c, ch.prev, k - Contributes(c, ch.top)); }
  }

  /** While two sub-slots have not been found, the walk has not come to its stop. */
  lemma {:induction false} NotYetThere(c: Consensus, ch: Chain, t: int, at: Chain, found: seq<SlotHashes>,
                                       before: Option<BlockRecord>)
    requires Gathered(c, ch, t, at, found, before) && at.prev.Snoc? && |found| < 2
    ensures at != StopAfter(c, ch, 2)
  {
    StopIsPrefix(c, at.prev, 2 - |found|);
    PrefixIsUpTo(StopAfter(c, ch, 2), at.prev);
  }

  /** What was collected: the sub-slots down to the stop, and the newest block infused before the signage point. */
  ghost predicate Collected(c: Consensus, ch: Chain, t: int, found: seq<SlotHashes>, before: Option<BlockRecord>) {
    var stop, b := StopAfter(c, ch, 2), InfusedBefore(ch, t);
    && stop.Snoc? && RecordedHashes(c, ch) == RecordedHashes(c, stop.prev) + found && (|found| >= 2 || stop.prev.Empty?)
    && (before.Some? <==> b.Snoc? && Height(b) >= Height(stop)) && (before.Some? ==> b.top == before.value)
  }

  /** Collects finished sub-slots until there are two, and on the way the newest block infused
      before the signage point. It looks no farther back than to the second sub-slot. */
  method CollectTwoSlots(c: Consensus, window: Blocks, prev: BlockRecord, spTotalIters: int, ghost ch: Chain)
    returns (r: Result<(seq<SlotHashes>, Option<BlockRecord>)>)
    ensures InView(window, ch, prev, StopAfter(c, ch, 2)) ==>
        r.Ok? && Collected(c, ch, spTotalIters, r.value.0, r.value.1)
  {
    ghost var safe, at := InView(window, ch, prev, StopAfter(c, ch, 2)), ch;
    var curr := prev;
    var found, before: Option<BlockRecord> := SlotsOf(c, curr), None;
    while |found| < 2 && curr.block.height > 0
      invariant safe ==>
          InView(window, at, curr, StopAfter(c, ch, 2)) && Gathered(c, ch, spTotalIters, at, found, before)
      decreases curr.block.height
    {
      if safe {
        NumberedHeight(at.prev);
        NotYetThere(c, ch, spTotalIters, at, found, before);
        GatherStep(c, ch, spTotalIters, at, found, before);
        SeesBelow(window, at, StopAfter(c, ch, 2));
      }
      if before.None? && curr.block.totalIters < spTotalIters { before := Some(curr); }
      var p := ParentRecord(window, curr, at, StopAfter(c, ch, 2));
      if p.Err? { return Err(p.error); }
      curr := p.value;
      if safe { at := at.prev; }
      found := SlotsOf(c, curr) + found;
    }
    if safe {
      NumberedHeight(at.prev);
      GatherEnd(c, ch, spTotalIters, at, found, before);
    }
    if before.None? && curr.block.totalIters < spTotalIters { before := Some(curr); }
    r := Ok((found, before));
  }

  /** Case 5: the signage point lies in the sub-slot before the one of the previous block. */
  method StartInSlotBefore(c: Consensus, window: Blocks, prev: BlockRecord, spTotalIters: int, spIters: int,
                           ghost ch: Chain)
    returns (r: Result<VdfStart>)
    ensures InView(window, ch, prev, StopAfter(c, ch, 2)) ==> r == StartTwoBack(c, ch, spTotalIters, spIters)
  {
    var two := CollectTwoSlots(c, window, prev, spTotalIters, ch);
    if two.Err? { return Err(two.error); }
    var (found, before) := two.value;
    if |found| < 2 { return Err(AssertionFailed); }
    if InView(window, ch, prev, StopAfter(c, ch, 2)) {
      FromTheEnd(RecordedHashes(c, StopAfter(c, ch, 2).prev), found, 2);
    }
    var h := found[|found| - 2];
    r := Ok(if before.Some? then FromBlock(h.cc, before.value, spTotalIters) else VdfStart(h.cc, h.rc, None, spIters));
  }

  /** A set of records that reaches two challenges back holds all that this walk looks at. */
  lemma {:induction false} ReachesStop(c: Consensus, window: Blocks, ch: Chain, k: int)
    requires Reaches(c, window, ch, k) && k >= 1 && ch.Snoc?
    ensures StopAfter(c, ch, k).Snoc? && Sees(window, ch, StopAfter(c, ch, k))
  {
    if ch.prev.Snoc? && Contributes(c, ch.top) < k { ReachesStop(c, window, ch.prev, k - Contributes(c, ch.top)); }
  }

  function StartTwoBack(c: Consensus, ch: Chain, spTotalIters: int, spIters: int): Result<VdfStart> {
    var found, b, stop := RecordedHashes(c, ch), InfusedBefore(ch, spTotalIters), StopAfter(c, ch, 2);
    if |found| < 2 then Err(AssertionFailed)
    else
      var h := found[|found| - 2];
      Ok(if b.Snoc? && Height(b) >= Height(stop) then FromBlock(h.cc, b.top, spTotalIters)
         else VdfStart(h.cc, h.rc, None, spIters))
  }

  lemma {:induction false} InfusedBelow(ch: Chain, t: int)
    requires Numbered(ch) && ch.Snoc? && ch.top.block.totalIters >= t
    ensures InfusedBefore(ch, t).Snoc? ==> Height(InfusedBefore(ch, t)) < Height(ch)
  {
    InfusedBeforeIsPrefix(ch.prev, t);
    PrefixIsUpTo(InfusedBefore(ch, t), ch.prev);
  }

  // ---------------------------------------------------------------- the six cases agree

  /** No block of the chain lies in a sub-slot that starts after the chain's last sub-slot. */
  lemma {:induction false} NothingInfused(c: Consensus, ch: Chain, start: int, t: int)
    requires ValidConstants(c) && ValidChain(c, ch) && (ch.Snoc? ==> SlotStart(c, ch.top) < start)
    ensures var b := InfusedBefore(ch, t); b.Snoc? ==> SlotStart(c, b.top) != start
  {
    var b := InfusedBefore(ch, t);
    InfusedBeforeIsPrefix(ch, t);
    if b.Snoc? { AncestorsEarlier(c, b, ch); }
  }

  /** The hashes of the k-th newest sub-slot. */
  lemma {:induction false} SlotFromTheEnd(c: Consensus, ch: Chain, k: nat)
    requires 1 <= k <= |AllSlots(c, ch)|
    ensures var all, hs := AllSlots(c, ch), AllSlotHashes(c, ch);
            |hs| == |all| && hs[|hs| - k] == SlotHashes(all[|all| - k].ccHash, all[|all| - k].rcHash)
  {
    SlotsCarryHashes(c, ch, |AllSlots(c, ch)| - k);
  }

  /** Cases 1 and 2: the signage point's sub-slot is empty so far. */
  lemma {:induction false} EmptySlotStart(c: Consensus, ch: Chain, r: BlockRecord)
    requires ValidConstants(c) && ValidChain(c, Snoc(ch, r))
    requires Finished(r) >= SlotsBack(Overflow(c, r), false)
    ensures var s, f := SignagePointSlot(c, ch, r),
        r.block.finishedSubSlots[Finished(r) - SlotsBack(Overflow(c, r), false)];
            s.Some? && SignagePointStart(c, ch, r, s.value) == VdfStart(f.ccHash, f.rcHash, None, Sp(c, r))
  {
    var x, k := Snoc(ch, r), SlotsBack(Overflow(c, r), false);
    SignagePointSlotStart(c, ch, r);
    SlotFromTheEnd(c, x, k);
    FromTheEnd(AllSlotHashes(c, ch), HashesOf(r.block.finishedSubSlots), k);
    if ch.Snoc? {
      if k == 2 { EmptySlotBetween(c, x); } else { NextBlockIters(c, x); }
      InfusedInSlot(c, ch);
    }
    NothingInfused(c, ch, SpSlotStart(c, r), SpTotalIters(c, r));
  }

  /** Case 3: the signage point of genesis lies in the very first sub-slot. */
  lemma {:induction false} FirstSlotStart(c: Consensus, r: BlockRecord)
    requires ValidConstants(c) && ValidChain(c, Snoc(Empty, r))
    requires Finished(r) < SlotsBack(Overflow(c, r), false)
    ensures var s := SignagePointSlot(c, Empty, r);
            s.Some? && SignagePointStart(c, Empty, r, s.value) == VdfStart(c.genesisChallenge, c.genesisChallenge,
              None, Sp(c, r))
  {
    var x, k := Snoc(Empty, r), SlotsBack(Overflow(c, r), false);
    SignagePointSlotStart(c, Empty, r);
    SlotFromTheEnd(c, x, k);
    if Overflow(c, r) { OverflowSlotStart(c, x); }
  }

  /** The sub-slot of the previous block, when the signage point lies in it. */
  lemma {:induction false} PreviousSlot(c: Consensus, ch: Chain, r: BlockRecord)
    requires ValidConstants(c) && ValidChain(c, Snoc(ch, r)) && ch.Snoc?
    requires Finished(r) == SlotsBack(Overflow(c, r), false) - 1
    ensures var s, h := SignagePointSlot(c, ch, r), CurrentHashes(c, ch);
            s == Some(Slot(SlotStart(c, ch.top), h.cc, h.rc)) && SpSlotStart(c, r) == SlotStart(c, ch.top)
  {
    var x, k := Snoc(ch, r), SlotsBack(Overflow(c, r), false);
    SignagePointSlotStart(c, ch, r);
    ValidNumbered(c, x);
    SlotFromTheEnd(c, x, k);
    NewestIsCurrent(c, ch);
    var own := HashesOf(r.block.finishedSubSlots);
    LastBefore(AllSlotHashes(c, ch), own, k);
    PreviousSlotAt(c, ch, r);
  }

  lemma {:induction false} LastBefore(a: seq<SlotHashes>, own: seq<SlotHashes>, k: nat)
    requires |a| >= 1 && |own| == k - 1
    ensures |a + own| >= k && (a + own)[|a + own| - k] == a[|a| - 1]
  {}

  /** The signage point's sub-slot starts where that of the previous block does. */
  lemma {:induction false} PreviousSlotAt(c: Consensus, ch: Chain, r: BlockRecord)
    requires ValidConstants(c) && ValidChain(c, Snoc(ch, r)) && ch.Snoc?
    requires Finished(r) == SlotsBack(Overflow(c, r), false) - 1
    ensures SpSlotStart(c, r) == SlotStart(c, ch.top)
  {
    var x := Snoc(ch, r);
    if Finished(r) == 1 { OneSlotBetween(c, x); } else { NextBlockIters(c, x); }
  }

  /** Cases 4 and 6: the walk inside that sub-slot. */
  lemma {:induction false} PreviousSlotStart(c: Consensus, ch: Chain, r: BlockRecord)
    requires ValidConstants(c) && ValidChain(c, Snoc(ch, r)) && ch.Snoc?
    requires Finished(r) == SlotsBack(Overflow(c, r), false) - 1
    ensures var s := SignagePointSlot(c, ch, r);
            s.Some? && StartByWalk(c, ch, SpTotalIters(c, r), Sp(c, r)) == Ok(SignagePointStart(c, ch, r, s.value))
  {
    PreviousSlot(c, ch, r);
    SameIters(c, Snoc(ch, r));
    InfusedInSlot(c, Snoc(ch, r));
    WalkFindsStart(c, ch, r.block.signagePointIndex);
    assert SpTotalIters(c, r) == SlotStart(c, ch.top) + SpIters(c, ch.top.subSlotIters, r.block.signagePointIndex);
  }

  /** A signage point in the sub-slot of the previous block is measured in that block's units. */
  lemma {:induction false} SameIters(c: Consensus, x: Chain)
    requires ValidConstants(c) && ValidChain(c, x) && x.Snoc? && x.prev.Snoc?
    requires Finished(x.top) == SlotsBack(Overflow(c, x.top), false) - 1
    ensures x.top.subSlotIters == x.prev.top.subSlotIters
  {
    assert OverflowOk(c, x.prev, x.top);
    ItersKept(c, x);
  }

  /** Case 5: the signage point lies in the sub-slot before. */
  lemma {:induction false} SlotBeforeStart(c: Consensus, ch: Chain, r: BlockRecord)
    requires ValidConstants(c) && ValidChain(c, Snoc(ch, r)) && ch.Snoc?
    requires Overflow(c, r) && Finished(r) == 0
    ensures var s, result := SignagePointSlot(c, ch, r), StartTwoBack(c, ch, SpTotalIters(c, r), Sp(c, r));
            && s.Some?
            && (result.Err? <==> InGenesisSlot(ch, r) && |Root(ch).block.finishedSubSlots| == 1)
            && (result.Ok? ==> result.value == SignagePointStart(c, ch, r, s.value))
  {
    var x := Snoc(ch, r);
    ValidNumbered(c, x);
    SignagePointSlotStart(c, ch, r);
    SlotFromTheEnd(c, x, 2);
    GenesisOverflow(c, ch, r);
    OldSlotChallenge(c, ch, 2);
    StopSeesSignagePointSlot(c, ch, r);
  }

  /** The starting point of the VDF to the signage point of r, from any set of records that suffices for the header.
      It is the newest block infused before the signage point in the signage point's own sub-slot, or the start of that
      sub-slot; and no assert on the way fails. Only for an overflow block in the sub-slot of a genesis before which one
      sub-slot ended are there too few sub-slots on record, and no such block has a challenge. */
  method GetSignagePointVdfInfo(c: Consensus, finished: seq<SubSlot>, overflow: bool, prev: Option<BlockRecord>,
                                window: Blocks, spTotalIters: int, spIters: int, ghost r: BlockRecord, ghost ch: Chain)
    returns (result: Result<VdfStart>)
    requires ValidConstants(c)
    requires finished == r.block.finishedSubSlots && overflow == Overflow(c, r)
    requires spTotalIters == SpTotalIters(c, r) && spIters == Sp(c, r)
    ensures var slot := SignagePointSlot(c, ch, r);
            ValidChain(c, Snoc(ch, r)) && prev == Top(ch) && Suffices(c, window, ch, r.block) ==>
              && slot.Some? && slot.value.start == SpSlotStart(c, r)
              && (result.Err? <==>
                overflow && ch.Snoc? && InGenesisSlot(ch, r) && |Root(ch).block.finishedSubSlots| == 1)
              && (result.Ok? ==> result.value == SignagePointStart(c, ch, r, slot.value))
              && (ChallengeOk(c, ch, r.block) ==> result.Ok?)
  {
    ghost var valid := ValidChain(c, Snoc(ch, r)) && prev == Top(ch) && Suffices(c, window, ch, r.block);
    if valid {
      SignagePointSlotStart(c, ch, r);
      ChallengeIsSignagePointSlot(c, ch, r);
      if ch.Snoc? { WalksInView(c, window, ch, r.block); }
    }
    var n := |finished|;
    if n > 0 && !overflow {
      if valid { EmptySlotStart(c, ch, r); }
      result := Ok(VdfStart(finished[n - 1].ccHash, finished[n - 1].rcHash, None, spIters));
    } else if n > 1 && overflow {
      if valid { EmptySlotStart(c, ch, r); }
      result := Ok(VdfStart(finished[n - 2].ccHash, finished[n - 2].rcHash, None, spIters));
    } else if prev.None? {
      if valid { FirstSlotStart(c, r); }
      result := Ok(VdfStart(c.genesisChallenge, c.genesisChallenge, None, spIters));
    } else if n == 0 && overflow {
      if valid { SlotBeforeStart(c, ch, r); }
      result := StartInSlotBefore(c, window, prev.value, spTotalIters, spIters, ch);
    } else {
      if valid { PreviousSlotStart(c, ch, r); }
      result := StartInSlotOfPrevious(c, window, prev.value, spTotalIters, spIters, ch);
    }
  }

  lemma {:induction false} WalksInView(c: Consensus, window: Blocks, ch: Chain, block: FullBlock)
    requires c.subEpochBlocks > 0 && ch.Snoc? && Suffices(c, window, ch, block)
    ensures InView(window, ch, ch.top, FirstOfSlot(ch)) && InView(window, ch, ch.top, StopAfter(c, ch, 2))
  {
    SeesPrefix(window, ch, FirstOfSlot(ch));
    ReachesStop(c, window, ch, 2);
  }
}
