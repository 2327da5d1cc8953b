/**
  What receiving blocks amounts to: a tree of valid blocks and the peak chosen among them.
  Every run of accepted blocks keeps a heaviest block as the peak.
 */
module ForkChoice {
  import opened Types
  import opened Chains
  import opened BlockTree
  import opened HeaderRules
  import opened HeaderValidation
  import opened CoinSet
  import opened BlockChallenge

  /** All accepted blocks, and which of them is the peak. */
  datatype World = World(blocks: Blocks, peak: Option<Hash>)

  const NO_BLOCKS := World(map[], None)

  /** A block whose header is valid on top of a chain, seen as the record that is made of it. */
  ghost predicate HeaderValid(c: Consensus, ch: Chain, block: FullBlock)
    requires ValidConstants(c)
  {
    var p := NextParams(c, ch, block.finishedSubSlots != []);
    p.Some? && StepOk(c, ch, RecordOf(c, Top(ch), block, p.value.subSlotIters)) && ChallengeOk(c, ch, block)
  }

  ghost predicate Weighed(c: Consensus, w: World, h: Hash)
    requires ValidConstants(c) && Closed(w.blocks) && h in w.blocks && w.peak.Some? && w.peak.value in w.blocks
  {
    FullyValid(c, Path(w.blocks, h)) && w.blocks[h].block.weight <= w.blocks[w.peak.value].block.weight
  }

  /** Every block is valid on top of its ancestors and none outweighs the peak. */
  ghost predicate Good(c: Consensus, w: World)
    requires ValidConstants(c)
  {
    && Closed(w.blocks) && RootedAt(w.blocks, c.genesisChallenge)
    && (if w.peak.None? then w.blocks == map[] else w.peak.value in w.blocks)
    && forall h {:trigger Weighed(c, w, h)} | h in w.blocks :: Weighed(c, w, h)
  }

  /** A record that may be added: new, connected, and with a valid header and body. */
  ghost predicate Acceptable(c: Consensus, w: World, r: BlockRecord)
    requires ValidConstants(c)
  {
    && Closed(w.blocks) && Fits(w.blocks, c.genesisChallenge, r)
    && StepOk(c, ParentPath(w.blocks, r.block), r) && ChallengeOk(c, ParentPath(w.blocks, r.block), r.block)
    && BodyOk(c, ParentPath(w.blocks, r.block), r.block)
  }

  /** Whether a record replaces the peak: only a strictly greater weight does. */
  predicate Outweighs(w: World, r: BlockRecord) {
    w.peak.None? || (w.peak.value in w.blocks && r.block.weight > w.blocks[w.peak.value].block.weight)
  }

  function Accept(w: World, r: BlockRecord): World {
    World(w.blocks[r.block.headerHash := r], if Outweighs(w, r) then Some(r.block.headerHash) else w.peak)
  }

  /** The main chain: the path to the peak. */
  ghost function Main(w: World): Chain
    requires Closed(w.blocks) && (w.peak.Some? ==> w.peak.value in w.blocks)
  {
    if w.peak.None? then Empty else Path(w.blocks, w.peak.value)
  }

  lemma {:induction false} AcceptKeeps(c: Consensus, w: World, r: BlockRecord)
    requires ValidConstants(c) && Good(c, w) && Acceptable(c, w, r)
    ensures Good(c, Accept(w, r))
    ensures Path(Accept(w, r).blocks, r.block.headerHash) == Snoc(ParentPath(w.blocks, r.block), r)
    ensures forall h | h in w.blocks :: Path(Accept(w, r).blocks, h) == Path(w.blocks, h)
    ensures FullyValid(c, ParentPath(w.blocks, r.block))
  {
    var w' := Accept(w, r);
    AddBlock(w.blocks, c.genesisChallenge, r);
    if r.block.height > 0 { assert Weighed(c, w, r.block.prevHash); }
    forall h | h in w'.blocks ensures Weighed(c, w', h) {
      if h in w.blocks { assert Weighed(c, w, h); }
    }
  }

  /** A genesis block never outweighs a peak. */
  lemma {:induction false} StartingWeight(c: Consensus, ch: Chain)
    requires ValidConstants(c) && FullyValid(c, ch) && ch.Snoc?
    ensures ch.top.block.weight >= c.difficultyStarting
    ensures ch.prev.Empty? ==> ch.top.block.weight == c.difficultyStarting
  {
    assert ParamsOk(c, ch.prev, ch.top);
    if ch.prev.Snoc? { StartingWeight(c, ch.prev); }
  }

  // ---------------------------------------------------------------- runs

  /** One step: nothing happens, or a record is accepted. */
  ghost predicate Next(c: Consensus, w: World, w': World)
    requires ValidConstants(c)
  {
    w' == w || exists r :: Acceptable(c, w, r) && w' == Accept(w, r)
  }

  /** A run from an empty node. */
  ghost predicate Run(c: Consensus, run: seq<World>)
    requires ValidConstants(c)
  {
    run != [] && run[0] == NO_BLOCKS && forall i | 0 < i < |run| :: Next(c, run[i - 1], run[i])
  }

  /** One step in which at most one of the given blocks is accepted. */
  ghost predicate NextFrom(c: Consensus, w: World, w': World, given: seq<FullBlock>)
    requires ValidConstants(c)
  {
    w' == w || exists r: BlockRecord :: r.block in given && Acceptable(c, w, r) && w' == Accept(w, r)
  }

  /** A way from one world to another on which only given blocks are accepted. */
  ghost predicate Leads(c: Consensus, path: seq<World>, w: World, w': World, given: seq<FullBlock>)
    requires ValidConstants(c)
  {
    && path != [] && path[0] == w && path[|path| - 1] == w'
    && forall i | 0 < i < |path| :: NextFrom(c, path[i - 1], path[i], given)
  }

  lemma {:induction false} LeadsOn(c: Consensus, path: seq<World>, w: World, now: World, w': World,
                                   given: seq<FullBlock>)
    requires ValidConstants(c) && Leads(c, path, w, now, given) && NextFrom(c, now, w', given)
    ensures Leads(c, path + [w'], w, w', given)
  {
    var more := path + [w'];
    forall i | 0 < i < |more| ensures NextFrom(c, more[i - 1], more[i], given) {
      if i < |path| { assert NextFrom(c, path[i - 1], path[i], given); }
    }
  }

  /** With more blocks given. */
  lemma {:induction false} LeadsWider(c: Consensus, path: seq<World>, w: World, w': World, given: seq<FullBlock>,
                                      more: seq<FullBlock>)
    requires ValidConstants(c) && Leads(c, path, w, w', given) && forall b | b in given :: b in more
    ensures Leads(c, path, w, w', more)
  {
    forall i | 0 < i < |path| ensures NextFrom(c, path[i - 1], path[i], more) {
      assert NextFrom(c, path[i - 1], path[i], given);
    }
  }

  /** Every block of a world is one of the given. */
  ghost predicate MadeOf(w: World, given: seq<FullBlock>) {
    forall h | h in w.blocks :: w.blocks[h].block in given
  }

  lemma {:induction false} LeadsMadeOf(c: Consensus, path: seq<World>, w: World, w': World, given: seq<FullBlock>)
    requires ValidConstants(c) && Leads(c, path, w, w', given) && MadeOf(w, given)
    ensures MadeOf(w', given)
    decreases |path|
  {
    if |path| > 1 {
      var before := path[..|path| - 1];
      LeadsMadeOf(c, before, w, before[|before| - 1], given);
      assert NextFrom(c, path[|path| - 2], path[|path| - 1], given);
    }
  }

  /** A run goes on along such a way. */
  lemma {:induction false} RunsOn(c: Consensus, run: seq<World>, path: seq<World>, w': World, given: seq<FullBlock>)
    requires ValidConstants(c) && Run(c, run) && Leads(c, path, run[|run| - 1], w', given)
    ensures Run(c, run + path[1..]) && (run + path[1..])[|run + path[1..]| - 1] == w'
  {
    var more := run + path[1..];
    forall i | 0 < i < |more| ensures Next(c, more[i - 1], more[i]) {
      if i < |run| {
        assert Next(c, run[i - 1], run[i]);
      } else {
        var k := i - |run| + 1;
        assert more[i] == path[k] && more[i - 1] == path[k - 1] && NextFrom(c, path[k - 1], path[k], given);
      }
    }
  }

  function PeakWeight(w: World): int {
    if w.peak.None? || w.peak.value !in w.blocks then -1 else w.blocks[w.peak.value].block.weight
  }

  /** What has been accepted stays. */
  predicate Kept(w: World, w': World) {
    forall h | h in w.blocks :: h in w'.blocks && w'.blocks[h] == w.blocks[h]
  }

  /** The peak only ever changes to a strictly heavier one. */
  predicate PeakRises(w: World, w': World) {
    PeakWeight(w) <= PeakWeight(w') && (w.peak != w'.peak ==> PeakWeight(w) < PeakWeight(w'))
  }

  lemma {:induction false} StepKeeps(c: Consensus, w: World, w': World)
    requires ValidConstants(c) && Good(c, w) && Next(c, w, w')
    ensures Good(c, w') && Kept(w, w') && PeakRises(w, w')
  {
    if w' != w {
      var r :| Acceptable(c, w, r) && w' == Accept(w, r);
      AcceptKeeps(c, w, r);
    }
  }

  /** Every world of every run is good: all its blocks are valid, and none outweighs its peak. */
  lemma {:induction false} RunsAreGood(c: Consensus, run: seq<World>, i: nat)
    requires ValidConstants(c) && Run(c, run) && i < |run|
    ensures Good(c, run[i])
  {
    if i > 0 {
      RunsAreGood(c, run, i - 1);
      StepKeeps(c, run[i - 1], run[i]);
    }
  }

  lemma {:induction false} RunStep(c: Consensus, run: seq<World>, j: nat)
    requires ValidConstants(c) && Run(c, run) && 0 < j < |run|
    ensures Kept(run[j - 1], run[j]) && PeakRises(run[j - 1], run[j])
  {
    RunsAreGood(c, run, j - 1);
    StepKeeps(c, run[j - 1], run[j]);
  }

  lemma {:induction false} GrowthTrans(a: World, b: World, w: World)
    requires Kept(a, b) && PeakRises(a, b) && Kept(b, w) && PeakRises(b, w)
    ensures Kept(a, w) && PeakRises(a, w)
  {
    forall h | h in a.blocks ensures h in w.blocks && w.blocks[h] == a.blocks[h] { assert h in b.blocks; }
  }

  /** Along every run the tree only grows, the peak's weight never falls, and the peak changes only
      to a strictly heavier block. */
  lemma {:induction false} RunsGrow(c: Consensus, run: seq<World>, i: nat, j: nat)
    requires ValidConstants(c) && Run(c, run) && i <= j < |run|
    ensures Kept(run[i], run[j]) && PeakRises(run[i], run[j])
    decreases j
  {
    if i < j {
      RunsGrow(c, run, i, j - 1);
      RunStep(c, run, j);
      GrowthTrans(run[i], run[j - 1], run[j]);
    }
  }

  /** Whatever has been accepted at some point of a run never outweighs a later peak. A block that
      is as heavy as the peak and not the peak has been accepted after it. */
  lemma {:induction false} PeakIsFirstHeaviest(c: Consensus, run: seq<World>, i: nat, j: nat, h: Hash)
    requires ValidConstants(c) && Run(c, run) && i <= j < |run| && h in run[i].blocks
    ensures run[i].blocks[h].block.weight <= PeakWeight(run[j])
    ensures run[i].blocks[h].block.weight == PeakWeight(run[j]) ==> run[i].peak == run[j].peak
  {
    RunsGrow(c, run, i, j);
    RunsAreGood(c, run, i);
    assert Weighed(c, run[i], h);
  }
}
