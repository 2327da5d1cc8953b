/** The three stores of a full node: the coin table, the block table, and the main chain by height. */
module NodeStores {
  import opened Types
  import opened Chains
  import opened BlockTree
  import opened CoinSet

  // ---------------------------------------------------------------- coins

  /** When a block can be applied to a coin table: no coin comes back, and all spent coins are there unspent. */
  ghost predicate Applicable(table: Coins, height: nat, rewards: seq<Coin>, additions: seq<Coin>, removals: seq<Coin>) {
    && (if height == 0 then rewards == [] else |rewards| >= 2)
    && Distinct(additions + rewards) && Members(additions + rewards) !! table.Keys
    && (removals != [] ==> height > 0)
    && Distinct(removals)
    && forall x | x in removals :: x in additions + rewards || (x in table && table[x].spent == 0)
  }

  /** The rows that differ from one table to an earlier one: as they are in it, or, when they are
      not there, marked as not confirmed. */
  ghost predicate Undone(before: Coins, after: Coins, changes: Coins) {
    && (forall x :: x in changes <==> x in before && !(x in after && after[x] == before[x]))
    && forall x | x in changes ::
      changes[x] == if x in after then after[x] else before[x].(confirmed := 0, timestamp := 0)
  }

  /** The unspent rows among some names. */
  function Unspent(table: Coins, names: seq<Coin>): set<Coin> {
    set x | x in names && x in table && table[x].spent == 0
  }

  lemma {:induction false} FreshSnoc(table: Coins, xs: seq<Coin>, x: Coin, row: CoinRecord)
    ensures table + Fresh(xs + [x], row) == (table + Fresh(xs, row))[x := row]
    ensures (table + Fresh(xs, row)).Keys == table.Keys + Members(xs)
  {}

  lemma {:induction false} NotYet(coins: seq<Coin>, table: Coins, i: nat)
    requires Distinct(coins) && Members(coins) !! table.Keys && i < |coins|
    ensures coins[i] !in table && coins[i] !in coins[..i]
  {
    assert coins[i] in Members(coins);
  }

  /** Inserting one more row: it collides only when the whole insertion must fail. */
  lemma {:induction false} InsertStep(table: Coins, coins: seq<Coin>, i: nat, row: CoinRecord)
    requires i < |coins| && Distinct(coins[..i]) && Members(coins[..i]) !! table.Keys
    ensures var rows := table + Fresh(coins[..i], row);
            if coins[i] in rows then !(Distinct(coins) && Members(coins) !! table.Keys)
            else
              && Distinct(coins[..i + 1]) && Members(coins[..i + 1]) !! table.Keys
              && table + Fresh(coins[..i + 1], row) == rows[coins[i] := row]
  {
    assert coins[..i + 1] == coins[..i] + [coins[i]];
    DistinctSnoc(coins[..i], coins[i]);
    FreshSnoc(table, coins[..i], coins[i], row);
    if Distinct(coins) && Members(coins) !! table.Keys { NotYet(coins, table, i); }
  }

  /** Marking one more chunk of names. */
  lemma {:induction false} MarkChunk(table: Coins, done: seq<Coin>, chunk: seq<Coin>, height: nat)
    requires height > 0
    ensures var marked := MarkSpent(table, done, height);
            && MarkSpent(marked, chunk, height) == MarkSpent(table, done + chunk, height)
            && |Unspent(table, done + chunk)| == |Unspent(table, done)| + |Unspent(marked, chunk)|
  {
    var marked := MarkSpent(table, done, height);
    HitsAdd(table, marked, done, chunk, height);
    var twice, once := MarkSpent(marked, chunk, height), MarkSpent(table, done + chunk, height);
    forall x | x in twice ensures twice[x] == once[x] { assert x in done + chunk <==> x in done || x in chunk; }
  }

  lemma {:induction false} HitsAdd(table: Coins, marked: Coins, done: seq<Coin>, chunk: seq<Coin>, height: nat)
    requires height > 0 && marked.Keys == table.Keys
    requires forall x | x in marked ::
        marked[x] == if x in done && table[x].spent == 0 then table[x].(spent := height) else table[x]
    ensures |Unspent(table, done + chunk)| == |Unspent(table, done)| + |Unspent(marked, chunk)|
  {
    assert Unspent(table, done) !! Unspent(marked, chunk);
    assert Unspent(table, done + chunk) == Unspent(table, done) + Unspent(marked, chunk);
  }

  /** As many rows as names are unspent exactly when the names are distinct and all unspent. */
  lemma {:induction false} AllUnspent(table: Coins, names: seq<Coin>)
    ensures |Unspent(table, names)| == |names| <==> Distinct(names) && forall x | x in names ::
        x in table && table[x].spent == 0
  {
    CardinalityIsLength(names);
    var hit, all := Unspent(table, names), Members(names);
    assert hit <= all;
    Subset(hit, all);
    assert hit == all <==> forall x | x in names :: x in hit;
  }

  lemma {:induction false} Subset(a: set<Coin>, b: set<Coin>)
    requires a <= b
    ensures |a| <= |b| && (|a| == |b| <==> a == b)
  {
    assert b == a + (b - a) && |b| == |a| + |b - a|;
  }

  class CoinStore {
    var records: Coins
    const maxVariables: nat

    constructor (maxVariables: nat)
      ensures records == map[]
    {
      this.maxVariables := maxVariables;
      records := map[];
    }

    /** Inserts one row per coin; a coin that already has a row makes it fail. */
    method InsertRows(coins: seq<Coin>, row: CoinRecord) returns (ok: bool)
      modifies this
      ensures ok <==> Distinct(coins) && Members(coins) !! old(records).Keys
      ensures ok ==> records == old(records) + Fresh(coins, row)
    {
      ghost var table := records;
      for i := 0 to |coins|
        invariant records == table + Fresh(coins[..i], row)
        invariant Distinct(coins[..i]) && Members(coins[..i]) !! table.Keys
      {
        InsertStep(table, coins, i, row);
        if coins[i] in records { return false; }
        records := records[coins[i] := row];
      }
      assert coins[..|coins|] == coins;
      ok := true;
    }

    /** Marks coins as spent, chunk by chunk; it fails unless every name hits one unspent row. */
    method SetSpent(names: seq<Coin>, index: nat) returns (ok: bool)
      modifies this
      ensures ok <==> (names != [] ==> index > 0) && Distinct(names)
                      && forall x | x in names :: x in old(records) && old(records)[x].spent == 0
      ensures ok ==> records == MarkSpent(old(records), names, index)
    {
      if |names| != 0 && index == 0 { return false; }
      if |names| == 0 { return true; }
      ghost var table := records;
      var size := if maxVariables == 0 then 1 else maxVariables;
      var rowsUpdated, i := 0, 0;
      while i < |names|
        invariant 0 <= i <= |names|
        invariant records == MarkSpent(table, names[..i], index) && rowsUpdated == |Unspent(table, names[..i])|
      {
        var end := if i + size <= |names| then i + size else |names|;
        var chunk := names[i..end];
        assert names[..end] == names[..i] + chunk;
        MarkChunk(table, names[..i], chunk, index);
        rowsUpdated := rowsUpdated + |Unspent(records, chunk)|;
        records := MarkSpent(records, chunk, index);
        i := end;
      }
      assert names[..|names|] == names;
      AllUnspent(table, names);
      ok := rowsUpdated == |names|;
    }

    /** Applies a transaction block. A failing statement undoes the whole database transaction. */
    method NewBlock(height: nat, timestamp: nat, rewards: seq<Coin>, additions: seq<Coin>, removals: seq<Coin>)
      returns (ok: bool)
      modifies this
      ensures ok <==> Applicable(old(records), height, rewards, additions, removals)
      ensures records == if ok then ApplyBlock(old(records), height, timestamp, rewards, additions, removals)
          else old(records)
    {
      if height == 0 && |rewards| != 0 { return false; }
      if height > 0 && |rewards| < 2 { return false; }
      var before := records;
      var created, reward := CoinRecord(height, 0, false, timestamp), CoinRecord(height, 0, true, timestamp);
      DistinctConcat(additions, rewards);
      ok := InsertRows(additions, created);
      if ok {
        ok := InsertRows(rewards, reward);
        if ok { ok := SetSpent(removals, height); }
      }
      if !ok { records := before; }
    }

    /** Takes back everything above a height and reports the rows that this changes. */
    method RollbackToBlock(height: int) returns (changes: map<Coin, CoinRecord>)
      modifies this
      ensures records == Rollback(old(records), height)
      ensures Undone(old(records), records, changes)
    {
      changes := DeleteAbove(height);
      changes := ClearSpentAbove(height, changes);
    }

    /** Deletes the rows confirmed above a height. */
    method DeleteAbove(height: int) returns (changes: map<Coin, CoinRecord>)
      modifies this
      ensures forall x :: x in records <==> x in old(records) && old(records)[x].confirmed <= height
      ensures forall x | x in records :: records[x] == old(records)[x]
      ensures forall x :: x in changes <==> x in old(records) && old(records)[x].confirmed > height
      ensures forall x | x in changes :: changes[x] == old(records)[x].(confirmed := 0, timestamp := 0)
    {
      var reverted := set x | x in records && records[x].confirmed > height;
      changes := map[];
      var rows := reverted;
      while rows != {}
        invariant records == old(records) && rows <= reverted && changes.Keys == reverted - rows
        invariant forall x | x in changes :: changes[x] == records[x].(confirmed := 0, timestamp := 0)
      {
        var x :| x in rows;
        changes := changes[x := records[x].(confirmed := 0, timestamp := 0)];
        rows := rows - {x};
      }
      records := records - reverted;
    }

    /** Marks the rows spent above a height as unspent again. */
    method ClearSpentAbove(height: int, known: map<Coin, CoinRecord>) returns (changes: map<Coin, CoinRecord>)
      modifies this
      ensures forall x :: x in records <==> x in old(records)
      ensures forall x | x in records ::
        records[x] == if old(records)[x].spent > height then old(records)[x].(spent := 0) else old(records)[x]
      ensures forall x :: x in changes <==> x in known || (x in records && old(records)[x].spent > height)
      ensures forall x | x in changes :: changes[x] == if x in known then known[x] else records[x]
    {
      var later := set x | x in records && records[x].spent > height;
      changes := known;
      var rows := later;
      while rows != {}
        invariant rows <= later && forall x :: x in records <==> x in old(records)
        invariant forall x | x in records ::
            records[x] == if x in later && x !in rows then old(records)[x].(spent := 0) else old(records)[x]
        invariant forall x :: x in changes <==> x in known || (x in later && x !in rows)
        invariant forall x | x in changes :: changes[x] == if x in known then known[x] else old(records)[x].(spent := 0)
      {
        var x :| x in rows;
        if x !in changes { changes := changes[x := records[x].(spent := 0)]; }
        records := records[x := records[x].(spent := 0)];
        rows := rows - {x};
      }
    }
  }

  // ---------------------------------------------------------------- the main chain by height

  /** The sub-epoch summaries of a chain, by the height of the block that includes them. */
  function PathSummaries(ch: Chain): map<nat, Hash> {
    if ch.Empty? then map[]
    else
      var below := PathSummaries(ch.prev);
      if ch.top.SummaryIncluded() then below[ch.top.block.height := ch.top.block.finishedSubSlots[0].summary.value]
          else below
  }

  /** It holds the summary of every block that includes one, at that block's height. */
  lemma {:induction false} SummariesExact(ch: Chain, h: nat)
    requires Numbered(ch)
    ensures h in PathSummaries(ch) <==> h <= Height(ch) && At(ch, h).SummaryIncluded()
    ensures h in PathSummaries(ch) && h <= Height(ch) && At(ch, h).SummaryIncluded() ==>
              Some(PathSummaries(ch)[h]) == At(ch, h).block.finishedSubSlots[0].summary
  {
    if ch.Snoc? {
      NumberedHeight(ch.prev);
      SummariesExact(ch.prev, h);
      if h <= Height(ch.prev) { assert At(ch, h) == At(ch.prev, h); }
    }
  }

  lemma {:induction false} SummariesUpTo(ch: Chain, h: int)
    requires Numbered(ch)
    ensures PathSummaries(UpTo(ch, h)) == PathSummaries(ch) - (set i | i in PathSummaries(ch) && i > h)
    ensures forall i | i in PathSummaries(ch) :: i <= Height(ch)
  {
    if ch.Snoc? { SummariesUpTo(ch.prev, h); }
  }

  class BlockHeightMap {
    var hashes: seq<Hash>
    var summaries: map<nat, Hash>

    constructor ()
      ensures hashes == [] && summaries == map[]
    {
      hashes, summaries := [], map[];
    }

    /** Sets the hash of a height, at most one above the last, and its summary if there is one. */
    method UpdateHeight(height: nat, hash: Hash, summary: Option<Hash>)
      requires height <= |hashes|
      modifies this
      ensures hashes == old(hashes)[..height] + [hash] + (if height < old(|hashes|) then old(hashes)[height + 1..]
          else [])
      ensures summaries == if summary.Some? then old(summaries)[height := summary.value] else old(summaries)
    {
      hashes := hashes[..height] + [hash] + if height < |hashes| then hashes[height + 1..] else [];
      if summary.Some? { summaries := summaries[height := summary.value]; }
    }

    /** Drops everything above a height. */
    method Rollback(fork: int)
      requires fork >= -1
      modifies this
      ensures hashes == if fork + 1 <= old(|hashes|) then old(hashes)[..fork + 1] else old(hashes)
      ensures summaries == old(summaries) - set i | i in old(summaries) && i > fork
    {
      summaries := summaries - set i | i in summaries && i > fork;
      if fork + 1 <= |hashes| { hashes := hashes[..fork + 1]; }
    }
  }

  // ---------------------------------------------------------------- blocks

  class BlockStore {
    var blocks: Blocks
    var flagged: set<Hash>
    var peak: Option<Hash>
    const version2: bool

    constructor (version2: bool)
      ensures blocks == map[] && flagged == {} && peak.None? && this.version2 == version2
    {
      this.version2 := version2;
      blocks, flagged, peak := map[], {}, None;
    }

    /** Adds a row unless there is one under this hash; it is not in the main chain at first. */
    method AddFullBlock(r: BlockRecord)
      modifies this`blocks
      ensures blocks == if r.block.headerHash in old(blocks) then old(blocks) else old(blocks)[r.block.headerHash := r]
    {
      if r.block.headerHash !in blocks { blocks := blocks[r.block.headerHash := r]; }
    }

    /** Takes the rows above a height out of the main chain. Version 1 keeps no flags. */
    method Rollback(height: int)
      modifies this`flagged
      ensures flagged == if version2
          then set h | h in old(flagged) && !(h in blocks && blocks[h].block.height > height) else old(flagged)
    {
      if version2 { flagged := set h | h in flagged && !(h in blocks && blocks[h].block.height > height); }
    }

    method SetInChain(records: seq<BlockRecord>)
      modifies this`flagged
      ensures flagged == if version2 then old(flagged) + set r | r in records && r.block.headerHash in blocks ::
          r.block.headerHash
                         else old(flagged)
    {
      if version2 {
        for i := 0 to |records|
          invariant flagged == old(flagged) + set r | r in records[..i] && r.block.headerHash in blocks ::
              r.block.headerHash
        {
          assert records[..i + 1] == records[..i] + [records[i]];
          if records[i].block.headerHash in blocks { flagged := flagged + {records[i].block.headerHash}; }
        }
        assert records[..|records|] == records;
      }
    }

    method SetPeak(hash: Hash)
      modifies this`peak
      ensures peak == Some(hash)
    {
      peak := Some(hash);
    }
  }
}
