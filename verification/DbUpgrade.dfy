/**
  Converting a version 1 database: two cursors, both from the highest block down, are merged into
  the path of parents from the peak, and the coin table is cut at the peak's height.
 */
module DbUpgrade {
  import opened Types
  import opened Chains
  import opened CoinSet
  import opened CoinHistory
  import opened DbValidate

  /** A row of the version 1 table of block records. */
  datatype RecordRow = RecordRow(hash: Hash, prev: Hash, height: nat, summary: Option<Hash>, recordHash: Hash,
                                 recordPrev: Hash, recordIters: nat)

  /** A row of the version 1 table of full blocks. */
  datatype BlockRow = BlockRow(hash: Hash, height: nat, compactified: bool, blockHash: Hash, blockPrev: Hash,
                               blockHeight: nat, blockIters: nat)

  /** The version 2 row that a record and its block make. */
  function Joined(r: RecordRow, b: BlockRow): Row {
    Row(r.hash, r.prev, b.height, r.summary, b.compactified, true,
        Blobs(b.blockHash, b.blockPrev, b.blockHeight, b.blockIters, r.recordHash, r.recordPrev, r.recordIters))
  }

  /** A version 2 row says what a record and a block of its hash say: parent, summary and the record's blob come from
      the record, height, compactness and the block's blob from the block. */
  ghost predicate Copies(r: RecordRow, b: BlockRow, row: Row) {
    && row.hash == r.hash == b.hash && row.inMainChain
    && row.prev == r.prev && row.summary == r.summary
    && row.blobs.recordHash == r.recordHash && row.blobs.recordPrev == r.recordPrev
    && row.blobs.recordIters == r.recordIters
    && row.height == b.height && row.compactified == b.compactified
    && row.blobs.blockHash == b.blockHash && row.blobs.blockPrev == b.blockPrev
    && row.blobs.blockHeight == b.blockHeight && row.blobs.blockIters == b.blockIters
  }

  ghost predicate CopiedRow(records: seq<RecordRow>, blocks: seq<BlockRow>, row: Row) {
    exists r, b | r in records && b in blocks :: Copies(r, b, row)
  }

  /** Every row is the copy of a record and a block. */
  ghost predicate Copied(records: seq<RecordRow>, blocks: seq<BlockRow>, rows: seq<Row>) {
    forall k | 0 <= k < |rows| :: CopiedRow(records, blocks, rows[k])
  }

  /** Highest first, and header hashes are unique. */
  predicate RecordsTable(records: seq<RecordRow>) {
    forall i, j | 0 <= i < j < |records| :: records[i].height >= records[j].height && records[i].hash != records[j].hash
  }

  predicate BlocksTable(blocks: seq<BlockRow>) {
    forall i, j | 0 <= i < j < |blocks| :: blocks[i].height >= blocks[j].height && blocks[i].hash != blocks[j].hash
  }

  function RecordOf(records: seq<RecordRow>, hash: Hash): Option<RecordRow> {
    if records == [] then None
    else if records[|records| - 1].hash == hash then Some(records[|records| - 1])
    else RecordOf(records[..|records| - 1], hash)
  }

  ghost predicate HasBlock(blocks: seq<BlockRow>, hash: Hash, height: int) {
    exists b | b in blocks :: b.hash == hash && b.height == height
  }

  /** Every record has its block, at its own height, and stands one above its parent. */
  ghost predicate Consistent(records: seq<RecordRow>, blocks: seq<BlockRow>) {
    && (forall r | r in records :: HasBlock(blocks, r.hash, r.height))
    && forall r, p | r in records && p in records && p.hash == r.prev :: p.height + 1 == r.height
  }

  /** The path of parents from a block reaches a genesis block with the given parent hash. */
  predicate Reaches(records: seq<RecordRow>, hash: Hash, height: nat, genesisChallenge: Hash)
    decreases height
  {
    var r := RecordOf(records, hash);
    && r.Some? && r.value.height == height
    && if height == 0 then r.value.prev == genesisChallenge
      else Reaches(records, r.value.prev, height - 1, genesisChallenge)
  }

  // ---------------------------------------------------------------- what is written

  /** Rows that are the path of parents down from the peak, at consecutive heights. */
  ghost predicate PathRows(rows: seq<Row>, peak: Hash, peakHeight: nat) {
    && (rows != [] ==> rows[0].hash == peak)
    && (forall i | 0 <= i < |rows| :: rows[i].inMainChain && rows[i].height == peakHeight - i)
    && forall i | 0 < i < |rows| :: rows[i].hash == rows[i - 1].prev
  }

  /** The hash and height that the merge looks for next. */
  function Wanted(rows: seq<Row>, peak: Hash): Hash { if rows == [] then peak else rows[|rows| - 1].prev }

  lemma {:induction false} PathSnoc(rows: seq<Row>, r: Row, peak: Hash, peakHeight: nat)
    requires PathRows(rows, peak, peakHeight) && r.inMainChain && r.hash == Wanted(rows, peak)
             && r.height == peakHeight - |rows|
    ensures PathRows(rows + [r], peak, peakHeight)
  {
    var all := rows + [r];
    assert all[|rows|] == r && forall i | 0 <= i < |rows| :: all[i] == rows[i];
  }

  lemma {:induction false} AllFlagged(rows: seq<Row>, peakHeight: nat)
    requires forall i | 0 <= i < |rows| :: rows[i].inMainChain && rows[i].height <= peakHeight
    ensures Flagged(rows) == rows && Low(rows, peakHeight) == rows
    ensures forall i | 0 <= i < |rows| :: HasHeight(rows, rows[i].height)
  {
    if rows != [] {
      var init := rows[..|rows| - 1];
      AllFlagged(init, peakHeight);
      assert rows == init + [rows[|rows| - 1]];
    }
    forall i | 0 <= i < |rows| ensures HasHeight(rows, rows[i].height) { HeightOf(rows, rows[i]); }
  }

  lemma {:induction false} PathShape(rows: seq<Row>, peak: Hash, peakHeight: nat)
    requires PathRows(rows, peak, peakHeight)
    ensures Descending(rows) && Linked(rows, peak) && NoDouble(rows, rows)
    ensures forall i | 0 <= i < |rows| :: rows[i].height <= peakHeight
  {
    forall r | r in rows ensures r.inMainChain {
      var i :| 0 <= i < |rows| && rows[i] == r;
    }
  }

  /** A written path passes validation exactly when it ends with a genesis block. */
  lemma {:induction false} WrittenIsStored(rows: seq<Row>, peak: Hash, peakHeight: nat, genesisChallenge: Hash,
                                           blobs: bool)
    requires PathRows(rows, peak, peakHeight) && rows != []
    ensures Descending(rows) && Low(rows, peakHeight) == rows
    ensures PathStored(rows, peak, genesisChallenge, blobs) <==>
              rows[|rows| - 1].height == 0 && rows[|rows| - 1].prev == genesisChallenge && (blobs ==> AllBlobsOk(rows))
  {
    PathShape(rows, peak, peakHeight);
    AllFlagged(rows, peakHeight);
    forall r | r in rows ensures HasHeight(rows, r.height) { HeightOf(rows, r); }
  }

  lemma {:induction false} PeakHeightStored(rows: seq<Row>, peak: Hash, peakHeight: nat)
    requires PathRows(rows, peak, peakHeight) && rows != []
    ensures HeightOfHash(rows, peak) == Some(peakHeight)
  {
    if |rows| == 1 {
      assert rows[..0] == [];
    } else {
      PeakHeightStored(rows[..|rows| - 1], peak, peakHeight);
    }
  }

  // ---------------------------------------------------------------- the merge

  /** INSERT OR REPLACE: a row replaces the one with its hash. */
  function Upsert(table: seq<Row>, r: Row): seq<Row> {
    Without(table, r.hash) + [r]
  }

  function Without(table: seq<Row>, hash: Hash): seq<Row> {
    if table == [] then []
    else
      var init := Without(table[..|table| - 1], hash);
      if table[|table| - 1].hash == hash then init else init + [table[|table| - 1]]
  }

  lemma {:induction false} WithoutNothing(table: seq<Row>, hash: Hash)
    requires forall i | 0 <= i < |table| :: table[i].hash != hash
    ensures Without(table, hash) == table
  {
    if table != [] {
      WithoutNothing(table[..|table| - 1], hash);
      assert table == table[..|table| - 1] + [table[|table| - 1]];
    }
  }

  predicate DistinctHashes(rows: seq<Row>) {
    forall i, j | 0 <= i < j < |rows| :: rows[i].hash != rows[j].hash
  }

  lemma {:induction false} NotYetWritten(table: seq<Row>, values: seq<Row>, i: nat)
    requires DistinctHashes(table + values) && i < |values|
    ensures Upsert(table + values[..i], values[i]) == table + values[..i + 1]
  {
    var all, r := table + values, table + values[..i];
    assert all[|table| + i] == values[i];
    forall k | 0 <= k < |r| ensures r[k].hash != values[i].hash { assert r[k] == all[k]; }
    WithoutNothing(r, values[i].hash);
    assert values[..i + 1] == values[..i] + [values[i]];
    assert r + [values[i]] == table + (values[..i] + [values[i]]);
  }

  /** Writes a batch of rows. As long as no hash comes twice, nothing is replaced. */
  method Commit(table: seq<Row>, values: seq<Row>) returns (r: seq<Row>)
    requires DistinctHashes(table + values)
    ensures r == table + values
  {
    r := table;
    for i := 0 to |values|
      invariant r == table + values[..i]
    {
      NotYetWritten(table, values, i);
      r := Upsert(r, values[i]);
    }
    assert values[..|values|] == values;
  }

  /** Moves the block cursor on until it finds a hash. */
  method FindBlock(blocks: seq<BlockRow>, start: nat, hash: Hash) returns (at: nat)
    requires start <= |blocks|
    ensures start <= at <= |blocks| && (at < |blocks| ==> blocks[at].hash == hash)
    ensures forall k | start <= k < at :: blocks[k].hash != hash
  {
    at := start;
    while at < |blocks| && blocks[at].hash != hash
      invariant start <= at <= |blocks| && forall k | start <= k < at :: blocks[k].hash != hash
    {
      at := at + 1;
    }
  }

  /** How far the merge has come: the rows written or pending, the record of the last of them, and
      the position behind its block. */
  ghost predicate Merging(records: seq<RecordRow>, blocks: seq<BlockRow>, peak: Hash, peakHeight: nat, rows: seq<Row>,
                          i: nat, last: int, j: nat) {
    && i <= |records| && j <= |blocks| && -1 <= last < i
    && PathRows(rows, peak, peakHeight)
    && (rows == [] <==> last == -1) && (rows == [] ==> j == 0)
    && (forall k | last < k < i :: records[k].hash != Wanted(rows, peak))
    && (rows != [] ==>
          && j > 0 && rows[|rows| - 1] == Joined(records[last], blocks[j - 1])
          && blocks[j - 1].hash == records[last].hash)
    && (forall k | 0 <= k < |rows| :: TakenFrom(records, last, rows[k])) && Copied(records, blocks, rows)
  }

  /** A row comes from one of the records up to a position. */
  ghost predicate TakenFrom(records: seq<RecordRow>, last: int, r: Row)
    requires last < |records|
  {
    exists a | 0 <= a <= last :: records[a].hash == r.hash && records[a].prev == r.prev
  }

  lemma {:induction false} MergeSkip(records: seq<RecordRow>, blocks: seq<BlockRow>, peak: Hash, peakHeight: nat,
                                     rows: seq<Row>, i: nat, last: int, j: nat)
    requires Merging(records, blocks, peak, peakHeight, rows, i, last, j) && i < |records|
             && records[i].hash != Wanted(rows, peak)
    ensures Merging(records, blocks, peak, peakHeight, rows, i + 1, last, j)
  {}

  lemma {:induction false} CopiedSnoc(records: seq<RecordRow>, blocks: seq<BlockRow>, rows: seq<Row>, i: nat, at: nat)
    requires Copied(records, blocks, rows) && i < |records| && at < |blocks| && records[i].hash == blocks[at].hash
    ensures Copied(records, blocks, rows + [Joined(records[i], blocks[at])])
  {
    var all := rows + [Joined(records[i], blocks[at])];
    forall k | 0 <= k < |all| ensures CopiedRow(records, blocks, all[k]) {
      if k < |rows| {
        assert CopiedRow(records, blocks, rows[k]) && all[k] == rows[k];
      } else {
        assert records[i] in records && blocks[at] in blocks && Copies(records[i], blocks[at], all[k]);
      }
    }
  }

  lemma {:induction false} MergeStep(records: seq<RecordRow>, blocks: seq<BlockRow>, peak: Hash, peakHeight: nat,
                                     rows: seq<Row>, i: nat, last: int, j: nat, at: nat, r: Row, all: seq<Row>)
    requires RecordsTable(records) && Merging(records, blocks, peak, peakHeight, rows, i, last, j) && i < |records|
             && j <= at < |blocks|
    requires records[i].hash == Wanted(rows, peak) && blocks[at].hash == records[i].hash
             && blocks[at].height == peakHeight - |rows|
    requires r == Joined(records[i], blocks[at]) && all == rows + [r]
    ensures Merging(records, blocks, peak, peakHeight, all, i + 1, i, at + 1)
    ensures DistinctHashes(rows) ==> DistinctHashes(all)
    ensures Wanted(all, peak) == records[i].prev
  {
    PathSnoc(rows, r, peak, peakHeight);
    CopiedSnoc(records, blocks, rows, i, at);
    forall k | 0 <= k < |all| ensures TakenFrom(records, i, all[k]) {
      if k < |rows| {
        assert TakenFrom(records, last, rows[k]) && all[k] == rows[k];
      } else {
        assert records[i].hash == all[k].hash;
      }
    }
    forall k | 0 <= k < |rows| ensures rows[k].hash != r.hash {
      assert TakenFrom(records, last, rows[k]);
    }
    if DistinctHashes(rows) {
      forall m, n | 0 <= m < n < |all| ensures all[m].hash != all[n].hash {
        if n < |rows| { assert all[m] == rows[m] && all[n] == rows[n]; }
      }
    }
  }

  // ---------------------------------------------------------------- consistent databases

  /** A version 1 database in order: records and blocks agree, and the peak is one of the records. */
  ghost predicate InOrder(records: seq<RecordRow>, blocks: seq<BlockRow>, peak: Hash, peakHeight: nat) {
    && RecordsTable(records) && BlocksTable(blocks) && Consistent(records, blocks)
    && exists r | r in records :: r.hash == peak && r.height == peakHeight
  }

  /** The last record taken stands at the height of the last row. */
  lemma {:induction false} LastRecord(records: seq<RecordRow>, blocks: seq<BlockRow>, peak: Hash, peakHeight: nat,
                                      rows: seq<Row>, i: nat, last: int, j: nat)
    requires InOrder(records, blocks, peak, peakHeight) && Merging(records, blocks, peak, peakHeight, rows, i, last, j)
             && rows != []
    ensures records[last].height == peakHeight - (|rows| - 1) && records[last].prev == Wanted(rows, peak)
    ensures blocks[j - 1].height == records[last].height
  {
    var r := records[last];
    assert r in records && HasBlock(blocks, r.hash, r.height);
    var b :| b in blocks && b.hash == r.hash && b.height == r.height;
    var n :| 0 <= n < |blocks| && blocks[n] == b;
    assert blocks[j - 1].hash == blocks[n].hash;
  }

  /** The record looked for is one height below the last one. */
  lemma {:induction false} NextRecord(records: seq<RecordRow>, blocks: seq<BlockRow>, peak: Hash, peakHeight: nat,
                                      rows: seq<Row>, i: nat, last: int, j: nat, k: nat)
    requires InOrder(records, blocks, peak, peakHeight) && Merging(records, blocks, peak, peakHeight, rows, i, last, j)
    requires k < |records| && records[k].hash == Wanted(rows, peak)
    ensures records[k].height == peakHeight - |rows| && k > last
  {
    assert records[k] in records;
    if rows == [] {
      var p :| p in records && p.hash == peak && p.height == peakHeight;
      var n :| 0 <= n < |records| && records[n] == p;
    } else {
      LastRecord(records, blocks, peak, peakHeight, rows, i, last, j);
      assert records[last] in records;
    }
  }

  /** Its block is still ahead of the block cursor. */
  lemma {:induction false} BlockAhead(records: seq<RecordRow>, blocks: seq<BlockRow>, peak: Hash, peakHeight: nat,
                                      rows: seq<Row>, i: nat, last: int, j: nat, at: nat)
    requires InOrder(records, blocks, peak, peakHeight) && Merging(records, blocks, peak, peakHeight, rows, i, last, j)
    requires i < |records| && records[i].hash == Wanted(rows, peak) && j <= at <= |blocks|
    requires (at < |blocks| ==> blocks[at].hash == records[i].hash) && forall k | j <= k < at ::
        blocks[k].hash != records[i].hash
    ensures at < |blocks| && blocks[at].height == peakHeight - |rows|
  {
    NextRecord(records, blocks, peak, peakHeight, rows, i, last, j, i);
    var r := records[i];
    assert r in records && HasBlock(blocks, r.hash, r.height);
    var b :| b in blocks && b.hash == r.hash && b.height == r.height;
    var n :| 0 <= n < |blocks| && blocks[n] == b;
    if rows != [] { LastRecord(records, blocks, peak, peakHeight, rows, i, last, j); }
    assert n >= j;
  }

  lemma {:induction false} RecordFound(records: seq<RecordRow>, a: nat)
    requires RecordsTable(records) && a < |records|
    ensures RecordOf(records, records[a].hash) == Some(records[a])
  {
    if a < |records| - 1 { RecordFound(records[..|records| - 1], a); }
  }

  lemma {:induction false} RecordMissing(records: seq<RecordRow>, hash: Hash)
    requires forall k | 0 <= k < |records| :: records[k].hash != hash
    ensures RecordOf(records, hash).None?
  {
    if records != [] { RecordMissing(records[..|records| - 1], hash); }
  }

  /** The whole path of parents has been written: every row from its record, and no record is left for the last parent.
      */
  ghost predicate Complete(records: seq<RecordRow>, rows: seq<Row>, peak: Hash, peakHeight: nat) {
    && rows != [] && PathRows(rows, peak, peakHeight)
    && (forall k | 0 <= k < |rows| :: HasRecord(records, rows[k]))
    && RecordOf(records, rows[|rows| - 1].prev).None?
  }

  ghost predicate HasRecord(records: seq<RecordRow>, r: Row) {
    var rec := RecordOf(records, r.hash);
    rec.Some? && rec.value.prev == r.prev && rec.value.height == r.height
  }

  /** The record of every row stands at the row's height. */
  lemma {:induction false} RowHasRecord(records: seq<RecordRow>, blocks: seq<BlockRow>, peak: Hash, peakHeight: nat,
                                        rows: seq<Row>, i: nat, last: int, j: nat, k: nat)
    requires InOrder(records, blocks, peak, peakHeight) && Merging(records, blocks, peak, peakHeight, rows, i, last, j)
             && k < |rows|
    ensures HasRecord(records, rows[k])
  {
    assert TakenFrom(records, last, rows[k]);
    var a :| 0 <= a <= last && records[a].hash == rows[k].hash && records[a].prev == rows[k].prev;
    RecordFound(records, a);
    assert records[a] in records;
    if k == 0 {
      var p :| p in records && p.hash == peak && p.height == peakHeight;
      var n :| 0 <= n < |records| && records[n] == p;
    } else {
      RowHasRecord(records, blocks, peak, peakHeight, rows, i, last, j, k - 1);
      assert TakenFrom(records, last, rows[k - 1]);
      var b :| 0 <= b <= last && records[b].hash == rows[k - 1].hash && records[b].prev == rows[k - 1].prev;
      RecordFound(records, b);
      assert records[b] in records;
    }
  }

  /** When all records have been seen, the path is complete. */
  lemma {:induction false} MergeEnds(records: seq<RecordRow>, blocks: seq<BlockRow>, peak: Hash, peakHeight: nat,
                                     rows: seq<Row>, last: int, j: nat)
    requires InOrder(records, blocks, peak, peakHeight)
             && Merging(records, blocks, peak, peakHeight, rows, |records|, last, j)
    ensures Complete(records, rows, peak, peakHeight)
  {
    forall k | 0 <= k < |records| ensures records[k].hash != Wanted(rows, peak) {
      if records[k].hash == Wanted(rows, peak) {
        NextRecord(records, blocks, peak, peakHeight, rows, |records|, last, j, k);
      }
    }
    var p :| p in records && p.hash == peak && p.height == peakHeight;
    RecordMissing(records, Wanted(rows, peak));
    forall k | 0 <= k < |rows| ensures HasRecord(records, rows[k]) {
      RowHasRecord(records, blocks, peak, peakHeight, rows, |records|, last, j, k);
    }
  }

  /** Fetches the block of the record at hand and joins the two. */
  method JoinRow(record: RecordRow, blocks: seq<BlockRow>, cursor: nat, height: int) returns (r: Result<Row>, at: nat)
    requires cursor <= |blocks|
    ensures cursor <= at <= |blocks| && (at < |blocks| ==> blocks[at].hash == record.hash)
    ensures forall k | cursor <= k < at :: blocks[k].hash != record.hash
    ensures r.Ok? <==> at < |blocks| && blocks[at].height == height - 1
    ensures r.Ok? ==> r.value == Joined(record, blocks[at])
  {
    at := FindBlock(blocks, cursor, record.hash);
    if at == |blocks| { return Err(MissingBlock), at; }
    if blocks[at].height != height - 1 { return Err(AssertionFailed), at; }
    r := Ok(Joined(record, blocks[at]));
  }

  /** Takes the next row; on a database in order this cannot fail. */
  method TakeRow(records: seq<RecordRow>, blocks: seq<BlockRow>, peak: Hash, peakHeight: nat, i: nat, cursor: nat,
                 height: int, ghost rows: seq<Row>, ghost last: int)
    returns (r: Result<Row>, next: nat, ghost all: seq<Row>)
    requires RecordsTable(records) && Merging(records, blocks, peak, peakHeight, rows, i, last, cursor)
    requires i < |records| && records[i].hash == Wanted(rows, peak) && height == peakHeight + 1 - |rows|
    ensures r.Err? ==> !InOrder(records, blocks, peak, peakHeight)
    ensures r.Ok? ==>
      && all == rows + [r.value] && Merging(records, blocks, peak, peakHeight, all, i + 1, i, next)
      && (DistinctHashes(rows) ==> DistinctHashes(all))
      && Wanted(all, peak) == records[i].prev && r.value.height == height - 1
  {
    all := [];
    var at;
    r, at := JoinRow(records[i], blocks, cursor, height);
    next := at + 1;
    if r.Err? {
      if InOrder(records, blocks, peak, peakHeight) {
        BlockAhead(records, blocks, peak, peakHeight, rows, i, last, cursor, at);
      }
      return;
    }
    all := rows + [r.value];
    MergeStep(records, blocks, peak, peakHeight, rows, i, last, cursor, at, r.value, all);
  }

  /** Rows already written, rows waiting to be written, and how many more may wait. */
  datatype Batch = Batch(table: seq<Row>, values: seq<Row>, commitIn: int)

  function Rows(b: Batch): seq<Row> { b.table + b.values }

  /** Adds a row to the batch and writes the batch when it is full. */
  method AddToBatch(b: Batch, row: Row, commitRate: nat) returns (next: Batch)
    requires DistinctHashes(Rows(b) + [row])
    ensures Rows(next) == Rows(b) + [row]
  {
    next := Batch(b.table, b.values + [row], b.commitIn - 1);
    assert Rows(next) == Rows(b) + [row];
    if next.commitIn == 0 {
      var table := Commit(next.table, next.values);
      next := Batch(table, [], commitRate);
    }
  }

  /** The progress report after a row: at every thousandth height it divides by the height of the peak. */
  predicate ReportFails(height: int, peakHeight: nat) {
    height % 1000 == 0 && peakHeight == 0
  }

  /** Merges the two cursors into the path of parents from the peak; rows are written in batches. From a database
      in order it succeeds exactly when the peak is above height 0, since the report on a row divides by that height. */
  method ConvertBlocks(records: seq<RecordRow>, blocks: seq<BlockRow>, peak: Hash, peakHeight: nat, commitRate: nat)
    returns (r: Result<seq<Row>>)
    requires RecordsTable(records) && BlocksTable(blocks)
    ensures r.Ok? ==> PathRows(r.value, peak, peakHeight) && (peakHeight == 0 ==> r.value == [])
    ensures r.Ok? ==> Copied(records, blocks, r.value)
    ensures InOrder(records, blocks, peak, peakHeight) ==>
        (r.Ok? <==> peakHeight > 0) && (r.Err? ==> r.error == DivisionByZero)
    ensures InOrder(records, blocks, peak, peakHeight) && r.Ok? ==> Complete(records, r.value, peak, peakHeight)
  {
    var height, hash, cursor := peakHeight + 1, peak, 0;
    var batch := Batch([], [], commitRate);
    ghost var rows: seq<Row>, last := [], -1;
    for i := 0 to |records|
      invariant rows == Rows(batch) && DistinctHashes(rows) && (peakHeight == 0 ==> rows == [])
      invariant Merging(records, blocks, peak, peakHeight, rows, i, last, cursor)
      invariant hash == Wanted(rows, peak) && height == peakHeight + 1 - |rows|
    {
      if records[i].hash != hash {
        MergeSkip(records, blocks, peak, peakHeight, rows, i, last, cursor);
        continue;
      }
      ghost var all;
      var row, next;
      row, next, all := TakeRow(records, blocks, peak, peakHeight, i, cursor, height, rows, last);
      if row.Err? { return Err(row.error); }
      if ReportFails(row.value.height, peakHeight) { return Err(DivisionByZero); }
      batch := AddToBatch(batch, row.value, commitRate);
      rows, last := all, i;
      height, hash, cursor := row.value.height, records[i].prev, next;
    }
    if InOrder(records, blocks, peak, peakHeight) { MergeEnds(records, blocks, peak, peakHeight, rows, last, cursor); }
    var table := Commit(batch.table, batch.values);
    r := Ok(table);
  }

  /** The smallest store in order: a genesis block alone. */
  lemma {:induction false} GenesisAlone(record: RecordRow, block: BlockRow)
    requires record.height == 0 && block.height == 0 && block.hash == record.hash && record.prev != record.hash
    ensures InOrder([record], [block], record.hash, 0) && Reaches([record], record.hash, 0, record.prev)
  {
    assert block in [block] && HasBlock([block], record.hash, 0);
    assert record in [record];
  }

  /** It cannot be converted. */
  method GenesisAloneFails(record: RecordRow, block: BlockRow, commitRate: nat) returns (r: Result<seq<Row>>)
    requires record.height == 0 && block.height == 0 && block.hash == record.hash && record.prev != record.hash
    ensures r == Err(DivisionByZero)
  {
    GenesisAlone(record, block);
    r := ConvertBlocks([record], [block], record.hash, 0, commitRate);
  }

  lemma {:induction false} ReachesFrom(records: seq<RecordRow>, rows: seq<Row>, peak: Hash, peakHeight: nat, k: nat,
                                       genesisChallenge: Hash)
    requires Complete(records, rows, peak, peakHeight) && k < |rows|
    ensures Reaches(records, rows[k].hash, rows[k].height, genesisChallenge) <==>
              rows[|rows| - 1].height == 0 && rows[|rows| - 1].prev == genesisChallenge
    decreases |rows| - k
  {
    assert HasRecord(records, rows[k]);
    if k < |rows| - 1 { ReachesFrom(records, rows, peak, peakHeight, k + 1, genesisChallenge); }
  }

  /** The blobs of a version 1 block agree with each other and with the columns beside them. */
  predicate BlobsAgree(r: RecordRow, b: BlockRow) {
    && b.blockHash == b.hash && r.recordHash == r.hash && b.blockHeight == b.height
    && r.recordIters == b.blockIters && r.recordPrev == b.blockPrev == r.prev
  }

  /** They do so for every block that has been written. */
  ghost predicate PathBlobsAgree(records: seq<RecordRow>, blocks: seq<BlockRow>, rows: seq<Row>) {
    forall r, b, k | r in records && b in blocks && 0 <= k < |rows| && r.hash == b.hash == rows[k].hash ::
      BlobsAgree(r, b)
  }

  lemma {:induction false} SameRows(records: seq<RecordRow>, blocks: seq<BlockRow>, r: RecordRow, b: BlockRow,
                                    r': RecordRow, b': BlockRow)
    requires RecordsTable(records) && r in records && r' in records
    requires BlocksTable(blocks) && b in blocks && b' in blocks
    requires r.hash == r'.hash && b.hash == b'.hash
    ensures r == r' && b == b'
  {
    var i :| 0 <= i < |records| && records[i] == r;
    var i' :| 0 <= i' < |records| && records[i'] == r';
    var j :| 0 <= j < |blocks| && blocks[j] == b;
    var j' :| 0 <= j' < |blocks| && blocks[j'] == b';
  }

  /** The copied blobs pass exactly when those of version 1 agree. */
  lemma {:induction false} CopiedBlobs(records: seq<RecordRow>, blocks: seq<BlockRow>, rows: seq<Row>)
    requires RecordsTable(records) && BlocksTable(blocks) && Copied(records, blocks, rows)
    ensures AllBlobsOk(rows) <==> PathBlobsAgree(records, blocks, rows)
  {
    if AllBlobsOk(rows) {
      forall r, b, k | r in records && b in blocks && 0 <= k < |rows| && r.hash == b.hash == rows[k].hash
        ensures BlobsAgree(r, b)
      {
        assert CopiedRow(records, blocks, rows[k]);
        var r', b' :| r' in records && b' in blocks && Copies(r', b', rows[k]);
        SameRows(records, blocks, r, b, r', b');
        assert rows[k] in rows && BlobsOk(rows[k]);
      }
    }
    if PathBlobsAgree(records, blocks, rows) {
      forall row | row in rows ensures BlobsOk(row) {
        var k :| 0 <= k < |rows| && rows[k] == row;
        assert CopiedRow(records, blocks, rows[k]);
        var r, b :| r in records && b in blocks && Copies(r, b, rows[k]);
        assert BlobsAgree(r, b);
      }
    }
  }

  /** A converted database is valid exactly when the version 1 path from the peak reaches genesis and,
      if the blobs are looked at too, the version 1 blobs of that path agree with each other and their columns. */
  lemma {:induction false} ConvertedIsValid(records: seq<RecordRow>, blocks: seq<BlockRow>, rows: seq<Row>, peak: Hash,
                                            peakHeight: nat, genesisChallenge: Hash, blobs: bool)
    requires RecordsTable(records) && BlocksTable(blocks) && Complete(records, rows, peak, peakHeight)
             && Copied(records, blocks, rows)
    ensures Descending(rows) && HeightOfHash(rows, peak) == Some(peakHeight)
    ensures PathStored(Low(rows, peakHeight), peak, genesisChallenge, blobs) <==>
              && Reaches(records, peak, peakHeight, genesisChallenge)
              && (blobs ==> PathBlobsAgree(records, blocks, rows))
  {
    WrittenIsStored(rows, peak, peakHeight, genesisChallenge, blobs);
    PeakHeightStored(rows, peak, peakHeight);
    ReachesFrom(records, rows, peak, peakHeight, 0, genesisChallenge);
    CopiedBlobs(records, blocks, rows);
  }

  // ---------------------------------------------------------------- coins

  /** Copies the coins as they were at the peak's height. */
  method ConvertCoins(table: Coins, peakHeight: nat) returns (snapshot: Coins)
    ensures snapshot == Rollback(table, peakHeight)
  {
    var selected := set x | x in table && table[x].confirmed <= peakHeight;
    snapshot := map[];
    var rows := selected;
    while rows != {}
      invariant rows <= selected && snapshot.Keys == selected - rows
      invariant forall x | x in snapshot ::
        snapshot[x] == if table[x].spent > peakHeight then table[x].(spent := 0) else table[x]
    {
      var x :| x in rows;
      var spentIndex := table[x].spent;
      if spentIndex > peakHeight { spentIndex := 0; }
      snapshot := snapshot[x := table[x].(spent := spentIndex)];
      rows := rows - {x};
    }
  }

  /** Whatever has been added above the peak in the meantime, the copied coins are those of a replay up to the peak. */
  lemma {:induction false} SnapshotIsReplay(c: Consensus, ch: Chain, peakHeight: nat, snapshot: Coins)
    requires GoodBodies(c, ch) && peakHeight <= Height(ch) && snapshot == Rollback(Replay(c, ch), peakHeight)
    ensures snapshot == Replay(c, UpTo(ch, peakHeight)) && Height(UpTo(ch, peakHeight)) == peakHeight
  {
    BodiesNumbered(c, ch);
    UpToReaches(ch, peakHeight);
    RollbackIsReplay(c, ch, peakHeight);
  }
}
