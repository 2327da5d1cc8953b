/**
  Validating a version 2 database: one pass over the block rows, highest first, decides whether
  the rows flagged as main chain are the path of parents from the peak to genesis.
 */
module DbValidate {
  import opened Types

  /** What the two blobs of a row say when they are decoded. */
  datatype Blobs = Blobs(blockHash: Hash, blockPrev: Hash, blockHeight: nat, blockIters: nat,
                         recordHash: Hash, recordPrev: Hash, recordIters: nat)

  datatype Row = Row(hash: Hash, prev: Hash, height: nat, summary: Option<Hash>, compactified: bool, inMainChain: bool,
                     blobs: Blobs)

  /** Highest first; rows of the same height in any order. */
  predicate Descending(rows: seq<Row>) {
    forall i, j | 0 <= i < j < |rows| :: rows[i].height >= rows[j].height
  }

  /** The rows at or below a height. */
  function Low(rows: seq<Row>, peakHeight: nat): (low: seq<Row>)
    ensures forall r | r in low :: r.height <= peakHeight && r in rows
    ensures forall r | r in rows && r.height <= peakHeight :: r in low
  {
    if rows == [] then []
    else
      var low, r := Low(rows[..|rows| - 1], peakHeight), rows[|rows| - 1];
      if r.height <= peakHeight then low + [r] else low
  }

  /** The rows flagged as main chain. */
  function Flagged(rows: seq<Row>): (f: seq<Row>)
    ensures forall r :: r in f <==> r in rows && r.inMainChain
  {
    if rows == [] then []
    else
      var f, r := Flagged(rows[..|rows| - 1]), rows[|rows| - 1];
      if r.inMainChain then f + [r] else f
  }

  /** The row's blobs agree with the row and with each other. */
  predicate BlobsOk(r: Row) {
    && r.blobs.blockHash == r.hash && r.blobs.recordHash == r.hash
    && r.blobs.recordIters == r.blobs.blockIters && r.blobs.recordPrev == r.blobs.blockPrev
    && r.blobs.blockHeight == r.height && (r.inMainChain ==> r.blobs.blockPrev == r.prev)
  }

  /** Each row is the parent of the one before, and the first one is the peak. */
  ghost predicate Linked(f: seq<Row>, peak: Hash) {
    && (f != [] ==> f[0].hash == peak)
    && forall i | 0 < i < |f| :: f[i].hash == f[i - 1].prev && f[i].height < f[i - 1].height
  }

  /** No unflagged row passes for a flagged one. */
  ghost predicate NoDouble(rows: seq<Row>, f: seq<Row>) {
    forall r, m | r in rows && m in f :: !r.inMainChain && r.height == m.height ==> r.hash != m.hash
  }

  function Heights(f: seq<Row>): set<int> {
    if f == [] then {} else Heights(f[..|f| - 1]) + {f[|f| - 1].height}
  }

  predicate HasHeight(f: seq<Row>, h: int) {
    h in Heights(f)
  }

  lemma {:induction false} HeightOf(f: seq<Row>, m: Row)
    requires m in f
    ensures HasHeight(f, m.height)
  {
    if m != f[|f| - 1] { HeightOf(f[..|f| - 1], m); }
  }

  lemma {:induction false} RowOfHeight(f: seq<Row>, h: int) returns (m: Row)
    requires HasHeight(f, h)
    ensures m in f && m.height == h
  {
    m := f[|f| - 1];
    if m.height != h { m := RowOfHeight(f[..|f| - 1], h); }
  }

  /** The flagged rows are the path of parents from the peak: linked, one at each height that is
      stored, down to a row of height 0 whose parent is the genesis challenge. */
  ghost predicate PathStored(low: seq<Row>, peak: Hash, genesisChallenge: Hash, blobs: bool) {
    var f := Flagged(low);
    && f != [] && Linked(f, peak) && f[|f| - 1].height == 0 && f[|f| - 1].prev == genesisChallenge
    && (forall r | r in low :: HasHeight(f, r.height))
    && NoDouble(low, f)
    && (blobs ==> AllBlobsOk(low))
  }

  // ---------------------------------------------------------------- prefixes of the scan

  /** The hash looked for once the flagged rows seen so far have been passed. */
  function Expected(f: seq<Row>, peak: Hash): Hash {
    if f == [] then peak else f[|f| - 1].prev
  }

  /** The height the scan is at. */
  function Level(p: seq<Row>, peakHeight: nat): nat {
    if p == [] then peakHeight else p[|p| - 1].height
  }

  /** What must hold of the rows seen so far, with f the flagged ones among them, if the whole is to
      be accepted. */
  ghost predicate PrefixOk(p: seq<Row>, f: seq<Row>, level: nat, peak: Hash, blobs: bool) {
    Linked(f, peak) && LevelsOk(p, f, level, Expected(f, peak)) && (blobs ==> AllBlobsOk(p))
  }

  ghost predicate AllBlobsOk(p: seq<Row>) { forall r | r in p :: BlobsOk(r) }

  /** The part of it that speaks of heights: no double, every finished level has its flagged row, and
      no row of an unfinished level passes for the one that is looked for. */
  ghost predicate LevelsOk(p: seq<Row>, f: seq<Row>, level: nat, wanted: Hash) {
    && NoDouble(p, f)
    && (forall r | r in p && r.height > level :: HasHeight(f, r.height))
    && (!HasHeight(f, level) ==> forall r | r in p && r.height == level :: r.hash != wanted)
  }

  lemma {:induction false} FlaggedConcat(a: seq<Row>, b: seq<Row>)
    ensures Flagged(a + b) == Flagged(a) + Flagged(b)
  {
    if b == [] {
      assert a + b == a;
    } else {
      assert (a + b)[..|a + b| - 1] == a + b[..|b| - 1];
      FlaggedConcat(a, b[..|b| - 1]);
    }
  }

  /** The rows after a prefix are not above its last row. */
  ghost predicate After(p: seq<Row>, rest: seq<Row>) {
    p != [] ==> forall m | m in rest :: m.height <= p[|p| - 1].height
  }

  lemma {:induction false} SplitRows(p: seq<Row>, rest: seq<Row>)
    requires Descending(p + rest)
    ensures After(p, rest)
  {
    var all := p + rest;
    if p != [] {
      forall m | m in rest ensures m.height <= p[|p| - 1].height {
        var i :| 0 <= i < |rest| && rest[i] == m;
        assert all[|p| - 1] == p[|p| - 1] && all[|p| + i] == m;
      }
    }
  }

  lemma {:induction false} LinkedPrefix(f: seq<Row>, g: seq<Row>, peak: Hash)
    requires Linked(f + g, peak)
    ensures Linked(f, peak) && (g != [] ==> g[0].hash == Expected(f, peak))
    ensures forall i | 0 < i < |g| :: g[i].height < g[0].height
  {
    var all := f + g;
    assert forall i | 0 <= i < |f| :: all[i] == f[i];
    assert g != [] ==> all[|f|] == g[0];
    forall i | 0 < i < |g| ensures g[i].height < g[0].height {
      Decreasing(all, peak, |f|, |f| + i);
      assert all[|f| + i] == g[i];
    }
  }

  lemma {:induction false} Decreasing(f: seq<Row>, peak: Hash, i: nat, j: nat)
    requires Linked(f, peak) && i < j < |f|
    ensures f[j].height < f[i].height
    decreases j
  {
    if i < j - 1 { Decreasing(f, peak, i, j - 1); }
  }

  /** Above the level of a prefix, heights are settled by the prefix alone. */
  lemma {:induction false} LevelsSettled(p: seq<Row>, rest: seq<Row>, level: nat, h: int)
    requires p != [] && level == p[|p| - 1].height && After(p, rest) && h > level
    requires HasHeight(Flagged(p) + Flagged(rest), h)
    ensures HasHeight(Flagged(p), h)
  {
    var m := RowOfHeight(Flagged(p) + Flagged(rest), h);
    assert m !in rest;
    HeightOf(Flagged(p), m);
  }

  /** If the level has no flagged row yet, the next flagged row is on this level and is the one expected. */
  lemma {:induction false} NextIsMain(p: seq<Row>, rest: seq<Row>, peak: Hash, level: nat)
    requires p != [] && level == p[|p| - 1].height && After(p, rest)
    requires Linked(Flagged(p) + Flagged(rest), peak) && HasHeight(Flagged(p) + Flagged(rest), level)
    requires !HasHeight(Flagged(p), level)
    ensures var g := Flagged(rest); g != [] && g[0].height == level && g[0].hash == Expected(Flagged(p), peak)
  {
    var f, g := Flagged(p), Flagged(rest);
    LinkedPrefix(f, g, peak);
    var m := RowOfHeight(f + g, level);
    if m in f { HeightOf(f, m); }
    var j :| 0 <= j < |g| && g[j] == m;
    assert g[0] in g;
  }

  /** A stored path satisfies the scan's condition on every prefix of the rows. */
  lemma {:induction false} PathPrefix(p: seq<Row>, rest: seq<Row>, peak: Hash, peakHeight: nat, genesisChallenge: Hash,
                                      blobs: bool)
    requires Descending(p + rest) && PathStored(p + rest, peak, genesisChallenge, blobs)
    ensures PrefixOk(p, Flagged(p), Level(p, peakHeight), peak, blobs)
  {
    var f, g, level := Flagged(p), Flagged(rest), Level(p, peakHeight);
    FlaggedConcat(p, rest);
    SplitRows(p, rest);
    LinkedPrefix(f, g, peak);
    forall r | r in p ensures r in p + rest && HasHeight(f + g, r.height) {}
    forall r | r in p && r.height > level ensures HasHeight(f, r.height) { LevelsSettled(p, rest, level, r.height); }
    if p != [] && !HasHeight(f, level) {
      assert p[|p| - 1] in p;
      NextIsMain(p, rest, peak, level);
      forall r | r in p && r.height == level ensures r.hash != Expected(f, peak) {
        if r in f { HeightOf(f, r); }
        assert g[0] in f + g;
      }
    }
  }

  // ---------------------------------------------------------------- one row

  /** Where the scan is: the level, the hash looked for there, and its parent once it is found. */
  datatype Scan = Scan(current: nat, wanted: Hash, next: Option<Hash>)

  function ScanOf(f: seq<Row>, level: nat, peak: Hash): Scan {
    if f != [] && f[|f| - 1].height == level then Scan(level, f[|f| - 1].hash, Some(f[|f| - 1].prev))
    else Scan(level, Expected(f, peak), None)
  }

  /** At most one flagged row is on the level of the last row, and it is the last one. */
  lemma {:induction false} AtLevel(f: seq<Row>, peak: Hash, level: nat)
    requires Linked(f, peak) && forall m | m in f :: m.height >= level
    ensures HasHeight(f, level) <==> f != [] && f[|f| - 1].height == level
    ensures forall m | m in f && m.height == level :: m == f[|f| - 1]
  {
    if f != [] {
      var last := f[|f| - 1];
      HeightOf(f, last);
      if HasHeight(f, level) { var _ := RowOfHeight(f, level); }
      forall m | m in f && m.height == level ensures m == last {
        var j :| 0 <= j < |f| && f[j] == m;
        if j < |f| - 1 { Decreasing(f, peak, j, |f| - 1); }
      }
    }
  }

  lemma {:induction false} LinkedSnoc(f: seq<Row>, r: Row, peak: Hash)
    requires Linked(f, peak)
    ensures Linked(f + [r], peak) <==> r.hash == Expected(f, peak) && (f != [] ==> r.height < f[|f| - 1].height)
  {
    var all := f + [r];
    assert all[|f|] == r && forall i | 0 <= i < |f| :: all[i] == f[i];
    if f != [] { assert all[|f| - 1] == f[|f| - 1]; }
    assert Linked(all, peak) ==> all[|f|].hash == Expected(f, peak);
  }

  lemma {:induction false} RowAdded(p: seq<Row>, r: Row)
    ensures Flagged(p + [r]) == if r.inMainChain then Flagged(p) + [r] else Flagged(p)
    ensures forall x :: x in p + [r] <==> x in p || x == r
  {
    assert (p + [r])[..|p|] == p;
  }

  lemma {:induction false} HeightSnoc(f: seq<Row>, r: Row, h: int)
    ensures HasHeight(f + [r], h) <==> HasHeight(f, h) || r.height == h
  {
    assert (f + [r])[..|f|] == f;
  }

  /** An unflagged row that opens a new level. */
  lemma {:induction false} OrphanBelow(p: seq<Row>, f: seq<Row>, r: Row, level: nat, wanted: Hash)
    requires LevelsOk(p, f, level, wanted) && !r.inMainChain && r.height < level
    requires (forall x | x in p :: x.height >= level) && (forall m | m in f :: m.height >= level)
    requires exists x | x in p :: x.height == level
    ensures LevelsOk(p + [r], f, r.height, wanted) <==> HasHeight(f, level) && r.hash != wanted
  {
    assert forall x :: x in p + [r] <==> x in p || x == r;
    if HasHeight(f, r.height) { var _ := RowOfHeight(f, r.height); }
  }

  /** A flagged row that opens a new level. */
  lemma {:induction false} MainBelow(p: seq<Row>, f: seq<Row>, r: Row, level: nat, wanted: Hash)
    requires LevelsOk(p, f, level, wanted) && r.inMainChain && r.height < level
    requires (forall x | x in p :: x.height >= level) && exists x | x in p :: x.height == level
    ensures LevelsOk(p + [r], f + [r], r.height, r.prev) <==> HasHeight(f, level)
  {
    assert forall x :: x in p + [r] <==> x in p || x == r;
    assert forall x :: x in f + [r] <==> x in f || x == r;
    forall h: int ensures HasHeight(f + [r], h) <==> HasHeight(f, h) || r.height == h { HeightSnoc(f, r, h); }
  }

  /** An unflagged row of the same level. */
  lemma {:induction false} OrphanBeside(p: seq<Row>, f: seq<Row>, r: Row, wanted: Hash)
    requires LevelsOk(p, f, r.height, wanted) && !r.inMainChain
    ensures LevelsOk(p + [r], f, r.height, wanted) <==>
              if HasHeight(f, r.height) then forall m | m in f && m.height == r.height ::
                  m.hash != r.hash else r.hash != wanted
  {
    assert forall x :: x in p + [r] <==> x in p || x == r;
    forall m | m in f ensures HasHeight(f, m.height) { HeightOf(f, m); }
  }

  /** A flagged row of a level that has none yet. */
  lemma {:induction false} MainBeside(p: seq<Row>, f: seq<Row>, r: Row, wanted: Hash)
    requires LevelsOk(p, f, r.height, wanted) && r.inMainChain && !HasHeight(f, r.height) && r.hash == wanted
    ensures LevelsOk(p + [r], f + [r], r.height, r.prev)
  {
    assert forall x :: x in p + [r] <==> x in p || x == r;
    assert forall x :: x in f + [r] <==> x in f || x == r;
    forall h: int ensures HasHeight(f + [r], h) <==> HasHeight(f, h) || r.height == h { HeightSnoc(f, r, h); }
  }

  /** Whether the scan passes a row. */
  predicate Passes(s: Scan, r: Row, blobs: bool) {
    && (blobs ==> BlobsOk(r))
    && if r.height != s.current then s.next.Some? && (r.hash == s.next.value <==> r.inMainChain)
       else if s.next.Some? then r.hash != s.wanted && !r.inMainChain
       else (r.hash == s.wanted <==> r.inMainChain)
  }

  function Advance(s: Scan, r: Row): Scan {
    var wanted := if r.height != s.current && s.next.Some? then s.next.value else s.wanted;
    if r.hash == wanted then Scan(r.height, wanted, Some(r.prev))
    else Scan(r.height, wanted, if r.height == s.current then s.next else None)
  }

  function WithRow(f: seq<Row>, r: Row): seq<Row> {
    if r.inMainChain then f + [r] else f
  }

  ghost predicate NotBelow(p: seq<Row>, level: nat) { forall x | x in p :: x.height >= level }

  /** Rows seen so far, the flagged ones among them, and the level they have come down to. */
  ghost predicate Seen(p: seq<Row>, f: seq<Row>, level: nat, peak: Hash, blobs: bool) {
    && PrefixOk(p, f, level, peak, blobs) && NotBelow(p, level) && NotBelow(f, level)
    && (HasHeight(f, level) <==> f != [] && f[|f| - 1].height == level)
  }

  /** A flagged row passes exactly when the condition holds with it. */
  lemma {:induction false} MainDecides(p: seq<Row>, f: seq<Row>, level: nat, r: Row, peak: Hash)
    requires Seen(p, f, level, peak, false) && r.inMainChain && r.height <= level
    requires r.height < level ==> exists x | x in p :: x.height == level
    ensures Passes(ScanOf(f, level, peak), r, false) <==> PrefixOk(p + [r], f + [r], r.height, peak, false)
  {
    LinkedSnoc(f, r, peak);
    if f != [] { assert f[|f| - 1] in f; }
    assert Expected(f + [r], peak) == r.prev;
    if r.height < level { MainBelow(p, f, r, level, Expected(f, peak)); }
    else if !HasHeight(f, level) && r.hash == Expected(f, peak) { MainBeside(p, f, r, Expected(f, peak)); }
  }

  /** So does an unflagged one. */
  lemma {:induction false} OrphanDecides(p: seq<Row>, f: seq<Row>, level: nat, r: Row, peak: Hash)
    requires Seen(p, f, level, peak, false) && !r.inMainChain && r.height <= level
    requires r.height < level ==> exists x | x in p :: x.height == level
    ensures Passes(ScanOf(f, level, peak), r, false) <==> PrefixOk(p + [r], f, r.height, peak, false)
  {
    if r.height < level { OrphanBelow(p, f, r, level, Expected(f, peak)); }
    else {
      OrphanBeside(p, f, r, Expected(f, peak));
      AtLevel(f, peak, level);
      if f != [] { assert f[|f| - 1] in f; }
    }
  }

  lemma {:induction false} BlobsDecide(p: seq<Row>, r: Row)
    requires AllBlobsOk(p)
    ensures AllBlobsOk(p + [r]) <==> BlobsOk(r)
  {
    assert forall x :: x in p + [r] <==> x in p || x == r;
  }

  lemma {:induction false} AdvanceIsScan(f: seq<Row>, level: nat, r: Row, peak: Hash, blobs: bool)
    requires NotBelow(f, level) && r.height <= level && Passes(ScanOf(f, level, peak), r, blobs)
    ensures Advance(ScanOf(f, level, peak), r) == ScanOf(WithRow(f, r), r.height, peak)
  {
    if f != [] { assert f[|f| - 1] in f; }
  }

  /** The scan passes a row exactly when the condition still holds with it. */
  lemma {:induction false} RowDecides(p: seq<Row>, f: seq<Row>, level: nat, r: Row, peak: Hash, blobs: bool)
    requires Seen(p, f, level, peak, blobs) && r.height <= level
    requires r.height < level ==> exists x | x in p :: x.height == level
    ensures Passes(ScanOf(f, level, peak), r, blobs) <==> PrefixOk(p + [r], WithRow(f, r), r.height, peak, blobs)
    ensures Passes(ScanOf(f, level, peak), r, blobs) ==>
        Advance(ScanOf(f, level, peak), r) == ScanOf(WithRow(f, r), r.height, peak)
  {
    if r.inMainChain { MainDecides(p, f, level, r, peak); } else { OrphanDecides(p, f, level, r, peak); }
    if blobs { BlobsDecide(p, r); }
    if Passes(ScanOf(f, level, peak), r, blobs) { AdvanceIsScan(f, level, r, peak, blobs); }
  }

  /** Passing a row leads to the next state of the scan. */
  lemma {:induction false} RowSeen(p: seq<Row>, f: seq<Row>, level: nat, r: Row, peak: Hash, blobs: bool)
    requires Seen(p, f, level, peak, blobs) && r.height <= level
    requires PrefixOk(p + [r], WithRow(f, r), r.height, peak, blobs)
    ensures Seen(p + [r], WithRow(f, r), r.height, peak, blobs)
  {
    NotBelowRow(p, r, level);
    NotBelowRow(f, r, level);
    AtLevel(WithRow(f, r), peak, r.height);
  }

  lemma {:induction false} NotBelowRow(p: seq<Row>, r: Row, level: nat)
    requires NotBelow(p, level) && r.height <= level
    ensures NotBelow(p, r.height) && NotBelow(p + [r], r.height)
  {
    assert forall x :: x in p + [r] <==> x in p || x == r;
  }

  /** At the end, the level and what was found there decide. */
  lemma {:induction false} EndDecides(low: seq<Row>, f: seq<Row>, level: nat, peak: Hash, genesisChallenge: Hash,
                                      blobs: bool)
    requires f == Flagged(low) && Seen(low, f, level, peak, blobs) && exists x | x in low :: x.height == level
    ensures PathStored(low, peak, genesisChallenge, blobs) <==>
              var s := ScanOf(f, level, peak); s.current == 0 && s.next == Some(genesisChallenge)
  {
    if f != [] { assert f[|f| - 1] in f; }
  }

  // ---------------------------------------------------------------- the scan

  lemma {:induction false} LowConcat(a: seq<Row>, b: seq<Row>, peakHeight: nat)
    ensures Low(a + b, peakHeight) == Low(a, peakHeight) + Low(b, peakHeight)
  {
    if b == [] {
      assert a + b == a;
    } else {
      assert (a + b)[..|a + b| - 1] == a + b[..|b| - 1];
      LowConcat(a, b[..|b| - 1], peakHeight);
    }
  }

  lemma {:induction false} LowDescending(rows: seq<Row>, peakHeight: nat)
    requires Descending(rows)
    ensures Descending(Low(rows, peakHeight))
  {
    if rows != [] {
      var init, r := rows[..|rows| - 1], rows[|rows| - 1];
      LowDescending(init, peakHeight);
      forall x | x in Low(init, peakHeight) ensures x.height >= r.height {
        var i :| 0 <= i < |init| && init[i] == x;
        assert rows[i] == x;
      }
      DescendingSnoc(Low(init, peakHeight), r);
    }
  }

  lemma {:induction false} DescendingSnoc(p: seq<Row>, r: Row)
    requires Descending(p) && forall x | x in p :: x.height >= r.height
    ensures Descending(p + [r])
  {
    var all := p + [r];
    forall i, j | 0 <= i < j < |all| ensures all[i].height >= all[j].height {
      assert all[i] == p[i] && p[i] in p;
      if j < |p| { assert all[j] == p[j]; }
    }
  }

  /** The first height stored under a hash. */
  function HeightOfHash(rows: seq<Row>, hash: Hash): Option<nat> {
    if rows == [] then None
    else
      var h := HeightOfHash(rows[..|rows| - 1], hash);
      if h.Some? then h else if rows[|rows| - 1].hash == hash then Some(rows[|rows| - 1].height) else None
  }

  /** Where the scan stands after some of the rows at or below the peak. */
  ghost predicate Scanned(low: seq<Row>, scan: Scan, peak: Hash, peakHeight: nat, blobs: bool) {
    && Seen(low, Flagged(low), Level(low, peakHeight), peak, blobs)
    && scan == ScanOf(Flagged(low), Level(low, peakHeight), peak)
  }

  lemma {:induction false} LowAt(rows: seq<Row>, i: nat, peakHeight: nat)
    requires i < |rows|
    ensures Low(rows[..i + 1], peakHeight) == Low(rows[..i], peakHeight) + (if rows[i].height <= peakHeight
        then [rows[i]] else [])
    ensures Low(rows, peakHeight) == Low(rows[..i + 1], peakHeight) + Low(rows[i + 1..], peakHeight)
  {
    assert rows[..i + 1][..i] == rows[..i] && rows == rows[..i + 1] + rows[i + 1..];
    LowConcat(rows[..i + 1], rows[i + 1..], peakHeight);
  }

  /** The rows at the peak's height come first among those at or below it, and heights go down from there. */
  lemma {:induction false} LowRowBelow(rows: seq<Row>, i: nat, peakHeight: nat)
    requires Descending(rows) && i < |rows| && rows[i].height <= peakHeight && HasHeight(rows, peakHeight)
    ensures var low, level := Low(rows[..i], peakHeight), Level(Low(rows[..i], peakHeight), peakHeight);
            rows[i].height <= level && (rows[i].height < level ==> exists x | x in low :: x.height == level)
  {
    var low := Low(rows[..i], peakHeight);
    if low == [] {
      var x := RowOfHeight(rows, peakHeight);
      var j :| 0 <= j < |rows| && rows[j] == x;
      forall k | 0 <= k < i ensures rows[k].height > peakHeight { assert rows[..i][k] in rows[..i]; }
    } else {
      var last := low[|low| - 1];
      assert last in low;
      var j :| 0 <= j < |rows[..i]| && rows[..i][j] == last;
      assert rows[j] == last;
    }
  }

  lemma {:induction false} ScanStarts(peak: Hash, peakHeight: nat, blobs: bool)
    ensures Scanned([], Scan(peakHeight, peak, None), peak, peakHeight, blobs)
  {}

  /** A row that does not pass is fatal. */
  lemma {:induction false} RowFails(rows: seq<Row>, i: nat, scan: Scan, peak: Hash, peakHeight: nat, blobs: bool,
                                    genesisChallenge: Hash)
    requires Descending(rows) && i < |rows| && rows[i].height <= peakHeight && HasHeight(rows, peakHeight)
    requires Scanned(Low(rows[..i], peakHeight), scan, peak, peakHeight, blobs) && !Passes(scan, rows[i], blobs)
    ensures !PathStored(Low(rows, peakHeight), peak, genesisChallenge, blobs)
  {
    var low, r := Low(rows[..i], peakHeight), rows[i];
    LowAt(rows, i, peakHeight);
    LowDescending(rows, peakHeight);
    LowRowBelow(rows, i, peakHeight);
    RowDecides(low, Flagged(low), Level(low, peakHeight), r, peak, blobs);
    RowAdded(low, r);
    if PathStored(Low(rows, peakHeight), peak, genesisChallenge, blobs) {
      PathPrefix(low + [r], Low(rows[i + 1..], peakHeight), peak, peakHeight, genesisChallenge, blobs);
    }
  }

  /** A row that passes takes the scan on. */
  lemma {:induction false} RowPasses(low: seq<Row>, r: Row, scan: Scan, peak: Hash, peakHeight: nat, blobs: bool)
    requires Scanned(low, scan, peak, peakHeight, blobs) && Passes(scan, r, blobs)
    requires var level := Level(low, peakHeight);
             r.height <= level && (r.height < level ==> exists x | x in low :: x.height == level)
    ensures Scanned(low + [r], Advance(scan, r), peak, peakHeight, blobs)
  {
    var f, level := Flagged(low), Level(low, peakHeight);
    RowDecides(low, f, level, r, peak, blobs);
    RowSeen(low, f, level, r, peak, blobs);
    RowAdded(low, r);
    assert Flagged(low + [r]) == WithRow(f, r) && Level(low + [r], peakHeight) == r.height;
  }

  /** When all rows have passed, the last state decides. */
  lemma {:induction false} ScanEnds(rows: seq<Row>, scan: Scan, peak: Hash, peakHeight: nat, blobs: bool,
                                    genesisChallenge: Hash)
    requires HasHeight(rows, peakHeight) && Scanned(Low(rows, peakHeight), scan, peak, peakHeight, blobs)
    ensures PathStored(Low(rows, peakHeight), peak, genesisChallenge, blobs) <==>
        scan.current == 0 && scan.next == Some(genesisChallenge)
  {
    var low := Low(rows, peakHeight);
    var x := RowOfHeight(rows, peakHeight);
    assert low[|low| - 1] in low;
    EndDecides(low, Flagged(low), Level(low, peakHeight), peak, genesisChallenge, blobs);
  }

  /** One row of the scan; None when the program raises an error. */
  method ScanRow(scan: Scan, r: Row, validateBlocks: bool) returns (next: Option<Scan>)
    ensures next == if Passes(scan, r, validateBlocks) then Some(Advance(scan, r)) else None
  {
    if validateBlocks {
      if r.blobs.blockHash != r.hash { return None; }
      if r.blobs.recordHash != r.hash { return None; }
      if r.blobs.recordIters != r.blobs.blockIters { return None; }
      if r.blobs.recordPrev != r.blobs.blockPrev { return None; }
      if r.blobs.blockHeight != r.height { return None; }
    }
    var currentHeight, wanted, nextHash := scan.current, scan.wanted, scan.next;
    if r.height != currentHeight {
      if nextHash.None? { return None; }
      wanted, nextHash, currentHeight := nextHash.value, None, r.height;
    }
    if r.hash == wanted {
      if nextHash.Some? { return None; }
      if !r.inMainChain { return None; }
      if validateBlocks && r.blobs.blockPrev != r.prev { return None; }
      nextHash := Some(r.prev);
    } else {
      if r.inMainChain { return None; }
    }
    next := Some(Scan(currentHeight, wanted, nextHash));
  }

  method FindHeight(rows: seq<Row>, hash: Hash) returns (height: Option<nat>)
    ensures height == HeightOfHash(rows, hash)
    ensures height.Some? ==> HasHeight(rows, height.value)
  {
    height := None;
    for i := 0 to |rows|
      invariant height == HeightOfHash(rows[..i], hash)
      invariant height.Some? ==> HasHeight(rows, height.value)
    {
      assert rows[..i + 1][..i] == rows[..i];
      if height.None? && rows[i].hash == hash {
        height := Some(rows[i].height);
        HeightOf(rows, rows[i]);
      }
    }
    assert rows[..|rows|] == rows;
  }

  /** Goes over all rows; None when a row makes the program raise an error. */
  method ScanRows(rows: seq<Row>, peak: Hash, peakHeight: nat, validateBlocks: bool, ghost genesisChallenge: Hash)
    returns (end: Option<Scan>)
    requires Descending(rows) && HasHeight(rows, peakHeight)
    ensures end.Some? ==> Scanned(Low(rows, peakHeight), end.value, peak, peakHeight, validateBlocks)
    ensures end.None? ==> !PathStored(Low(rows, peakHeight), peak, genesisChallenge, validateBlocks)
  {
    var scan := Scan(peakHeight, peak, None);
    ScanStarts(peak, peakHeight, validateBlocks);
    ghost var low := [];
    for i := 0 to |rows|
      invariant low == Low(rows[..i], peakHeight) && Scanned(low, scan, peak, peakHeight, validateBlocks)
    {
      LowAt(rows, i, peakHeight);
      if rows[i].height > peakHeight { continue; }
      LowRowBelow(rows, i, peakHeight);
      var next := ScanRow(scan, rows[i], validateBlocks);
      if next.None? {
        RowFails(rows, i, scan, peak, peakHeight, validateBlocks, genesisChallenge);
        return None;
      }
      RowPasses(low, rows[i], scan, peak, peakHeight, validateBlocks);
      scan, low := next.value, low + [rows[i]];
    }
    assert rows[..|rows|] == rows;
    end := Some(scan);
  }

  /** Accepts a database exactly when its flagged rows are the path of parents from the peak. */
  method ValidateV2(version: Option<nat>, peak: Option<Hash>, rows: seq<Row>, genesisChallenge: Hash,
                    validateBlocks: bool)
    returns (valid: bool)
    requires Descending(rows)
    ensures valid <==>
      && version == Some(2) && peak.Some?
      && var peakHeight := HeightOfHash(rows, peak.value);
      && peakHeight.Some?
      && PathStored(Low(rows, peakHeight.value), peak.value, genesisChallenge, validateBlocks)
  {
    if version != Some(2) || peak.None? { return false; }
    var height := FindHeight(rows, peak.value);
    if height.None? { return false; }
    var end := ScanRows(rows, peak.value, height.value, validateBlocks, genesisChallenge);
    if end.None? { return false; }
    ScanEnds(rows, end.value, peak.value, height.value, validateBlocks, genesisChallenge);
    valid := end.value.current == 0 && end.value.next == Some(genesisChallenge);
  }

  // ---------------------------------------------------------------- gaps

  /** A stored path has consecutive heights exactly when every height up to the peak is stored. */
  lemma {:induction false} NoGaps(low: seq<Row>, peak: Hash, genesisChallenge: Hash, blobs: bool)
    requires PathStored(low, peak, genesisChallenge, blobs)
    ensures var peakHeight := Flagged(low)[0].height;
            (forall i | 0 <= i < |Flagged(low)| :: Flagged(low)[i].height == peakHeight - i) <==>
            (forall h | 0 <= h <= peakHeight :: HasHeight(low, h))
  {
    var f := Flagged(low);
    var peakHeight := f[0].height;
    if forall i | 0 <= i < |f| :: f[i].height == peakHeight - i {
      forall h | 0 <= h <= peakHeight ensures HasHeight(low, h) {
        assert f[peakHeight - h] in f;
        HeightOf(low, f[peakHeight - h]);
      }
    }
    if forall h | 0 <= h <= peakHeight :: HasHeight(low, h) {
      forall i | 0 <= i < |f| ensures f[i].height == peakHeight - i {
        Consecutive(low, f, peak, peakHeight, i);
      }
    }
  }

  lemma {:induction false} Consecutive(low: seq<Row>, f: seq<Row>, peak: Hash, peakHeight: nat, i: nat)
    requires Linked(f, peak) && i < |f| && f[0].height == peakHeight && (forall r | r in low :: HasHeight(f, r.height))
    requires forall h | 0 <= h <= peakHeight :: HasHeight(low, h)
    ensures f[i].height == peakHeight - i
  {
    if i > 0 {
      Consecutive(low, f, peak, peakHeight, i - 1);
      var h := peakHeight - i;
      assert f[i].height <= h;
      var r := RowOfHeight(low, h);
      var m := RowOfHeight(f, h);
      var j :| 0 <= j < |f| && f[j] == m;
      if j < i - 1 { Decreasing(f, peak, j, i - 1); }
      if i < j { Decreasing(f, peak, i, j); }
    }
  }

  lemma {:induction false} TwoRows(a: Row, b: Row)
    requires a.inMainChain && b.inMainChain
    ensures Flagged([a, b]) == [a, b] && Heights([a, b]) == {a.height, b.height}
  {
    assert [a, b][..1] == [a] && [a][..0] == [];
    assert Flagged([a]) == [a] && Heights([a]) == {a.height};
  }

  /** A database with a gap that is accepted: heights 2 and 0 are stored, height 1 is not. */
  lemma {:induction false} GapAccepted(peak: Row, genesis: Row)
    requires peak.inMainChain && genesis.inMainChain && peak.height == 2 && genesis.height == 0
             && genesis.hash == peak.prev
    ensures PathStored([peak, genesis], peak.hash, genesis.prev, false) && !HasHeight([peak, genesis], 1)
  {
    TwoRows(peak, genesis);
    assert forall r | r in [peak, genesis] :: r == peak || r == genesis;
  }
}
