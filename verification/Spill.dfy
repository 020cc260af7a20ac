/** Partitioning and sorting a table's rows in bounded memory: `src/tape/bake/spill.py`. */
module Spill {
  import opened Prelude

  datatype Row = Row(partition: Key, sortKey: Key, payload: int)

  /** A row with its place in the order rows were added. */
  datatype Numbered = Numbered(ordinal: nat, row: Row)

  /** Rows `first` up to `end` of one bucket, in the order they were added. */
  datatype Range = Range(bucket: nat, first: nat, end: nat)

  datatype Batch = Batch(bucket: nat, rows: seq<Numbered>)

  // ------------------------------------------------------------------ what a range holds

  /** How many rows of some kind are among the first `i` of bucket `b`, as `tally(b, i)`. */
  type Tally = (nat, nat) -> int

  /** How many such rows some ranges take. */
  ghost function Amount(rs: seq<Range>, tally: Tally): int {
    if rs == [] then 0 else
      var r := rs[|rs| - 1];
      Amount(rs[..|rs| - 1], tally) + tally(r.bucket, r.end) - tally(r.bucket, r.first)
  }

  ghost function Amounts(parts: seq<seq<Range>>, tally: Tally): int {
    if parts == [] then 0 else Amounts(parts[..|parts| - 1], tally) + Amount(parts[|parts| - 1], tally)
  }

  /** How many there are in all buckets. */
  ghost function Everything(bucketRows: seq<nat>, tally: Tally): int {
    if bucketRows == [] then 0 else
      var b := |bucketRows| - 1;
      Everything(bucketRows[..b], tally) + tally(b, bucketRows[b]) - tally(b, 0)
  }

  function Size(rs: seq<Range>): nat {
    if rs == [] then 0 else
        Size(rs[..|rs| - 1])
        + (if rs[|rs| - 1].first < rs[|rs| - 1].end then rs[|rs| - 1].end - rs[|rs| - 1].first else 0)
  }

  lemma AmountSnoc(rs: seq<Range>, r: Range, tally: Tally)
    ensures Amount(rs + [r], tally) == Amount(rs, tally) + tally(r.bucket, r.end) - tally(r.bucket, r.first)
  {
    assert (rs + [r])[..|rs|] == rs;
  }

  lemma SizeSnoc(rs: seq<Range>, r: Range)
    ensures Size(rs + [r]) == Size(rs) + (if r.first < r.end then r.end - r.first else 0)
  {
    assert (rs + [r])[..|rs|] == rs;
  }

  lemma AmountsSnoc(parts: seq<seq<Range>>, part: seq<Range>, tally: Tally)
    ensures Amounts(parts + [part], tally) == Amounts(parts, tally) + Amount(part, tally)
  {
    assert (parts + [part])[..|parts|] == parts;
  }

  lemma {:induction false} AmountsJoin(a: seq<seq<Range>>, b: seq<seq<Range>>, tally: Tally)
    ensures Amounts(a + b, tally) == Amounts(a, tally) + Amounts(b, tally)
  {
    if b == [] {
      assert a + b == a;
    } else {
      var init, last := b[..|b| - 1], b[|b| - 1];
      assert a + b == (a + init) + [last];
      AmountsSnoc(a + init, last, tally);
      AmountsJoin(a, init, tally);
    }
  }

  lemma AmountsOne(r: Range, tally: Tally)
    ensures Amounts([[r]], tally) == tally(r.bucket, r.end) - tally(r.bucket, r.first)
  {
    AmountsSnoc([], [r], tally);
    assert [] + [[r]] == [[r]];
    AmountSnoc([], r, tally);
    assert [] + [r] == [r];
  }

  // ------------------------------------------------------------------ laying buckets out in parts

  datatype Layout = Layout(parts: seq<seq<Range>>, current: seq<Range>, currentRows: nat)

  /** The full-sized ranges a bucket too large for one part is cut into. */
  function Cuts(bucket: nat, first: nat, rows: nat, max: nat): seq<seq<Range>>
    requires max > 0 && first <= rows
    decreases rows - first
  {
    if rows - first > max then [[Range(bucket, first, first + max)]] + Cuts(bucket, first + max, rows, max) else []
  }

  function CutTo(first: nat, rows: nat, max: nat): (r: nat)
    requires max > 0 && first <= rows
    ensures first <= r <= rows && rows - r <= max && (first < rows ==> r < rows)
    decreases rows - first
  {
    if rows - first > max then CutTo(first + max, rows, max) else first
  }

  function MakeRoom(l: Layout, rows: nat, max: nat): Layout {
    if l.currentRows + rows > max && l.current != [] then Layout(l.parts + [l.current], [], 0) else l
  }

  function Placed(l: Layout, bucket: nat, rows: nat, max: nat): Layout
    requires max > 0
  {
    if rows == 0 then l else
      var roomy, first := MakeRoom(l, rows, max), CutTo(0, rows, max);
      Layout(roomy.parts + Cuts(bucket, 0, rows, max), roomy.current + [Range(bucket, first, rows)],
          roomy.currentRows + rows - first)
  }

  function LaidOut(bucketRows: seq<nat>, max: nat): Layout
    requires max > 0
  {
    if bucketRows == [] then Layout([], [], 0)
    else Placed(LaidOut(bucketRows[..|bucketRows| - 1], max), |bucketRows| - 1, bucketRows[|bucketRows| - 1], max)
  }

  function Plan(bucketRows: seq<nat>, max: nat): seq<seq<Range>>
    requires max > 0
  {
    var l := LaidOut(bucketRows, max);
    if l.current != [] then l.parts + [l.current] else l.parts
  }

  method PlanParts(bucketRows: seq<nat>, max: nat) returns (parts: seq<seq<Range>>)
    requires max > 0
    ensures parts == Plan(bucketRows, max)
  {
    parts := [];
    var current, currentRows: nat := [], 0;
    for bucket := 0 to |bucketRows|
      invariant Layout(parts, current, currentRows) == LaidOut(bucketRows[..bucket], max)
    {
      assert bucketRows[..bucket + 1][..bucket] == bucketRows[..bucket];
      var rows := bucketRows[bucket];
      if rows != 0 {
        if currentRows + rows > max && current != [] {
          parts, current, currentRows := parts + [current], [], 0;
        }
        ghost var before := parts;
        var first := 0;
        while rows - first > max
          invariant first <= rows && CutTo(first, rows, max) == CutTo(0, rows, max)
          invariant before + Cuts(bucket, 0, rows, max) == parts + Cuts(bucket, first, rows, max)
        {
          ghost var was, rest := parts, Cuts(bucket, first + max, rows, max);
          parts := parts + [[Range(bucket, first, first + max)]];
          assert was + ([[Range(bucket, first, first + max)]] + rest) == parts + rest;
          first := first + max;
        }
        current, currentRows := current + [Range(bucket, first, rows)], currentRows + (rows - first);
      }
    }
    assert bucketRows[..|bucketRows|] == bucketRows;
    if current != [] { parts := parts + [current]; }
  }

  ghost predicate Bounded(parts: seq<seq<Range>>, max: nat) {
    forall i :: 0 <= i < |parts| ==> parts[i] != [] && 0 < Size(parts[i]) <= max
  }

  lemma {:induction false} CutsAreBounded(bucket: nat, first: nat, rows: nat, max: nat)
    requires max > 0 && first <= rows
    ensures Bounded(Cuts(bucket, first, rows, max), max)
    decreases rows - first
  {
    if rows - first > max {
      CutsAreBounded(bucket, first + max, rows, max);
      SizeSnoc([], Range(bucket, first, first + max));
      assert [] + [Range(bucket, first, first + max)] == [Range(bucket, first, first + max)];
    }
  }

  lemma {:induction false} CutsTile(bucket: nat, first: nat, rows: nat, max: nat, tally: Tally)
    requires max > 0 && first <= rows
    ensures Amounts(Cuts(bucket, first, rows, max), tally) ==
            tally(bucket, CutTo(first, rows, max)) - tally(bucket, first)
    decreases rows - first
  {
    if rows - first > max {
      CutsTile(bucket, first + max, rows, max, tally);
      AmountsJoin([[Range(bucket, first, first + max)]], Cuts(bucket, first + max, rows, max), tally);
      AmountsOne(Range(bucket, first, first + max), tally);
    }
  }

  lemma CutLeavesRoom(rows: nat, max: nat)
    requires 0 < rows && max > 0
    ensures rows <= max ==> CutTo(0, rows, max) == 0
    ensures 0 < rows - CutTo(0, rows, max) <= max
  {
  }

  ghost predicate WellLaid(l: Layout, max: nat) {
    Bounded(l.parts, max) && Size(l.current) == l.currentRows <= max && (l.current == [] <==> l.currentRows == 0)
  }

  lemma MakeRoomKeeps(l: Layout, rows: nat, max: nat)
    requires WellLaid(l, max)
    ensures WellLaid(MakeRoom(l, rows, max), max)
    ensures MakeRoom(l, rows, max).current == [] || MakeRoom(l, rows, max).currentRows + rows <= max
  {
  }

  lemma {:induction false} LayoutIsBounded(bucketRows: seq<nat>, max: nat)
    requires max > 0
    ensures WellLaid(LaidOut(bucketRows, max), max)
  {
    if bucketRows != [] {
      var init, bucket, rows := bucketRows[..|bucketRows| - 1], |bucketRows| - 1, bucketRows[|bucketRows| - 1];
      LayoutIsBounded(init, max);
      if rows != 0 {
        var roomy, first := MakeRoom(LaidOut(init, max), rows, max), CutTo(0, rows, max);
        MakeRoomKeeps(LaidOut(init, max), rows, max);
        CutsAreBounded(bucket, 0, rows, max);
        CutLeavesRoom(rows, max);
        SizeSnoc(roomy.current, Range(bucket, first, rows));
        BoundedJoin(roomy.parts, Cuts(bucket, 0, rows, max), max);
      }
    }
  }

  lemma BoundedJoin(a: seq<seq<Range>>, b: seq<seq<Range>>, max: nat)
    requires Bounded(a, max) && Bounded(b, max)
    ensures Bounded(a + b, max)
  {
  }

  lemma {:induction false} LayoutTiles(bucketRows: seq<nat>, max: nat, tally: Tally)
    requires max > 0
    ensures Amounts(LaidOut(bucketRows, max).parts, tally) + Amount(LaidOut(bucketRows, max).current, tally) ==
            Everything(bucketRows, tally)
  {
    if bucketRows != [] {
      var init, bucket, rows := bucketRows[..|bucketRows| - 1], |bucketRows| - 1, bucketRows[|bucketRows| - 1];
      LayoutTiles(init, max, tally);
      if rows != 0 {
        var before := LaidOut(init, max);
        var roomy := MakeRoom(before, rows, max);
        AmountsSnoc(before.parts, before.current, tally);
        AmountsJoin(roomy.parts, Cuts(bucket, 0, rows, max), tally);
        AmountSnoc(roomy.current, Range(bucket, CutTo(0, rows, max), rows), tally);
        CutsTile(bucket, 0, rows, max, tally);
      }
    }
  }

  /** No part is empty or too large, and together the parts take every row of every bucket exactly once:
      of whatever kind of rows there are as many in the parts as in the buckets. */
  lemma PlanIsExact(bucketRows: seq<nat>, max: nat, tally: Tally)
    requires max > 0
    ensures Bounded(Plan(bucketRows, max), max)
    ensures Amounts(Plan(bucketRows, max), tally) == Everything(bucketRows, tally)
  {
    var l := LaidOut(bucketRows, max);
    LayoutIsBounded(bucketRows, max);
    LayoutTiles(bucketRows, max, tally);
    AmountsSnoc(l.parts, l.current, tally);
  }

  ghost predicate Fit(rs: seq<Range>, bucketRows: seq<nat>) {
    forall i :: 0 <= i < |rs| ==> rs[i].bucket < |bucketRows| && rs[i].first <= rs[i].end <= bucketRows[rs[i].bucket]
  }

  ghost predicate AllFit(parts: seq<seq<Range>>, bucketRows: seq<nat>) {
    forall i :: 0 <= i < |parts| ==> Fit(parts[i], bucketRows)
  }

  lemma {:induction false} CutsFit(bucket: nat, first: nat, rows: nat, max: nat, bucketRows: seq<nat>)
    requires max > 0 && first <= rows && bucket < |bucketRows| && bucketRows[bucket] == rows
    ensures AllFit(Cuts(bucket, first, rows, max), bucketRows)
    decreases rows - first
  {
    if rows - first > max { CutsFit(bucket, first + max, rows, max, bucketRows); }
  }

  lemma FitMore(rs: seq<Range>, init: seq<nat>, bucketRows: seq<nat>)
    requires Fit(rs, init) && |init| <= |bucketRows| && init == bucketRows[..|init|]
    ensures Fit(rs, bucketRows)
  {
  }

  lemma {:induction false} LayoutFits(bucketRows: seq<nat>, max: nat)
    requires max > 0
    ensures AllFit(LaidOut(bucketRows, max).parts, bucketRows) && Fit(LaidOut(bucketRows, max).current, bucketRows)
  {
    if bucketRows != [] {
      var init, bucket, rows := bucketRows[..|bucketRows| - 1], |bucketRows| - 1, bucketRows[|bucketRows| - 1];
      LayoutFits(init, max);
      var before := LaidOut(init, max);
      FitMore(before.current, init, bucketRows);
      forall i | 0 <= i < |before.parts|
        ensures Fit(before.parts[i], bucketRows)
      {
        FitMore(before.parts[i], init, bucketRows);
      }
      if rows != 0 { CutsFit(bucket, 0, rows, max, bucketRows); }
    }
  }

  // ------------------------------------------------------------------ rows by bucket

  const SPILL_BUCKETS: nat := 64

  /** The hash of a partition key is any function. */
  function BucketOf(hash: Key -> nat, r: Row): nat {
    hash(r.partition) % SPILL_BUCKETS
  }

  function InBucket(ns: seq<Numbered>, b: nat, hash: Key -> nat): seq<Numbered> {
    if ns == [] then [] else
      var n := ns[|ns| - 1];
      InBucket(ns[..|ns| - 1], b, hash) + (if BucketOf(hash, n.row) == b then [n] else [])
  }

  lemma {:induction false} InBucketJoin(a: seq<Numbered>, c: seq<Numbered>, b: nat, hash: Key -> nat)
    ensures InBucket(a + c, b, hash) == InBucket(a, b, hash) + InBucket(c, b, hash)
  {
    if c == [] {
      assert a + c == a;
    } else {
      InBucketJoin(a, c[..|c| - 1], b, hash);
      assert (a + c)[..|a + c| - 1] == a + c[..|c| - 1];
    }
  }

  function NumberedFrom(rows: seq<Row>, from: nat): (r: seq<Numbered>)
    ensures |r| == |rows| && forall i :: 0 <= i < |rows| ==> r[i] == Numbered(from + i, rows[i])
  {
    seq(|rows|, i requires 0 <= i < |rows| => Numbered(from + i, rows[i]))
  }

  /** The rows of one bucket in the spill file. */
  function FileRows(batches: seq<Batch>, b: nat): seq<Numbered> {
    if batches == [] then [] else
      var last := batches[|batches| - 1];
      FileRows(batches[..|batches| - 1], b) + (if last.bucket == b then last.rows else [])
  }

  lemma FileRowsSnoc(batches: seq<Batch>, last: Batch, b: nat)
    ensures FileRows(batches + [last], b) == FileRows(batches, b) + (if last.bucket == b then last.rows else [])
  {
    assert (batches + [last])[..|batches|] == batches;
  }

  // ------------------------------------------------------------------ counting rows

  /** How often a row is among others. */
  ghost function Times(xs: seq<Numbered>, x: Numbered): nat {
    if xs == [] then 0 else Times(xs[..|xs| - 1], x) + (if xs[|xs| - 1] == x then 1 else 0)
  }

  lemma TimesSnoc(xs: seq<Numbered>, last: Numbered, x: Numbered)
    ensures Times(xs + [last], x) == Times(xs, x) + (if last == x then 1 else 0)
  {
    assert (xs + [last])[..|xs|] == xs;
  }

  lemma {:induction false} TimesJoin(a: seq<Numbered>, b: seq<Numbered>, x: Numbered)
    ensures Times(a + b, x) == Times(a, x) + Times(b, x)
  {
    if b == [] {
      assert a + b == a;
    } else {
      TimesJoin(a, b[..|b| - 1], x);
      assert (a + b)[..|a + b| - 1] == a + b[..|b| - 1];
    }
  }

  function Clamp(i: int, n: nat): (r: nat)
    ensures r <= n
  {
    if i < 0 then 0 else if i < n then i else n
  }

  /** How often `x` is among the first `i` of `xs`. */
  ghost function TimesUpTo(xs: seq<Numbered>, i: int, x: Numbered): nat {
    Times(xs[..Clamp(i, |xs|)], x)
  }

  lemma TimesBetween(xs: seq<Numbered>, low: nat, high: nat, x: Numbered)
    requires low <= high <= |xs|
    ensures Times(xs[low..high], x) == TimesUpTo(xs, high, x) - TimesUpTo(xs, low, x)
  {
    TimesJoin(xs[..low], xs[low..high], x);
    assert xs[..low] + xs[low..high] == xs[..high];
  }

  lemma TimesUpToJoin(a: seq<Numbered>, b: seq<Numbered>, i: int, x: Numbered)
    ensures TimesUpTo(a + b, i, x) == TimesUpTo(a, i, x) + TimesUpTo(b, i - |a|, x)
  {
    if i <= |a| {
      assert (a + b)[..Clamp(i, |a + b|)] == a[..Clamp(i, |a|)];
      assert b[..Clamp(i - |a|, |b|)] == [];
    } else {
      assert (a + b)[..Clamp(i, |a + b|)] == a + b[..Clamp(i - |a|, |b|)];
      assert a[..Clamp(i, |a|)] == a;
      TimesJoin(a, b[..Clamp(i - |a|, |b|)], x);
    }
  }

  ghost function FileTally(batches: seq<Batch>, x: Numbered): Tally {
    (b: nat, i: nat) => TimesUpTo(FileRows(batches, b), i, x)
  }

  // ------------------------------------------------------------------ reading a part back

  /** What one batch contributes to a range; `seen` rows of its bucket came before it. */
  function Piece(batch: Batch, seen: nat, r: Range): seq<Numbered> {
    var low, high := Max(r.first, seen), Min(r.end, seen + |batch.rows|);
    if r.bucket == batch.bucket && low < high then Slice(batch.rows, low - seen, high - low) else []
  }

  /** `slice(offset, length)` of a record batch. */
  function Slice(rows: seq<Numbered>, offset: int, length: int): seq<Numbered> {
    if 0 <= offset && 0 <= length && offset + length <= |rows| then rows[offset..offset + length] else []
  }

  function Taken(batch: Batch, seen: nat, rs: seq<Range>): seq<Numbered> {
    if rs == [] then [] else Taken(batch, seen, rs[..|rs| - 1]) + Piece(batch, seen, rs[|rs| - 1])
  }

  function Gathered(batches: seq<Batch>, rs: seq<Range>): seq<Numbered> {
    if batches == [] then [] else
      var init, last := batches[..|batches| - 1], batches[|batches| - 1];
      Gathered(init, rs) + Taken(last, |FileRows(init, last.bucket)|, rs)
  }

  /** `_batches`: the intersection of each batch with each range of its bucket, in spill order. */
  method Gather(batches: seq<Batch>, rs: seq<Range>) returns (rows: seq<Numbered>)
    requires forall k :: 0 <= k < |batches| ==> batches[k].bucket < SPILL_BUCKETS
    ensures rows == Gathered(batches, rs)
  {
    var seen: seq<nat> := seq(SPILL_BUCKETS, i => 0);
    rows := [];
    for k := 0 to |batches|
      invariant rows == Gathered(batches[..k], rs)
      invariant |seen| == SPILL_BUCKETS && forall b :: 0 <= b < SPILL_BUCKETS ==> seen[b] == |FileRows(batches[..k], b)|
    {
      var batch := batches[k];
      assert batches[..k + 1][..k] == batches[..k];
      var batchFirst := seen[batch.bucket];
      seen := seen[batch.bucket := batchFirst + |batch.rows|];
      var pieces := TakeEach(batch, batchFirst, rs);
      rows := rows + pieces;
    }
    assert batches[..|batches|] == batches;
  }

  method TakeEach(batch: Batch, seen: nat, rs: seq<Range>) returns (rows: seq<Numbered>)
    ensures rows == Taken(batch, seen, rs)
  {
    rows := [];
    for j := 0 to |rs|
      invariant rows == Taken(batch, seen, rs[..j])
    {
      TakenNext(batch, seen, rs, j);
      rows := rows + Piece(batch, seen, rs[j]);
    }
    assert rs[..|rs|] == rs;
  }

  lemma TakenNext(batch: Batch, seen: nat, rs: seq<Range>, j: nat)
    requires j < |rs|
    ensures Taken(batch, seen, rs[..j + 1]) == Taken(batch, seen, rs[..j]) + Piece(batch, seen, rs[j])
  {
    assert rs[..j + 1][..j] == rs[..j];
  }

  /** The rows from `first` to `end`, as far as there are any. */
  function Middle(rows: seq<Numbered>, first: int, end: int): seq<Numbered> {
    var low, high := Clamp(first, |rows|), Clamp(end, |rows|);
    if low < high then rows[low..high] else []
  }

  lemma MiddleTimes(rows: seq<Numbered>, first: int, end: int, x: Numbered)
    requires first <= end
    ensures Times(Middle(rows, first, end), x) == TimesUpTo(rows, end, x) - TimesUpTo(rows, first, x)
  {
    var low, high := Clamp(first, |rows|), Clamp(end, |rows|);
    if low < high { TimesBetween(rows, low, high, x); } else { assert low == high; }
  }

  /** The intersection of a batch with a range of its bucket is the rows of the batch that the range wants. */
  lemma PieceIsMiddle(batch: Batch, seen: nat, r: Range)
    requires r.first <= r.end && r.bucket == batch.bucket
    ensures Piece(batch, seen, r) == Middle(batch.rows, r.first - seen, r.end - seen)
  {
  }

  lemma PieceOfBucket(batch: Batch, before: seq<Numbered>, r: Range, x: Numbered)
    requires r.first <= r.end && r.bucket == batch.bucket
    ensures Times(Piece(batch, |before|, r), x) ==
            (TimesUpTo(before + batch.rows, r.end, x) - TimesUpTo(before + batch.rows, r.first, x))
            - (TimesUpTo(before, r.end, x) - TimesUpTo(before, r.first, x))
  {
    PieceIsMiddle(batch, |before|, r);
    MiddleTimes(batch.rows, r.first - |before|, r.end - |before|, x);
    TimesUpToJoin(before, batch.rows, r.end, x);
    TimesUpToJoin(before, batch.rows, r.first, x);
  }

  lemma TallyIs(batches: seq<Batch>, x: Numbered, b: nat, i: nat)
    ensures FileTally(batches, x)(b, i) == TimesUpTo(FileRows(batches, b), i, x)
  {
  }

  lemma PieceTally(batches: seq<Batch>, batch: Batch, r: Range, x: Numbered)
    requires r.first <= r.end
    ensures Times(Piece(batch, |FileRows(batches, batch.bucket)|, r), x) ==
            (TimesUpTo(FileRows(batches + [batch], r.bucket), r.end,
                x) - TimesUpTo(FileRows(batches + [batch], r.bucket), r.first, x))
            - (TimesUpTo(FileRows(batches, r.bucket), r.end, x) - TimesUpTo(FileRows(batches, r.bucket), r.first, x))
  {
    FileRowsSnoc(batches, batch, r.bucket);
    if r.bucket == batch.bucket {
      PieceOfBucket(batch, FileRows(batches, batch.bucket), r, x);
    } else {
      assert FileRows(batches + [batch], r.bucket) == FileRows(batches, r.bucket);
    }
  }

  lemma {:induction false} TakenTally(batches: seq<Batch>, batch: Batch, rs: seq<Range>, x: Numbered)
    requires forall i :: 0 <= i < |rs| ==> rs[i].first <= rs[i].end
    ensures Times(Taken(batch, |FileRows(batches, batch.bucket)|, rs), x) ==
            Amount(rs, FileTally(batches + [batch], x)) - Amount(rs, FileTally(batches, x))
  {
    if rs != [] {
      var init, r, seen := rs[..|rs| - 1], rs[|rs| - 1], |FileRows(batches, batch.bucket)|;
      TakenTally(batches, batch, init, x);
      PieceTally(batches, batch, r, x);
      TallyIs(batches, x, r.bucket, r.end);
      TallyIs(batches, x, r.bucket, r.first);
      TallyIs(batches + [batch], x, r.bucket, r.end);
      TallyIs(batches + [batch], x, r.bucket, r.first);
      TimesJoin(Taken(batch, seen, init), Piece(batch, seen, r), x);
    }
  }

  lemma {:induction false} NothingGathered(rs: seq<Range>, x: Numbered)
    ensures Amount(rs, FileTally([], x)) == 0
  {
    if rs != [] { NothingGathered(rs[..|rs| - 1], x); }
  }

  lemma GatheredSnoc(init: seq<Batch>, last: Batch, rs: seq<Range>, x: Numbered)
    requires forall i :: 0 <= i < |rs| ==> rs[i].first <= rs[i].end
    ensures Times(Gathered(init + [last], rs), x) ==
            Times(Gathered(init, rs), x) + Amount(rs, FileTally(init + [last], x)) - Amount(rs, FileTally(init, x))
  {
    assert (init + [last])[..|init|] == init;
    TakenTally(init, last, rs, x);
    TimesJoin(Gathered(init, rs), Taken(last, |FileRows(init, last.bucket)|, rs), x);
  }

  /** Slicing batches gives each range exactly its rows. */
  lemma {:induction false} GatheredTally(batches: seq<Batch>, rs: seq<Range>, x: Numbered)
    requires forall i :: 0 <= i < |rs| ==> rs[i].first <= rs[i].end
    ensures Times(Gathered(batches, rs), x) == Amount(rs, FileTally(batches, x))
  {
    if batches == [] {
      NothingGathered(rs, x);
    } else {
      var init, last := batches[..|batches| - 1], batches[|batches| - 1];
      GatheredTally(init, rs, x);
      assert batches == init + [last];
      GatheredSnoc(init, last, rs, x);
    }
  }

  // ------------------------------------------------------------------ sorting a part

  /** By sort key, rows with the same key in the order they were added. */
  predicate Precedes(a: Numbered, b: Numbered) {
    a.row.sortKey.rank < b.row.sortKey.rank || (a.row.sortKey.rank == b.row.sortKey.rank && a.ordinal <= b.ordinal)
  }

  ghost predicate Ordered(xs: seq<Numbered>) {
    forall i, j :: 0 <= i < j < |xs| ==> Precedes(xs[i], xs[j])
  }

  function Inserted(x: Numbered, xs: seq<Numbered>): seq<Numbered> {
    if xs == [] then [x]
    else if Precedes(xs[|xs| - 1], x) then xs + [x]
    else Inserted(x, xs[..|xs| - 1]) + [xs[|xs| - 1]]
  }

  /** A sort by key and ordinal. */
  function Arranged(xs: seq<Numbered>): seq<Numbered> {
    if xs == [] then [] else Inserted(xs[|xs| - 1], Arranged(xs[..|xs| - 1]))
  }

  lemma {:induction false} InsertedTimes(x: Numbered, xs: seq<Numbered>, y: Numbered)
    ensures Times(Inserted(x, xs), y) == Times(xs, y) + (if x == y then 1 else 0)
  {
    if xs == [] {
      TimesSnoc([], x, y);
      assert [] + [x] == [x];
    } else if Precedes(xs[|xs| - 1], x) {
      TimesSnoc(xs, x, y);
    } else {
      InsertedTimes(x, xs[..|xs| - 1], y);
      TimesSnoc(Inserted(x, xs[..|xs| - 1]), xs[|xs| - 1], y);
    }
  }

  lemma {:induction false} InsertedOrdered(x: Numbered, xs: seq<Numbered>)
    requires Ordered(xs)
    ensures Ordered(Inserted(x, xs)) && |Inserted(x, xs)| == |xs| + 1
    ensures forall i :: 0 <= i <= |xs| ==> Inserted(x, xs)[i] == x || Inserted(x, xs)[i] in xs
  {
    if xs != [] && !Precedes(xs[|xs| - 1], x) {
      var init, last := xs[..|xs| - 1], xs[|xs| - 1];
      InsertedOrdered(x, init);
      var front := Inserted(x, init);
      forall i | 0 <= i < |front| ensures Precedes(front[i], last) && (front[i] == x || front[i] in xs) {
        if front[i] != x {
          var j :| 0 <= j < |init| && init[j] == front[i];
          assert xs[j] == front[i];
        }
      }
    }
  }

  lemma {:induction false} ArrangedIsSorted(xs: seq<Numbered>, y: Numbered)
    ensures Ordered(Arranged(xs)) && |Arranged(xs)| == |xs| && Times(Arranged(xs), y) == Times(xs, y)
  {
    if xs != [] {
      ArrangedIsSorted(xs[..|xs| - 1], y);
      InsertedOrdered(xs[|xs| - 1], Arranged(xs[..|xs| - 1]));
      InsertedTimes(xs[|xs| - 1], Arranged(xs[..|xs| - 1]), y);
    }
  }

  lemma {:induction false} TimesMember(xs: seq<Numbered>, y: Numbered)
    ensures Times(xs, y) > 0 <==> y in xs
  {
    if xs != [] {
      TimesMember(xs[..|xs| - 1], y);
      assert xs == xs[..|xs| - 1] + [xs[|xs| - 1]];
    }
  }

  /** Rows with the same place are the same row. */
  ghost predicate OrdinalsDecide(xs: seq<Numbered>) {
    forall i, j :: 0 <= i < |xs| && 0 <= j < |xs| && xs[i].ordinal == xs[j].ordinal ==> xs[i] == xs[j]
  }

  ghost predicate SameRows(a: seq<Numbered>, b: seq<Numbered>) {
    forall y :: Times(a, y) == Times(b, y)
  }

  lemma FirstIsThere(xs: seq<Numbered>)
    ensures xs != [] ==> Times(xs, xs[0]) > 0
  {
    if xs != [] { TimesMember(xs, xs[0]); }
  }

  lemma LastIsLast(a: seq<Numbered>, b: seq<Numbered>)
    requires a != [] && b != [] && Ordered(a) && Ordered(b) && OrdinalsDecide(a) && SameRows(a, b)
    ensures a[|a| - 1] == b[|b| - 1]
  {
    var p, q := a[|a| - 1], b[|b| - 1];
    TimesMember(a, p);
    TimesMember(b, p);
    TimesMember(a, q);
    TimesMember(b, q);
    var i :| 0 <= i < |a| && a[i] == q;
    var j :| 0 <= j < |b| && b[j] == p;
    assert Precedes(q, p) && Precedes(p, q);
  }

  lemma WithoutLast(a: seq<Numbered>, b: seq<Numbered>, last: Numbered)
    requires SameRows(a + [last], b + [last])
    ensures SameRows(a, b)
  {
    forall y ensures Times(a, y) == Times(b, y) {
      TimesSnoc(a, last, y);
      TimesSnoc(b, last, y);
    }
  }

  /** There is only one way to sort the same rows. */
  lemma {:induction false} SortingIsUnique(a: seq<Numbered>, b: seq<Numbered>)
    requires Ordered(a) && Ordered(b) && OrdinalsDecide(a) && SameRows(a, b)
    ensures a == b
    decreases |a|
  {
    FirstIsThere(a);
    FirstIsThere(b);
    if a != [] && b != [] {
      LastIsLast(a, b);
      assert a == a[..|a| - 1] + [a[|a| - 1]] && b == b[..|b| - 1] + [a[|a| - 1]];
      WithoutLast(a[..|a| - 1], b[..|b| - 1], a[|a| - 1]);
      SortingIsUnique(a[..|a| - 1], b[..|b| - 1]);
    }
  }

  // ------------------------------------------------------------------ what the parts are

  function NumberedRows(rows: seq<Row>): seq<Numbered> {
    NumberedFrom(rows, 0)
  }

  function RowsIn(rows: seq<Row>, b: nat, hash: Key -> nat): seq<Numbered> {
    InBucket(NumberedRows(rows), b, hash)
  }

  function BucketRows(rows: seq<Row>, hash: Key -> nat): (r: seq<nat>)
    ensures |r| == SPILL_BUCKETS
  {
    seq(SPILL_BUCKETS, b requires 0 <= b < SPILL_BUCKETS => |RowsIn(rows, b, hash)|)
  }

  ghost function RowsTally(rows: seq<Row>, hash: Key -> nat, x: Numbered): Tally {
    (b: nat, i: nat) => TimesUpTo(RowsIn(rows, b, hash), i, x)
  }

  /** A part's rows read straight from the rows added: each range of the bucket's rows. */
  ghost function Direct(rs: seq<Range>, rows: seq<Row>, hash: Key -> nat): seq<Numbered> {
    if rs == [] then [] else
      var r := rs[|rs| - 1];
      Direct(rs[..|rs| - 1], rows, hash) + Between(RowsIn(rows, r.bucket, hash), r.first, r.end)
  }

  ghost function Between(xs: seq<Numbered>, first: nat, end: nat): seq<Numbered> {
    if first <= end <= |xs| then xs[first..end] else []
  }

  /** The parts a table's rows are written as: no word about how often they were spilled. */
  ghost function Parts(rows: seq<Row>, hash: Key -> nat, max: nat): (r: seq<seq<Numbered>>)
    requires max > 0
    ensures |r| == |Plan(BucketRows(rows, hash), max)|
  {
    var plan := Plan(BucketRows(rows, hash), max);
    seq(|plan|, i requires 0 <= i < |plan| => Arranged(Direct(plan[i], rows, hash)))
  }

  lemma RowsTallyIs(rows: seq<Row>, hash: Key -> nat, x: Numbered, b: nat, i: nat)
    ensures RowsTally(rows, hash, x)(b, i) == TimesUpTo(RowsIn(rows, b, hash), i, x)
  {
  }

  lemma {:induction false} DirectTally(rs: seq<Range>, rows: seq<Row>, hash: Key -> nat, x: Numbered)
    requires Fit(rs, BucketRows(rows, hash))
    ensures Times(Direct(rs, rows, hash), x) == Amount(rs, RowsTally(rows, hash, x))
            && |Direct(rs, rows, hash)| == Size(rs)
  {
    if rs != [] {
      var init, r := rs[..|rs| - 1], rs[|rs| - 1];
      DirectTally(init, rows, hash, x);
      var xs := RowsIn(rows, r.bucket, hash);
      TimesBetween(xs, r.first, r.end, x);
      TimesJoin(Direct(init, rows, hash), xs[r.first..r.end], x);
      assert Direct(rs, rows, hash) == Direct(init, rows, hash) + xs[r.first..r.end];
      RowsTallyIs(rows, hash, x, r.bucket, r.end);
      RowsTallyIs(rows, hash, x, r.bucket, r.first);
    }
  }

  lemma {:induction false} InBucketTimes(ns: seq<Numbered>, b: nat, hash: Key -> nat, x: Numbered)
    ensures Times(InBucket(ns, b, hash), x) == if BucketOf(hash, x.row) == b then Times(ns, x) else 0
  {
    if ns != [] {
      var init, n := ns[..|ns| - 1], ns[|ns| - 1];
      InBucketTimes(init, b, hash, x);
      if BucketOf(hash, n.row) == b {
        TimesSnoc(InBucket(init, b, hash), n, x);
      } else {
        assert InBucket(ns, b, hash) == InBucket(init, b, hash);
      }
    }
  }

  lemma {:induction false} BucketsHoldAll(rows: seq<Row>, hash: Key -> nat, n: nat, x: Numbered)
    requires n <= SPILL_BUCKETS
    ensures Everything(BucketRows(rows, hash)[..n], RowsTally(rows, hash, x)) ==
            if BucketOf(hash, x.row) < n then Times(NumberedRows(rows), x) else 0
  {
    if n > 0 {
      var counts, b := BucketRows(rows, hash), n - 1;
      BucketsHoldAll(rows, hash, b, x);
      assert counts[..n][..b] == counts[..b];
      var xs := RowsIn(rows, b, hash);
      InBucketTimes(NumberedRows(rows), b, hash, x);
      assert xs[..Clamp(|xs|, |xs|)] == xs;
      assert xs[..Clamp(0, |xs|)] == [];
    }
  }

  ghost function TimesInAll(parts: seq<seq<Numbered>>, x: Numbered): nat {
    if parts == [] then 0 else TimesInAll(parts[..|parts| - 1], x) + Times(parts[|parts| - 1], x)
  }

  lemma {:induction false} PartsTally(
      plan: seq<seq<Range>>, parts: seq<seq<Numbered>>, rows: seq<Row>, hash: Key -> nat, x: Numbered)
    requires AllFit(plan, BucketRows(rows, hash)) && |parts| == |plan|
    requires forall i :: 0 <= i < |plan| ==> parts[i] == Arranged(Direct(plan[i], rows, hash))
    ensures TimesInAll(parts, x) == Amounts(plan, RowsTally(rows, hash, x))
  {
    if plan != [] {
      var k := |plan| - 1;
      PartsTally(plan[..k], parts[..k], rows, hash, x);
      ArrangedIsSorted(Direct(plan[k], rows, hash), x);
      DirectTally(plan[k], rows, hash, x);
    }
  }

  lemma PlanFits(bucketRows: seq<nat>, max: nat)
    requires max > 0
    ensures AllFit(Plan(bucketRows, max), bucketRows)
  {
    LayoutFits(bucketRows, max);
  }

  /** Every row ever added is in the parts as often as it was added. */
  lemma PartsHoldEveryRow(rows: seq<Row>, hash: Key -> nat, max: nat, x: Numbered)
    requires max > 0
    ensures TimesInAll(Parts(rows, hash, max), x) == Times(NumberedRows(rows), x)
  {
    var counts := BucketRows(rows, hash);
    PlanFits(counts, max);
    PartsTally(Plan(counts, max), Parts(rows, hash, max), rows, hash, x);
    PlanIsExact(counts, max, RowsTally(rows, hash, x));
    BucketsHoldAll(rows, hash, SPILL_BUCKETS, x);
    assert counts[..SPILL_BUCKETS] == counts;
  }

  /** Once, that is: with its own place in the order, and no row that was not added. */
  lemma {:induction false} AddedOnce(rows: seq<Row>, x: Numbered)
    ensures Times(NumberedRows(rows), x) == if x.ordinal < |rows| && rows[x.ordinal] == x.row then 1 else 0
  {
    if rows != [] {
      var init := rows[..|rows| - 1];
      AddedOnce(init, x);
      assert NumberedRows(rows) == NumberedRows(init) + [Numbered(|init|, rows[|init|])];
      TimesSnoc(NumberedRows(init), Numbered(|init|, rows[|init|]), x);
    }
  }

  /** No part is empty or over the bound, and each is sorted by key with ties in the order of adding. */
  lemma PartsAreSortedAndBounded(rows: seq<Row>, hash: Key -> nat, max: nat, i: nat)
    requires max > 0 && i < |Parts(rows, hash, max)|
    ensures 0 < |Parts(rows, hash, max)[i]| <= max && Ordered(Parts(rows, hash, max)[i])
  {
    var plan := Plan(BucketRows(rows, hash), max);
    PlanFits(BucketRows(rows, hash), max);
    PlanIsExact(BucketRows(rows, hash), max, (b, k) => 0);
    DirectTally(plan[i], rows, hash, Numbered(0, Row(Key(0), Key(0), 0)));
    ArrangedIsSorted(Direct(plan[i], rows, hash), Numbered(0, Row(Key(0), Key(0), 0)));
  }

  // ------------------------------------------------------------------ the writer

  /** The spill file holds every row spilled so far, bucket by bucket in the order of adding. */
  ghost predicate Stored(batches: seq<Batch>, bucketRows: seq<nat>, rows: seq<Row>, hash: Key -> nat) {
    && |bucketRows| == SPILL_BUCKETS && (forall k :: 0 <= k < |batches| ==> batches[k].bucket < SPILL_BUCKETS)
    && (forall b ::
        0 <= b < SPILL_BUCKETS ==>
        FileRows(batches, b) == RowsIn(rows, b, hash) && bucketRows[b] == |RowsIn(rows, b, hash)|)
  }

  lemma {:induction false} SameTally(
      rs: seq<Range>, batches: seq<Batch>, bucketRows: seq<nat>, rows: seq<Row>, hash: Key -> nat, x: Numbered)
    requires Stored(batches, bucketRows, rows, hash) && Fit(rs, bucketRows)
    ensures Amount(rs, FileTally(batches, x)) == Amount(rs, RowsTally(rows, hash, x))
  {
    if rs != [] {
      SameTally(rs[..|rs| - 1], batches, bucketRows, rows, hash, x);
    }
  }

  ghost predicate From(xs: seq<Numbered>, rows: seq<Row>) {
    forall i :: 0 <= i < |xs| ==> xs[i].ordinal < |rows| && xs[i].row == rows[xs[i].ordinal]
  }

  lemma {:induction false} InBucketFrom(ns: seq<Numbered>, b: nat, hash: Key -> nat, rows: seq<Row>)
    requires From(ns, rows)
    ensures From(InBucket(ns, b, hash), rows)
  {
    if ns != [] { InBucketFrom(ns[..|ns| - 1], b, hash, rows); }
  }

  lemma {:induction false} DirectFrom(rs: seq<Range>, rows: seq<Row>, hash: Key -> nat)
    ensures From(Direct(rs, rows, hash), rows)
  {
    if rs != [] {
      DirectFrom(rs[..|rs| - 1], rows, hash);
      InBucketFrom(NumberedRows(rows), rs[|rs| - 1].bucket, hash, rows);
    }
  }

  lemma ArrangedFrom(xs: seq<Numbered>, rows: seq<Row>)
    requires From(xs, rows)
    ensures From(Arranged(xs), rows) && OrdinalsDecide(Arranged(xs)) && Ordered(Arranged(xs))
  {
    var a := Arranged(xs);
    ArrangedIsSorted(xs, Numbered(0, Row(Key(0), Key(0), 0)));
    forall i | 0 <= i < |a| ensures a[i].ordinal < |rows| && a[i].row == rows[a[i].ordinal] {
      ArrangedIsSorted(xs, a[i]);
      TimesMember(a, a[i]);
      TimesMember(xs, a[i]);
      var j :| 0 <= j < |xs| && xs[j] == a[i];
    }
  }

  /** However the rows were spilled, what is read back for a part sorts to the same part. */
  lemma PartIsTheSame(rs: seq<Range>, batches: seq<Batch>, bucketRows: seq<nat>, rows: seq<Row>, hash: Key -> nat)
    requires Stored(batches, bucketRows, rows, hash) && Fit(rs, bucketRows)
    ensures Arranged(Gathered(batches, rs)) == Arranged(Direct(rs, rows, hash))
  {
    var direct, read := Direct(rs, rows, hash), Gathered(batches, rs);
    assert bucketRows == BucketRows(rows, hash);
    DirectFrom(rs, rows, hash);
    ArrangedFrom(direct, rows);
    forall y ensures Times(Arranged(direct), y) == Times(Arranged(read), y) {
      ArrangedIsSorted(direct, y);
      ArrangedIsSorted(read, y);
      DirectTally(rs, rows, hash, y);
      GatheredTally(batches, rs, y);
      SameTally(rs, batches, bucketRows, rows, hash, y);
    }
    ArrangedIsSorted(read, Numbered(0, Row(Key(0), Key(0), 0)));
    SortingIsUnique(Arranged(direct), Arranged(read));
  }

  /** A stable sort by bucket. */
  function ByBucket(ns: seq<Numbered>, n: nat, hash: Key -> nat): seq<Numbered> {
    if n == 0 then [] else ByBucket(ns, n - 1, hash) + InBucket(ns, n - 1, hash)
  }

  lemma {:induction false} ByBucketSlice(ns: seq<Numbered>, b: nat, n: nat, hash: Key -> nat)
    requires b < n
    ensures var offset := |ByBucket(ns, b, hash)|; var count := |InBucket(ns, b, hash)|;
            Slice(ByBucket(ns, n, hash), offset, count) == InBucket(ns, b, hash)
            && offset + count <= |ByBucket(ns, n, hash)|
    decreases n
  {
    var init, last := ByBucket(ns, n - 1, hash), InBucket(ns, n - 1, hash);
    if b < n - 1 {
      ByBucketSlice(ns, b, n - 1, hash);
      var offset, count := |ByBucket(ns, b, hash)|, |InBucket(ns, b, hash)|;
      assert (init + last)[offset..offset + count] == init[offset..offset + count];
    } else {
      assert (init + last)[|init|..|init| + |last|] == last;
    }
  }

  method CountBuckets(ns: seq<Numbered>, hash: Key -> nat) returns (counts: seq<nat>)
    ensures |counts| == SPILL_BUCKETS && forall b :: 0 <= b < SPILL_BUCKETS ==> counts[b] == |InBucket(ns, b, hash)|
  {
    counts := seq(SPILL_BUCKETS, i => 0);
    for k := 0 to |ns|
      invariant |counts| == SPILL_BUCKETS
                && forall b :: 0 <= b < SPILL_BUCKETS ==> counts[b] == |InBucket(ns[..k], b, hash)|
    {
      assert ns[..k + 1][..k] == ns[..k];
      var bucket := BucketOf(hash, ns[k].row);
      counts := counts[bucket := counts[bucket] + 1];
    }
    assert ns[..|ns|] == ns;
  }

  /** The buckets below `n` have been written. */
  ghost predicate SpilledUpTo(
      n: nat, ns: seq<Numbered>, hash: Key -> nat, batches: seq<Batch>, bucketRows: seq<nat>, file: seq<Batch>,
      counted: seq<nat>)
  {
    && |counted| == |bucketRows| == SPILL_BUCKETS && (forall k :: 0 <= k < |file| ==> file[k].bucket < SPILL_BUCKETS)
    && (forall b :: 0 <= b < SPILL_BUCKETS ==>
          && FileRows(file, b) == FileRows(batches, b) + (if b < n then InBucket(ns, b, hash) else [])
          && counted[b] == bucketRows[b] + (if b < n then |InBucket(ns, b, hash)| else 0))
  }

  lemma SpillOne(
      n: nat, ns: seq<Numbered>, hash: Key -> nat, batches: seq<Batch>, bucketRows: seq<nat>, file: seq<Batch>,
      counted: seq<nat>)
    requires n < SPILL_BUCKETS && SpilledUpTo(n, ns, hash, batches, bucketRows, file, counted)
    ensures var rows := InBucket(ns, n, hash);
            if rows == [] then SpilledUpTo(n + 1, ns, hash, batches, bucketRows, file, counted)
            else SpilledUpTo(n + 1, ns, hash, batches, bucketRows, file + [Batch(n, rows)],
                counted[n := counted[n] + |rows|])
  {
    var batch := Batch(n, InBucket(ns, n, hash));
    forall b | 0 <= b < SPILL_BUCKETS
      ensures FileRows(file + [batch], b) == FileRows(file, b) + (if b == n then batch.rows else [])
    {
      FileRowsSnoc(file, batch, b);
    }
  }

  /** One batch per bucket that has rows, cut from the rows sorted by bucket. */
  method SpillRows(ns: seq<Numbered>, hash: Key -> nat, batches: seq<Batch>, bucketRows: seq<nat>)
      returns (file: seq<Batch>, counted: seq<nat>)
    requires |bucketRows| == SPILL_BUCKETS && forall k :: 0 <= k < |batches| ==> batches[k].bucket < SPILL_BUCKETS
    ensures SpilledUpTo(SPILL_BUCKETS, ns, hash, batches, bucketRows, file, counted)
  {
    var sorted := ByBucket(ns, SPILL_BUCKETS, hash);
    var counts := CountBuckets(ns, hash);
    file, counted := batches, bucketRows;
    var offset := 0;
    for bucket := 0 to SPILL_BUCKETS
      invariant offset == |ByBucket(ns, bucket, hash)|
      invariant SpilledUpTo(bucket, ns, hash, batches, bucketRows, file, counted)
    {
      ByBucketSlice(ns, bucket, SPILL_BUCKETS, hash);
      SpillOne(bucket, ns, hash, batches, bucketRows, file, counted);
      if counts[bucket] != 0 {
        file := file + [Batch(bucket, Slice(sorted, offset, counts[bucket]))];
        counted := counted[bucket := counted[bucket] + counts[bucket]];
        offset := offset + counts[bucket];
      }
    }
  }

  lemma StoredMore(
      batches: seq<Batch>, counted: seq<nat>, file: seq<Batch>, now: seq<nat>, rows: seq<Row>, buffer: seq<Row>,
      hash: Key -> nat)
    requires Stored(batches, counted, rows, hash)
    requires SpilledUpTo(SPILL_BUCKETS, NumberedFrom(buffer, |rows|), hash, batches, counted, file, now)
    ensures Stored(file, now, rows + buffer, hash)
  {
    assert NumberedRows(rows + buffer) == NumberedRows(rows) + NumberedFrom(buffer, |rows|);
    forall b | 0 <= b < SPILL_BUCKETS
      ensures FileRows(file, b) == RowsIn(rows + buffer, b, hash) && now[b] == |RowsIn(rows + buffer, b, hash)|
    {
      InBucketJoin(NumberedRows(rows), NumberedFrom(buffer, |rows|), b, hash);
    }
  }

  class TableWriter {
    const hash: Key -> nat
    const maxPartRows: nat
    const flushRows: nat
    var buffer: seq<Row>
    var added: nat
    var bucketRows: seq<nat>
    var batches: seq<Batch>
    var done: bool
    ghost var rows: seq<Row>

    /** What was added is what was spilled and then what is buffered, less than `flushRows` rows. */
    ghost predicate Valid()
      reads this
    {
      Holds() && (!done ==> |buffer| < flushRows)
    }

    ghost predicate Holds()
      reads this
    {
      && maxPartRows > 0 && flushRows > 0
      && (!done ==> added <= |rows| && buffer == rows[added..] && Stored(batches, bucketRows, rows[..added], hash))
    }

    constructor (hash: Key -> nat, maxPartRows: nat, flushRows: nat)
      requires maxPartRows > 0 && flushRows > 0
      ensures Valid() && !done && rows == [] && this.hash == hash && this.maxPartRows == maxPartRows
              && this.flushRows == flushRows
    {
      this.hash, this.maxPartRows, this.flushRows := hash, maxPartRows, flushRows;
      buffer, added, batches, done, rows := [], 0, [], false, [];
      bucketRows := seq(SPILL_BUCKETS, i => 0);
    }

    /** `false` stands for the error of a writer that has finished. */
    method Add(row: Row) returns (ok: bool)
      requires Valid()
      modifies this
      ensures Valid() && done == old(done) && ok == !done
      ensures rows == if ok then old(rows) + [row] else old(rows)
    {
      if done { return false; }
      rows := rows + [row];
      buffer := buffer + [row];
      assert rows[..added] == old(rows)[..added];
      if |buffer| >= flushRows { FlushBuffer(); }
      return true;
    }

    method FlushBuffer()
      requires Holds() && !done
      modifies this
      ensures Valid() && !done && rows == old(rows) && buffer == []
    {
      if buffer == [] { return; }
      var file, counted := SpillBuffer(buffer, rows[..added], added, batches, bucketRows, hash);
      assert rows[..added] + buffer == rows && rows[..|rows|] == rows;
      batches, bucketRows, added, buffer := file, counted, added + |buffer|, [];
    }

    /** The parts are decided by the rows added, the hash and the bound alone. */
    method Finish() returns (ok: bool, parts: seq<seq<Numbered>>)
      requires Valid()
      modifies this
      ensures Valid() && done && rows == old(rows) && buffer == [] && batches == []
      ensures ok == !old(done)
      ensures ok ==> parts == Parts(rows, hash, maxPartRows)
    {
      parts := [];
      if done {
        Close();
        return false, parts;
      }
      FlushBuffer();
      assert rows[..added] == rows;
      var plan := PlanParts(bucketRows, maxPartRows);
      assert bucketRows == BucketRows(rows, hash);
      PlanFits(bucketRows, maxPartRows);
      parts := WriteParts(plan, batches, bucketRows, rows, hash);
      Close();
      ok := true;
    }

    method Close()
      requires Valid()
      modifies this`done, this`buffer, this`batches
      ensures Valid() && done && buffer == [] && batches == []
    {
      done, buffer, batches := true, [], [];
    }
  }

  method WriteParts(
      plan: seq<seq<Range>>, batches: seq<Batch>, bucketRows: seq<nat>, ghost rows: seq<Row>, hash: Key -> nat)
      returns (parts: seq<seq<Numbered>>)
    requires Stored(batches, bucketRows, rows, hash) && AllFit(plan, bucketRows)
    ensures |parts| == |plan| && forall i :: 0 <= i < |plan| ==> parts[i] == Arranged(Direct(plan[i], rows, hash))
  {
    parts := [];
    for i := 0 to |plan|
      invariant |parts| == i && forall k :: 0 <= k < i ==> parts[k] == Arranged(Direct(plan[k], rows, hash))
    {
      var part := WritePart(plan[i], batches, bucketRows, rows, hash);
      parts := parts + [part];
    }
  }

  method WritePart(rs: seq<Range>, batches: seq<Batch>, bucketRows: seq<nat>, ghost rows: seq<Row>, hash: Key -> nat)
      returns (part: seq<Numbered>)
    requires Stored(batches, bucketRows, rows, hash) && Fit(rs, bucketRows)
    ensures part == Arranged(Direct(rs, rows, hash))
  {
    var read := Gather(batches, rs);
    PartIsTheSame(rs, batches, bucketRows, rows, hash);
    part := Arranged(read);
  }

  method SpillBuffer(
      buffer: seq<Row>, ghost spilled: seq<Row>, added: nat, batches: seq<Batch>, bucketRows: seq<nat>,
      hash: Key -> nat)
      returns (file: seq<Batch>, counted: seq<nat>)
    requires Stored(batches, bucketRows, spilled, hash) && added == |spilled|
    ensures Stored(file, counted, spilled + buffer, hash)
  {
    file, counted := SpillRows(NumberedFrom(buffer, added), hash, batches, bucketRows);
    StoredMore(batches, bucketRows, file, counted, spilled, buffer, hash);
  }
}
