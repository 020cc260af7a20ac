/** Which buckets share a part, and which are cut: `plan_parts` of `src/tape/bake/spill.py`. */
module Parting {
  import opened Prelude
  import opened Spill

  // ------------------------------------------------------------------ the ranges in the order of the parts

  function Flat(parts: seq<seq<Range>>): seq<Range> {
    if parts == [] then [] else Flat(parts[..|parts| - 1]) + parts[|parts| - 1]
  }

  lemma FlatSnoc(parts: seq<seq<Range>>, part: seq<Range>)
    ensures Flat(parts + [part]) == Flat(parts) + part
  {
    assert (parts + [part])[..|parts|] == parts;
  }

  lemma {:induction false} FlatJoin(a: seq<seq<Range>>, b: seq<seq<Range>>)
    ensures Flat(a + b) == Flat(a) + Flat(b)
  {
    if b == [] {
      assert a + b == a;
    } else {
      var init, last := b[..|b| - 1], b[|b| - 1];
      FlatJoin(a, init);
      assert a + b == (a + init) + [last];
      FlatSnoc(a + init, last);
      Join(Flat(a), Flat(init), last);
    }
  }

  lemma {:induction false} FlatHolds(parts: seq<seq<Range>>, i: nat, r: Range)
    requires i < |parts| && r in parts[i]
    ensures r in Flat(parts)
  {
    if i < |parts| - 1 { FlatHolds(parts[..|parts| - 1], i, r); }
  }

  lemma {:induction false} FlatFrom(parts: seq<seq<Range>>, r: Range) returns (i: nat)
    requires r in Flat(parts)
    ensures i < |parts| && r in parts[i]
  {
    if r in parts[|parts| - 1] {
      i := |parts| - 1;
    } else {
      i := FlatFrom(parts[..|parts| - 1], r);
    }
  }

  /** The rows of the first come before those of the second. */
  ghost predicate RowsBefore(a: Range, b: Range) {
    a.bucket < b.bucket || (a.bucket == b.bucket && a.end <= b.first)
  }

  ghost predicate InTurn(rs: seq<Range>) {
    forall j, k :: 0 <= j < k < |rs| ==> RowsBefore(rs[j], rs[k])
  }

  ghost predicate Within(rs: seq<Range>, n: nat) {
    forall k :: 0 <= k < |rs| ==> rs[k].bucket < n
  }

  /** Full pieces of one bucket. */
  ghost predicate PiecesOf(rs: seq<Range>, bucket: nat, first: nat, end: nat, max: nat) {
    forall k :: 0 <= k < |rs| ==>
      rs[k].bucket == bucket && first <= rs[k].first < rs[k].end <= end && rs[k].end - rs[k].first == max
  }

  lemma PrependPiece(bucket: nat, first: nat, end: nat, max: nat, rs: seq<Range>)
    requires max > 0 && first + max <= end && InTurn(rs) && PiecesOf(rs, bucket, first + max, end, max)
    ensures InTurn([Range(bucket, first, first + max)] + rs)
    ensures PiecesOf([Range(bucket, first, first + max)] + rs, bucket, first, end, max)
  {
  }

  lemma FlatOne(r: Range)
    ensures Flat([[r]]) == [r]
  {
    FlatSnoc([], [r]);
    assert [] + [[r]] == [[r]] && [] + [r] == [r];
  }

  lemma {:induction false} CutsInTurn(bucket: nat, first: nat, rows: nat, max: nat)
    requires max > 0 && first <= rows
    ensures InTurn(Flat(Cuts(bucket, first, rows, max)))
    ensures PiecesOf(Flat(Cuts(bucket, first, rows, max)), bucket, first, CutTo(first, rows, max), max)
    decreases rows - first
  {
    if rows - first > max {
      CutsInTurn(bucket, first + max, rows, max);
      FlatJoin([[Range(bucket, first, first + max)]], Cuts(bucket, first + max, rows, max));
      FlatOne(Range(bucket, first, first + max));
      PrependPiece(bucket, first, CutTo(first, rows, max), max, Flat(Cuts(bucket, first + max, rows, max)));
    }
  }

  /** Everything laid out so far. */
  function AllRanges(l: Layout): seq<Range> {
    Flat(l.parts) + l.current
  }

  lemma RoomKeepsRanges(l: Layout, rows: nat, max: nat)
    ensures AllRanges(MakeRoom(l, rows, max)) == AllRanges(l)
  {
    FlatSnoc(l.parts, l.current);
  }

  lemma JoinTurns(before: seq<Range>, pieces: seq<Range>, last: Range, n: nat, max: nat)
    requires InTurn(before) && Within(before, n) && InTurn(pieces) && PiecesOf(pieces, n, 0, last.first, max)
    requires last.bucket == n
    ensures InTurn(before + pieces + [last]) && Within(before + pieces + [last], n + 1)
  {
  }

  /** What is laid out of the next bucket: full pieces if it is too large, and the rest of it. */
  lemma PlacedRanges(l: Layout, bucket: nat, rows: nat, max: nat)
    requires max > 0 && rows > 0
    ensures var roomy := MakeRoom(l, rows, max);
            Flat(Placed(l, bucket, rows, max).parts) == Flat(roomy.parts) + Flat(Cuts(bucket, 0, rows, max))
  {
    FlatJoin(MakeRoom(l, rows, max).parts, Cuts(bucket, 0, rows, max));
  }

  lemma PlacedInTurn(l: Layout, n: nat, rows: nat, max: nat)
    requires max > 0 && WellLaid(l, max) && InTurn(AllRanges(l)) && Within(AllRanges(l), n)
    ensures var all := AllRanges(Placed(l, n, rows, max)); InTurn(all) && Within(all, n + 1)
  {
    if rows > 0 {
      var roomy, pieces := MakeRoom(l, rows, max), Flat(Cuts(n, 0, rows, max));
      var last := Range(n, CutTo(0, rows, max), rows);
      RoomKeepsRanges(l, rows, max);
      MakeRoomKeeps(l, rows, max);
      PlacedRanges(l, n, rows, max);
      CutsInTurn(n, 0, rows, max);
      if rows <= max {
        assert Cuts(n, 0, rows, max) == [] && pieces == [];
      } else {
        assert roomy.current == [];
      }
      assert AllRanges(Placed(l, n, rows, max)) == AllRanges(l) + pieces + [last];
      JoinTurns(AllRanges(l), pieces, last, n, max);
    }
  }

  lemma {:induction false} LayoutInTurn(bucketRows: seq<nat>, max: nat)
    requires max > 0
    ensures InTurn(AllRanges(LaidOut(bucketRows, max))) && Within(AllRanges(LaidOut(bucketRows, max)), |bucketRows|)
  {
    if bucketRows != [] {
      var init := bucketRows[..|bucketRows| - 1];
      LayoutInTurn(init, max);
      LayoutIsBounded(init, max);
      PlacedInTurn(LaidOut(init, max), |init|, bucketRows[|init|], max);
    }
  }

  /** Read part by part, the ranges go through the buckets in order and through each bucket in the order its rows were
      added. */
  lemma PartsInTurn(bucketRows: seq<nat>, max: nat)
    requires max > 0
    ensures InTurn(Flat(Plan(bucketRows, max)))
  {
    LayoutInTurn(bucketRows, max);
    PlanIsAll(bucketRows, max);
  }

  lemma PlanIsAll(bucketRows: seq<nat>, max: nat)
    requires max > 0
    ensures Flat(Plan(bucketRows, max)) == AllRanges(LaidOut(bucketRows, max))
  {
    var l := LaidOut(bucketRows, max);
    FlatSnoc(l.parts, l.current);
    if l.current == [] { assert Flat(l.parts) + [] == Flat(l.parts); }
  }

  // ------------------------------------------------------------------ whole buckets and pieces

  /** A range ends where its bucket does, or is a full piece of one too large for a part. */
  ghost predicate EndsOrFills(r: Range, bucketRows: seq<nat>, max: nat) {
    && r.bucket < |bucketRows| && r.first < r.end <= bucketRows[r.bucket]
    && (r.end == bucketRows[r.bucket] || r.end - r.first == max)
  }

  /** A piece that its bucket goes on after has a part to itself. */
  ghost predicate PieceAlone(part: seq<Range>, bucketRows: seq<nat>) {
    forall k :: 0 <= k < |part| && part[k].bucket < |bucketRows| && part[k].end != bucketRows[part[k].bucket] ==>
      |part| == 1
  }

  ghost predicate PartOk(part: seq<Range>, bucketRows: seq<nat>, max: nat) {
    && (forall k :: 0 <= k < |part| ==> EndsOrFills(part[k], bucketRows, max))
    && PieceAlone(part, bucketRows)
  }

  ghost predicate PartsOk(parts: seq<seq<Range>>, bucketRows: seq<nat>, max: nat) {
    forall i :: 0 <= i < |parts| ==> PartOk(parts[i], bucketRows, max)
  }

  /** What is not closed yet holds ends of buckets only. */
  ghost predicate OpenOk(current: seq<Range>, bucketRows: seq<nat>, max: nat) {
    forall k :: 0 <= k < |current| ==>
      EndsOrFills(current[k], bucketRows, max) && current[k].end == bucketRows[current[k].bucket]
  }

  lemma PartOkMore(part: seq<Range>, init: seq<nat>, rows: nat, max: nat)
    requires PartOk(part, init, max)
    ensures PartOk(part, init + [rows], max)
  {
  }

  lemma PartsOkMore(parts: seq<seq<Range>>, init: seq<nat>, rows: nat, max: nat)
    requires PartsOk(parts, init, max)
    ensures PartsOk(parts, init + [rows], max)
  {
    forall i | 0 <= i < |parts| ensures PartOk(parts[i], init + [rows], max) {
      PartOkMore(parts[i], init, rows, max);
    }
  }

  lemma OpenOkMore(current: seq<Range>, init: seq<nat>, rows: nat, max: nat)
    requires OpenOk(current, init, max)
    ensures OpenOk(current, init + [rows], max)
  {
  }

  lemma {:induction false} CutsOk(bucketRows: seq<nat>, bucket: nat, first: nat, rows: nat, max: nat)
    requires max > 0 && first <= rows && bucket < |bucketRows| && bucketRows[bucket] == rows
    ensures PartsOk(Cuts(bucket, first, rows, max), bucketRows, max)
    decreases rows - first
  {
    if rows - first > max { CutsOk(bucketRows, bucket, first + max, rows, max); }
  }

  lemma PartsOkJoin(a: seq<seq<Range>>, b: seq<seq<Range>>, bucketRows: seq<nat>, max: nat)
    requires PartsOk(a, bucketRows, max) && PartsOk(b, bucketRows, max)
    ensures PartsOk(a + b, bucketRows, max)
  {
  }

  lemma RoomOk(l: Layout, rows: nat, bucketRows: seq<nat>, max: nat)
    requires PartsOk(l.parts, bucketRows, max) && OpenOk(l.current, bucketRows, max)
    ensures PartsOk(MakeRoom(l, rows, max).parts, bucketRows, max)
    ensures OpenOk(MakeRoom(l, rows, max).current, bucketRows, max)
  {
    assert PartOk(l.current, bucketRows, max);
    PartsOkJoin(l.parts, [l.current], bucketRows, max);
  }

  lemma {:induction false} LayoutOk(bucketRows: seq<nat>, max: nat)
    requires max > 0
    ensures PartsOk(LaidOut(bucketRows, max).parts, bucketRows, max)
    ensures OpenOk(LaidOut(bucketRows, max).current, bucketRows, max)
  {
    if bucketRows != [] {
      var init, n, rows := bucketRows[..|bucketRows| - 1], |bucketRows| - 1, bucketRows[|bucketRows| - 1];
      assert bucketRows == init + [rows];
      LayoutOk(init, max);
      var before := LaidOut(init, max);
      PartsOkMore(before.parts, init, rows, max);
      OpenOkMore(before.current, init, rows, max);
      if rows > 0 {
        RoomOk(before, rows, bucketRows, max);
        CutsOk(bucketRows, n, 0, rows, max);
        CutLeavesRoom(rows, max);
        PartsOkJoin(MakeRoom(before, rows, max).parts, Cuts(n, 0, rows, max), bucketRows, max);
      }
    }
  }

  /** Every bucket that has rows and fits a part is laid out whole. */
  ghost predicate Wholes(all: seq<Range>, bucketRows: seq<nat>, max: nat) {
    forall b: nat :: b < |bucketRows| && 0 < bucketRows[b] <= max ==> Range(b, 0, bucketRows[b]) in all
  }

  lemma {:induction false} LayoutHasWholes(bucketRows: seq<nat>, max: nat)
    requires max > 0
    ensures Wholes(AllRanges(LaidOut(bucketRows, max)), bucketRows, max)
  {
    if bucketRows != [] {
      var init, n, rows := bucketRows[..|bucketRows| - 1], |bucketRows| - 1, bucketRows[|bucketRows| - 1];
      LayoutHasWholes(init, max);
      var before := LaidOut(init, max);
      RoomKeepsRanges(before, rows, max);
      if rows > 0 {
        PlacedRanges(before, n, rows, max);
        CutLeavesRoom(rows, max);
      }
      forall b: nat | b < |bucketRows| && 0 < bucketRows[b] <= max
        ensures Range(b, 0, bucketRows[b]) in AllRanges(LaidOut(bucketRows, max))
      {
        if b < n { assert init[b] == bucketRows[b]; }
      }
    }
  }

  lemma TurnOrSame(all: seq<Range>, j: nat, k: nat)
    requires InTurn(all) && j < |all| && k < |all|
    ensures j == k || RowsBefore(all[j], all[k]) || RowsBefore(all[k], all[j])
  {
  }

  lemma ApartFromWhole(a: Range, b: Range, bucketRows: seq<nat>, max: nat)
    requires EndsOrFills(a, bucketRows, max) && EndsOrFills(b, bucketRows, max) && a.bucket == b.bucket
    requires a.first == 0 && a.end == bucketRows[a.bucket]
    ensures !RowsBefore(a, b) && !RowsBefore(b, a)
  {
  }

  lemma OnlyWhole(all: seq<Range>, r: Range, bucketRows: seq<nat>, max: nat)
    requires InTurn(all) && r in all && EndsOrFills(r, bucketRows, max) && Wholes(all, bucketRows, max)
    requires bucketRows[r.bucket] <= max
    ensures r == Range(r.bucket, 0, bucketRows[r.bucket])
  {
    var whole := Range(r.bucket, 0, bucketRows[r.bucket]);
    assert whole in all;
    var j: nat :| j < |all| && all[j] == whole;
    var k: nat :| k < |all| && all[k] == r;
    ApartFromWhole(whole, r, bucketRows, max);
    TurnOrSame(all, j, k);
  }

  lemma PlanIsOk(bucketRows: seq<nat>, max: nat)
    requires max > 0
    ensures PartsOk(Plan(bucketRows, max), bucketRows, max)
  {
    LayoutOk(bucketRows, max);
    assert PartOk(LaidOut(bucketRows, max).current, bucketRows, max);
    PartsOkJoin(LaidOut(bucketRows, max).parts, [LaidOut(bucketRows, max).current], bucketRows, max);
  }

  lemma OkSays(part: seq<Range>, r: Range, bucketRows: seq<nat>, max: nat)
    requires PartOk(part, bucketRows, max) && r in part
    ensures EndsOrFills(r, bucketRows, max)
    ensures r.end < bucketRows[r.bucket] ==> r.end - r.first == max && part == [r]
  {
  }

  /** A bucket that fits a part is whole in one part, so that the rows of its markets share a file. A larger one is cut
      into full pieces, each a part of its own, and its remainder. */
  lemma BucketsStayWhole(bucketRows: seq<nat>, max: nat, i: nat, r: Range)
    requires max > 0 && i < |Plan(bucketRows, max)| && r in Plan(bucketRows, max)[i]
    ensures r.bucket < |bucketRows| && r.first < r.end <= bucketRows[r.bucket]
    ensures bucketRows[r.bucket] <= max ==> r.first == 0 && r.end == bucketRows[r.bucket]
    ensures r.end < bucketRows[r.bucket] ==> r.end - r.first == max && Plan(bucketRows, max)[i] == [r]
  {
    PlanIsOk(bucketRows, max);
    OkSays(Plan(bucketRows, max)[i], r, bucketRows, max);
    PlanIsAll(bucketRows, max);
    FlatHolds(Plan(bucketRows, max), i, r);
    LayoutHasWholes(bucketRows, max);
    LayoutInTurn(bucketRows, max);
    if bucketRows[r.bucket] <= max { OnlyWhole(Flat(Plan(bucketRows, max)), r, bucketRows, max); }
  }

  // ------------------------------------------------------------------ no part could have taken the next bucket

  ghost predicate NoRoomFor(part: seq<Range>, next: seq<Range>, bucketRows: seq<nat>, max: nat) {
    && next != [] && next[0].bucket < |bucketRows|
    && Size(part) + bucketRows[next[0].bucket] > max
  }

  ghost predicate Chained(parts: seq<seq<Range>>, bucketRows: seq<nat>, max: nat) {
    forall i: nat :: i + 1 < |parts| ==> NoRoomFor(parts[i], parts[i + 1], bucketRows, max)
  }

  lemma ChainedJoin(a: seq<seq<Range>>, b: seq<seq<Range>>, bucketRows: seq<nat>, max: nat)
    requires Chained(a, bucketRows, max) && Chained(b, bucketRows, max)
    requires a != [] && b != [] ==> NoRoomFor(a[|a| - 1], b[0], bucketRows, max)
    ensures Chained(a + b, bucketRows, max)
  {
  }

  lemma ChainedMore(parts: seq<seq<Range>>, init: seq<nat>, rows: nat, max: nat)
    requires Chained(parts, init, max)
    ensures Chained(parts, init + [rows], max)
  {
    forall i: nat | i + 1 < |parts| ensures NoRoomFor(parts[i], parts[i + 1], init + [rows], max) {
      assert NoRoomFor(parts[i], parts[i + 1], init, max);
    }
  }

  /** The pieces of a bucket and its remainder. */
  function CutUp(bucket: nat, first: nat, rows: nat, max: nat): seq<seq<Range>>
    requires max > 0 && first <= rows
  {
    Cuts(bucket, first, rows, max) + [[Range(bucket, CutTo(first, rows, max), rows)]]
  }

  lemma {:induction false} CutUpIsChained(bucketRows: seq<nat>, bucket: nat, first: nat, rows: nat, max: nat)
    requires max > 0 && first < rows && bucket < |bucketRows| && bucketRows[bucket] == rows
    ensures Chained(CutUp(bucket, first, rows, max), bucketRows, max)
    ensures |CutUp(bucket, first, rows, max)[0]| == 1 && CutUp(bucket, first, rows, max)[0][0].bucket == bucket
    decreases rows - first
  {
    if rows - first > max {
      var one, rest := [Range(bucket, first, first + max)], CutUp(bucket, first + max, rows, max);
      CutUpIsChained(bucketRows, bucket, first + max, rows, max);
      assert CutUp(bucket, first, rows, max) == [one] + rest;
      SizeSnoc([], Range(bucket, first, first + max));
      assert [] + [Range(bucket, first, first + max)] == one;
      ChainedJoin([one], rest, bucketRows, max);
    }
  }

  ghost predicate LayoutChained(l: Layout, bucketRows: seq<nat>, max: nat) {
    if l.current == [] then l.parts == [] else Chained(l.parts + [l.current], bucketRows, max)
  }

  lemma LongerLast(parts: seq<seq<Range>>, part: seq<Range>, r: Range, bucketRows: seq<nat>, max: nat)
    requires part != [] && Chained(parts + [part], bucketRows, max)
    ensures Chained(parts + [part + [r]], bucketRows, max)
  {
    var was, now := parts + [part], parts + [part + [r]];
    forall i: nat | i + 1 < |now| ensures NoRoomFor(now[i], now[i + 1], bucketRows, max) {
      assert NoRoomFor(was[i], was[i + 1], bucketRows, max);
    }
  }

  lemma PlacedIsChained(l: Layout, bucketRows: seq<nat>, n: nat, max: nat)
    requires max > 0 && n < |bucketRows| && bucketRows[n] > 0
    requires WellLaid(l, max) && LayoutChained(l, bucketRows, max)
    ensures LayoutChained(Placed(l, n, bucketRows[n], max), bucketRows, max)
  {
    var rows := bucketRows[n];
    var after, last := Placed(l, n, rows, max), Range(n, CutTo(0, rows, max), rows);
    if l.current != [] && l.currentRows + rows <= max {
      assert after == Layout(l.parts + [], l.current + [last], after.currentRows);
      assert l.parts + [] == l.parts;
      LongerLast(l.parts, l.current, last, bucketRows, max);
    } else {
      var before := if l.current == [] then [] else l.parts + [l.current];
      CutUpIsChained(bucketRows, n, 0, rows, max);
      ChainedJoin(before, CutUp(n, 0, rows, max), bucketRows, max);
      assert [] + [last] == [last];
      assert after.parts + [after.current] == before + CutUp(n, 0, rows, max);
    }
  }

  lemma {:induction false} LayoutIsChained(bucketRows: seq<nat>, max: nat)
    requires max > 0
    ensures LayoutChained(LaidOut(bucketRows, max), bucketRows, max)
  {
    if bucketRows != [] {
      var init, n := bucketRows[..|bucketRows| - 1], |bucketRows| - 1;
      assert bucketRows == init + [bucketRows[n]];
      LayoutIsChained(init, max);
      LayoutIsBounded(init, max);
      var before := LaidOut(init, max);
      ChainedMore(before.parts + [before.current], init, bucketRows[n], max);
      if bucketRows[n] > 0 { PlacedIsChained(before, bucketRows, n, max); }
    }
  }

  /** The next part begins with a bucket that this one had no room for. */
  lemma PartsAreFull(bucketRows: seq<nat>, max: nat, i: nat)
    requires max > 0 && i + 1 < |Plan(bucketRows, max)|
    ensures var parts := Plan(bucketRows, max);
            && parts[i + 1] != [] && parts[i + 1][0].bucket < |bucketRows|
            && Size(parts[i]) + bucketRows[parts[i + 1][0].bucket] > max
  {
    LayoutIsChained(bucketRows, max);
    assert NoRoomFor(Plan(bucketRows, max)[i], Plan(bucketRows, max)[i + 1], bucketRows, max);
  }
}
